# Codebase Archaeologist — a verified model of the analysis core

Codebase Archaeologist reads a Python repository and reports on it. This project models the part that works on
already-loaded text, as Dafny definitions with proved contracts:

- the syntax-tree extractor, which turns a parsed module into function, class, import and global-variable records;
- the per-file and repository metrics: line classes, documentation coverage, averages and per-language tallies;
- the complexity post-processing: high-complexity flagging, rank bands and repository averages;
- the code-smell rules and the repository-wide duplicate grouping;
- the import-dependency graph and its analysis;
- the two-pass call graph, its analysis and the call-chain search;
- the orchestrator's per-file pipeline, its summary and the JSON conversion;
- GitHub URL normalisation and language filtering;
- the file-filter predicates and statistics;
- the sanitising and truncation helpers and the default configuration;
- the rule-based summariser;
- the model manager's Jaccard fallback and state flags;
- the prompt templates.

There is one Dafny module per source file, plus a few shared modules that model Python built-ins:

- `Seqs` holds sequences, sets, sums and means;
- `Text` holds `str.strip`, `split`, `join`, `str(int)`, and `lower` and `isupper` restricted to ASCII letters;
- `Paths` holds `pathlib` names and suffixes;
- `Ranking` holds the stable `sorted(..., reverse=True)` and slicing;
- `Digraph` holds an insertion-ordered directed graph with walks and cycle detection.

Where the source is imperative, the model is too. The extractor's lists, both graph builders' graphs and maps, and
the model manager's fields are class fields, and their methods state the new state in terms of the old. Loops that fill
counters or lists are methods with loop invariants. Each such method is proved equal to a specification function,
and the source's promises are then proved about that function as lemmas.

The syntax tree is a datatype. `ast.walk` is modelled as the breadth-first traversal it is. What `ast.parse`, radon
and the file system would return is passed in as a parameter.

The summariser and the prompt templates build their text by conditional appends and f-strings, without loops.
They are modelled as functions that concatenate the optional phrases, and the lemmas say which phrase appears
exactly when.

## Model

| member | source | states |
|---|---|---|
| Helpers.SanitizeChar | src/utils/helpers.py:62-67 | a character is changed exactly when it is one of the nine invalid characters (angle brackets, colon, double quote, slash, backslash, bar, question mark, asterisk), and what replaces it is never one of them |
| Helpers.Sanitized | src/utils/helpers.py:62-67 | the sanitised name has the same length, and each position holds the sanitised character of the input |
| Helpers.SanitizedProperties | src/utils/helpers.py:64-67 | no invalid character remains; valid characters are kept in place; sanitising twice equals sanitising once |
| Helpers.SanitizeFilename | src/utils/helpers.py:62-67 | the loop of one replace per invalid character computes exactly the sanitised name |
| Helpers.TruncateText | src/utils/helpers.py:98-102 | text that fits is returned unchanged; otherwise, for a limit of at least 3, the result has the limit's length and is the first limit−3 characters plus '...'; a truncated text always ends in '...' |
| Helpers.GetOr | src/utils/helpers.py:20-41 | a configuration lookup gives the stored value, or the default when the entry is missing |
| Helpers.DefaultLimits | src/utils/helpers.py:20-41 | the default configuration gives complexity limit 10, function-length limit 50, the class-length fallback 300, languages ['python'], a 10 MiB size limit and the local model off |
| AstParser.ChildInWalk | src/analysis/ast_parser.py:62 | the walk visits the children of every node it visits, so every node of the tree is visited |
| AstParser.QueueInWalk | src/analysis/ast_parser.py:62 | every node queued for the breadth-first walk is visited |
| AstParser.CallText | src/analysis/ast_parser.py:182-186 | a node contributes a call text exactly when it is a call whose callee is a bare name or an attribute |
| AstParser.CallsOf | src/analysis/ast_parser.py:178-187 | the call list of a function has no repeats |
| AstParser.CallsOfMeaning | src/analysis/ast_parser.py:178-187 | a text is in the call list exactly when some call in the function's tree has it as bare-name or attribute callee |
| AstParser.ExtractCalls | src/analysis/ast_parser.py:178-187 | the collecting loop followed by the removal of repeats gives exactly that call list |
| AstParser.ExtractFunction | src/analysis/ast_parser.py:90-122 | the record keeps the def's name, parameters and lines; its type is 'method' exactly when a parent class is given; num_lines is end−start+1 when an end line is known, else 0; is_async holds exactly for an async def; the calls are those of `_extract_calls` (each distinct callee text in the function's walk), with no repeats |
| AstParser.PlainDefs | src/analysis/ast_parser.py:134 | every item kept as a method is a plain def, and no more items are kept than the body has |
| AstParser.PlainDefsAppend | src/analysis/ast_parser.py:134 | the methods of two consecutive stretches of a body are the methods of the first followed by those of the second |
| AstParser.MethodNames | src/analysis/ast_parser.py:134-147 | one name per plain def of the body, in body order and with repeats kept, so a name is listed exactly when some plain def has it |
| AstParser.ExtractClass | src/analysis/ast_parser.py:124-149 | the class record keeps name, bases, docstring and lines; num_methods is the number of plain defs in the body and the i-th method name is the name of the i-th plain def; num_lines follows the same rule as for functions |
| AstParser.AliasMap | src/analysis/ast_parser.py:157 | a name has an alias entry exactly when some item with that name has a non-empty 'as' name |
| AstParser.AliasMapLast | src/analysis/ast_parser.py:157 | the alias recorded for a name is the non-empty 'as' name of the last item with that name that has one: a later duplicate overwrites an earlier entry |
| AstParser.ExtractImport | src/analysis/ast_parser.py:151-165 | an import statement gives an 'import' record listing its names in order, with the alias map of its items; a from-import gives a 'from_import' record with its module, names and level |
| AstParser.ExtractVariable | src/analysis/ast_parser.py:167-176 | an assignment gives a variable record exactly when its first target is a plain name, and the record holds that name and the statement's line |
| AstParser.VisitAllFunctions | src/analysis/ast_parser.py:62-77 | visiting nodes appends, in walk order, each node's function records |
| AstParser.VisitAllClasses | src/analysis/ast_parser.py:69-71 | visiting nodes appends, in walk order, each class node's record |
| AstParser.VisitAllImports | src/analysis/ast_parser.py:80-82 | visiting nodes appends, in walk order, each import node's record |
| AstParser.VisitAllGlobals | src/analysis/ast_parser.py:84-88 | visiting nodes appends, in walk order, the variable record of each assignment, when the walk started at a module |
| AstParser.EmptyResult | src/analysis/ast_parser.py:189-199 | the empty result keeps the file path and has empty lists and zero totals |
| AstParser.ResultOf | src/analysis/ast_parser.py:30-57 | the totals are the lengths of the function and class lists; a syntax error or any other parser failure gives the empty result for the same path |
| AstParser.MethodRecordedTwice | src/analysis/ast_parser.py:62-77 | every plain def directly in a class body is recorded twice: once with no parent class and once with the class as parent |
| AstParser.NeverAsync | src/analysis/ast_parser.py:64 | only plain defs are extracted, so no function record is asynchronous |
| AstParser.MethodRecordOrigin | src/analysis/ast_parser.py:73-77 | a record with a parent class comes from a class that the walk visited |
| AstParser.GlobalsAreAssignments | src/analysis/ast_parser.py:84-88 | the global-variable records are exactly the assignments anywhere in the module whose first target is a plain name, with their lines |
| AstParser.Parser.constructor | src/analysis/ast_parser.py:13-17 | a new parser has four empty lists |
| AstParser.Parser.AnalyzeNode | src/analysis/ast_parser.py:59-88 | the lists become the old lists extended by what each node of the breadth-first walk contributes |
| AstParser.Parser.Visit | src/analysis/ast_parser.py:63-88 | one visited node extends the lists by exactly its own contribution |
| AstParser.Parser.RecordMethods | src/analysis/ast_parser.py:73-77 | a class extends the function list by one method record per plain def in its body and leaves the other lists alone |
| AstParser.Parser.ParseFile | src/analysis/ast_parser.py:19-57 | the returned result is the specified result for the parse outcome; after a successful parse the lists are the result's lists; after a failure the parser is unchanged |
| MetricsCalculator.CountKindPartition | src/analysis/metrics_calculator.py:92-154 | every line is exactly one of source, comment and blank, so the three counts add up to the line count and the blank count is never negative |
| MetricsCalculator.TripleQuoteLine | src/analysis/metrics_calculator.py:109-143 | a line holding a triple quote flips the in-string state once and counts as one comment and never as source, even when it opens and closes a string on the same line |
| MetricsCalculator.LineStep | src/analysis/metrics_calculator.py:102-153 | reading one more line flips the state on a triple quote and adds one to the count of exactly the kind that line is classified as |
| MetricsCalculator.CountSloc | src/analysis/metrics_calculator.py:92-122 | the loop returns the number of lines classified as source |
| MetricsCalculator.CountComments | src/analysis/metrics_calculator.py:123-154 | the loop returns the number of lines classified as comments |
| MetricsCalculator.AvgFunctionLength | src/analysis/metrics_calculator.py:155-170 | 0 for no functions, otherwise the value that times the number of functions gives the total length |
| MetricsCalculator.AvgClassLength | src/analysis/metrics_calculator.py:171-186 | 0 for no classes, otherwise the value that times the number of classes gives the total length |
| MetricsCalculator.AvgFunctionLengthWithin | src/analysis/metrics_calculator.py:155-170 | the average lies between the shortest and the longest function |
| MetricsCalculator.Coverage | src/analysis/metrics_calculator.py:197-215 | documentation coverage lies in [0, 100], is 0 without items, otherwise documented times 100 over total, and is 100 exactly when every item is documented |
| MetricsCalculator.CalculateDocCoverage | src/analysis/metrics_calculator.py:187-216 | the two counting loops give the coverage of the documented functions plus classes over all of them, within [0, 100] |
| MetricsCalculator.Percent | src/analysis/metrics_calculator.py:55-56 | a ratio is 0 when the whole is not positive, otherwise part times 100 over whole, within [0, 100] for a part no larger than the whole |
| MetricsCalculator.CalculateFileMetrics | src/analysis/metrics_calculator.py:17-91 | total is the number of newline-separated pieces (one more than the newlines, so at least 1); source, comments and blank are the classified counts and add up to total; the documented counts are those the coverage is computed from |
| MetricsCalculator.LanguageFromExtension | src/analysis/metrics_calculator.py:309-326 | a listed extension maps to its table entry and only an unlisted one maps to "Unknown" |
| MetricsCalculator.CalculateLanguageMetrics | src/analysis/metrics_calculator.py:275-308 | the in-place dictionary loop builds the per-language table the tally specifies |
| MetricsCalculator.TallyWellFormed | src/analysis/metrics_calculator.py:285-307 | no language is listed twice and the listed languages are exactly the table's keys |
| MetricsCalculator.TallyFileSum | src/analysis/metrics_calculator.py:285-307 | the per-language file counts sum to the number of files |
| MetricsCalculator.TallyLineSum | src/analysis/metrics_calculator.py:285-307 | the per-language line counts sum to the total lines of all files |
| MetricsCalculator.TallyHas | src/analysis/metrics_calculator.py:285-307 | a language has an entry exactly when some file is in it |
| MetricsCalculator.TallyFiles | src/analysis/metrics_calculator.py:285-307 | each entry counts exactly the files in its language |
| MetricsCalculator.EmptyRepoMetrics | src/analysis/metrics_calculator.py:353-376 | the empty repository metrics have no files, no languages and all counts and the coverage at 0 |
| MetricsCalculator.CalculateRepositoryMetrics | src/analysis/metrics_calculator.py:227-274 | no files give exactly the empty metrics; otherwise every total is the sum of the per-file field, the structure averages and the coverage are per-file means, and the language breakdown is the tally |
| MetricsCalculator.RepositoryLanguageSums | src/analysis/metrics_calculator.py:240-272 | in the repository metrics the per-language file counts add up to total_files and the per-language lines to the total lines |
| MetricsCalculator.AverageCoverageBounds | src/analysis/metrics_calculator.py:250-270 | the average coverage of files whose coverage is in [0, 100] is in [0, 100] |
| ComplexityAnalyzer.MiRankOf | src/analysis/complexity_analyzer.py:125-138 | rank A exactly from 20 up, B exactly from 10 to below 20, C exactly below 10 |
| ComplexityAnalyzer.AverageComplexity | src/analysis/complexity_analyzer.py:118-124 | 0 for no blocks, otherwise the value that times the number of blocks gives the total complexity |
| ComplexityAnalyzer.MaxComplexityOf | src/analysis/complexity_analyzer.py:95 | the maximum is at least every block's complexity and is attained by some block, and is 0 for none |
| ComplexityAnalyzer.HighEntries | src/analysis/complexity_analyzer.py:87-89 | an entry is flagged exactly when it is an entry above the limit |
| ComplexityAnalyzer.HighEntriesSnoc | src/analysis/complexity_analyzer.py:78-89 | one more entry is appended to the flagged ones exactly when it is above the limit, after those already flagged |
| ComplexityAnalyzer.AverageWithinMax | src/analysis/complexity_analyzer.py:94-124 | the average lies between the smallest complexity and the maximum |
| ComplexityAnalyzer.EmptyResult | src/analysis/complexity_analyzer.py:183-198 | the failure result keeps the path, has no entries, no flagged count and an unknown rank |
| ComplexityAnalyzer.CollectEntries | src/analysis/complexity_analyzer.py:75-89 | the loop yields one entry per radon block in order, and the flagged list is the entries above the limit in order |
| ComplexityAnalyzer.AnalyzeFile | src/analysis/complexity_analyzer.py:20-117 | a radon failure gives the failure result; otherwise the file path, one entry per block in radon's order, the flagged entries and their count, the average, the maximum, the score and its rank |
| ComplexityAnalyzer.DefaultFlagging | src/analysis/complexity_analyzer.py:87-89 | with the default configuration a function is flagged exactly when its complexity is above 10 |
| ComplexityAnalyzer.PositiveAverages | src/analysis/complexity_analyzer.py:157-160 | only positive file averages are collected |
| ComplexityAnalyzer.PositiveScores | src/analysis/complexity_analyzer.py:162-165 | only positive maintainability scores are collected |
| ComplexityAnalyzer.HighFiles | src/analysis/complexity_analyzer.py:167-174 | every reported file has a positive count |
| ComplexityAnalyzer.HighFilesIff | src/analysis/complexity_analyzer.py:153-174 | a file is reported exactly when it has a complexity entry with a positive high-complexity count |
| ComplexityAnalyzer.MeanOfPositive | src/analysis/complexity_analyzer.py:177-178 | the mean of the collected values is positive exactly when some were collected, and 0 otherwise |
| ComplexityAnalyzer.AnalyzeRepository | src/analysis/complexity_analyzer.py:139-182 | the averages are the means of the positive values, the reported files are the files with flagged functions, and the total is their number |
| CodeSmellDetector.LimitsFrom | src/extraction/code_smell_detector.py:15-20 | the default configuration gives the limits 50 and 300 |
| CodeSmellDetector.LongFunctions | src/extraction/code_smell_detector.py:51-66 | a function is reported exactly when it is longer than the limit, with its entry, and never more entries than functions |
| CodeSmellDetector.LongClasses | src/extraction/code_smell_detector.py:67-83 | a class is reported exactly when it is longer than the limit, with its entry, and never more entries than classes |
| CodeSmellDetector.LongFunctionSeverity | src/extraction/code_smell_detector.py:57-62 | a reported function is longer than the limit, and its severity is high exactly when it is more than twice the limit |
| CodeSmellDetector.DetectLongFunctions | src/extraction/code_smell_detector.py:51-66 | the loop returns the long-function entries in order |
| CodeSmellDetector.DetectLongClasses | src/extraction/code_smell_detector.py:67-83 | the loop returns the long-class entries in order |
| CodeSmellDetector.MissingFunctionDocs | src/extraction/code_smell_detector.py:89-97 | a function is listed exactly when its docstring is missing or empty |
| CodeSmellDetector.MissingClassDocs | src/extraction/code_smell_detector.py:98-105 | a class is listed exactly when its docstring is missing or empty |
| CodeSmellDetector.DetectMissingDocstrings | src/extraction/code_smell_detector.py:84-107 | the undocumented functions come first, then the undocumented classes |
| CodeSmellDetector.RealParams | src/extraction/code_smell_detector.py:113-115 | the real parameters are exactly those other than self and cls, order kept |
| CodeSmellDetector.ManyParameters | src/extraction/code_smell_detector.py:112-124 | a function is reported exactly when it has more real parameters than the maximum |
| CodeSmellDetector.DetectManyParameters | src/extraction/code_smell_detector.py:108-126 | the loop returns the many-parameter entries in order, with a default maximum of 5 |
| CodeSmellDetector.FiveParamsNotFlagged | src/extraction/code_smell_detector.py:108-117 | five real parameters are not reported however many self and cls entries there are, and a sixth makes the function reported |
| CodeSmellDetector.CallName | src/extraction/code_smell_detector.py:143 | the name a call is looked up by is the text after its last dot, and the whole call when it has no dot |
| CodeSmellDetector.FunctionNames | src/extraction/code_smell_detector.py:135 | the name set holds exactly the names of the function records |
| CodeSmellDetector.CalledNamesHas | src/extraction/code_smell_detector.py:139-144 | the name of every call of every record is in the call set |
| CodeSmellDetector.FirstNamed | src/extraction/code_smell_detector.py:153 | the record found is the first with the name |
| CodeSmellDetector.CollectCallNames | src/extraction/code_smell_detector.py:137-144 | the loop builds the set of names every call reduces to |
| CodeSmellDetector.DeadLoopStep | src/extraction/code_smell_detector.py:148-159 | one turn over a name keeps the invariant: the entries so far are the dead names already visited, each once, with the line of its first record |
| CodeSmellDetector.DetectDeadCode | src/extraction/code_smell_detector.py:127-162 | a name is reported exactly when it is a function name of the file that no call reduces to, that does not start with a double underscore and is not main, run or execute; each is reported once, with the line of its first record and the fixed note |
| CodeSmellDetector.CalledNotDead | src/extraction/code_smell_detector.py:141-150 | a function called anywhere in the file, however the call is qualified, is never reported |
| CodeSmellDetector.DigitRunEnd | src/extraction/code_smell_detector.py:167 | the run of digits starting at a position ends at the first non-digit |
| CodeSmellDetector.MatchesFrom | src/extraction/code_smell_detector.py:167-177 | every match the scan yields is a run of two or more digits with neither a word character nor a dot on either side |
| CodeSmellDetector.MatchesFromComplete | src/extraction/code_smell_detector.py:167-177 | every such run at or after the scan's start is yielded |
| CodeSmellDetector.MatchesIff | src/extraction/code_smell_detector.py:167-177 | the matches of a line are exactly the runs the pattern describes |
| CodeSmellDetector.MatchRecords | src/extraction/code_smell_detector.py:177-184 | a record is made exactly for a match that is not 0, 1, 10 or 100 |
| CodeSmellDetector.LineRecordsSound | src/extraction/code_smell_detector.py:173-184 | each record of a line comes from a match that is not an acceptable number |
| CodeSmellDetector.LineRecordsComplete | src/extraction/code_smell_detector.py:173-184 | each match of a line that is not an acceptable number is recorded |
| CodeSmellDetector.MagicInSound | src/extraction/code_smell_detector.py:171-184 | every record is a match on a line that is neither a comment nor holds a triple quote, is not an acceptable number, and carries its line's 1-based number and the first 50 characters of the stripped line |
| CodeSmellDetector.MagicInComplete | src/extraction/code_smell_detector.py:171-184 | every such match is recorded |
| CodeSmellDetector.CollectLineRecords | src/extraction/code_smell_detector.py:176-184 | the inner loop collects the records of one line |
| CodeSmellDetector.MagicInStep | src/extraction/code_smell_detector.py:171-184 | scanning one more line appends exactly that line's records, or nothing for a skipped line |
| CodeSmellDetector.DetectMagicNumbers | src/extraction/code_smell_detector.py:163-187 | the result is the first ten records of the scan |
| CodeSmellDetector.GlobalSmells | src/extraction/code_smell_detector.py:188-199 | a global is reported exactly when its name is not all upper case and is neither __name__ nor __main__ |
| CodeSmellDetector.DetectSmells | src/extraction/code_smell_detector.py:21-50 | each category is its rule's result (dead code: exactly the dead names, each once, with its first line) and the total is the number of findings, bounded by three per function, two per class, the dead entries, ten magic numbers and one per global |
| CodeSmellDetector.KeyTextInjective | src/extraction/code_smell_detector.py:217 | the grouping key determines the function name and the parameter count |
| CodeSmellDetector.SignatureOfKey | src/extraction/code_smell_detector.py:227 | the reported signature is the function name up to its first underscore |
| CodeSmellDetector.OccurrencesOfMember | src/extraction/code_smell_detector.py:214-222 | an occurrence is filed under a key exactly when some record with that key produced it |
| CodeSmellDetector.TwoMakeAGroup | src/extraction/code_smell_detector.py:214-225 | two records with the same key give that key at least two occurrences |
| CodeSmellDetector.FileOccurrencesWithin | src/extraction/code_smell_detector.py:214-222 | a file's occurrences under a key are all in the repository-wide group |
| CodeSmellDetector.GroupAllSpec | src/extraction/code_smell_detector.py:211-222 | the insertion-ordered groups have distinct keys that are exactly the keys with a list, and each list is the occurrences filed under its key |
| CodeSmellDetector.DuplicateSound | src/extraction/code_smell_detector.py:224-230 | every reported duplicate is the group of one name and parameter count with at least two occurrences, all of that name, its count is their number, and its signature is the name up to the first underscore |
| CodeSmellDetector.DuplicateComplete | src/extraction/code_smell_detector.py:224-230 | every key with at least two occurrences is reported with all of them |
| CodeSmellDetector.MethodTwiceInFile | src/extraction/code_smell_detector.py:214-222 | the two records the parser makes for a method give its key two occurrences in its own file |
| CodeSmellDetector.MethodFormsGroup | src/extraction/code_smell_detector.py:200-232 | every method of a parsed file is reported as a duplicate in any repository containing that file |
| CodeSmellDetector.CollectDuplicates | src/extraction/code_smell_detector.py:224-231 | the reporting loop returns the groups of more than one occurrence in key order |
| CodeSmellDetector.DetectDuplicates | src/extraction/code_smell_detector.py:200-232 | the nested filing loop and the reporting loop return the specified duplicate list |
| DependencyExtractor.ModulePath | src/extraction/dependency_extractor.py:78-88 | the looked-up fragment is the module name with every dot replaced by a slash, the other characters kept |
| DependencyExtractor.Matching | src/extraction/dependency_extractor.py:80-91 | the matching loop keeps exactly the known paths that contain the fragment, in file order |
| DependencyExtractor.MatchPaths | src/extraction/dependency_extractor.py:80-91 | the loop over the known paths returns exactly the matching paths |
| DependencyExtractor.ResolvedIff | src/extraction/dependency_extractor.py:61-94 | an import resolves exactly to the known paths it names: for a plain import a path containing some module's path, for a from-import a path containing its module's path, and nothing when that module is missing or empty |
| DependencyExtractor.ResolveImport | src/extraction/dependency_extractor.py:61-94 | the method returns the specified resolution of the import |
| DependencyExtractor.AllResolvedIff | src/extraction/dependency_extractor.py:42-46 | a path is a dependency of a file exactly when it is known and one of the file's imports resolves to it |
| DependencyExtractor.FileKeys | src/extraction/dependency_extractor.py:31 | the file map's keys are the distinct file paths, each once |
| DependencyExtractor.AddFilesValid | src/extraction/dependency_extractor.py:34-46 | extraction keeps the dependency sets equal to the edges, and no file has an empty set |
| DependencyExtractor.AddFileGraph | src/extraction/dependency_extractor.py:35-46 | one file adds its node, and exactly the paths and edges of its resolved imports |
| DependencyExtractor.AddFilesNodes | src/extraction/dependency_extractor.py:34-46 | the old nodes stay first in their order, every file becomes a node, and a new node is a file or a known path |
| DependencyExtractor.AddFilesEdges | src/extraction/dependency_extractor.py:34-46 | the old edges stay first in their order, and an edge is new exactly when one of the files has an import resolving to its target |
| DependencyExtractor.FreshGraph | src/extraction/dependency_extractor.py:14-46 | on a fresh extractor the nodes are exactly the analysed files and the edges exactly the resolved imports |
| DependencyExtractor.TopFiveSpec | src/extraction/dependency_extractor.py:98-126 | a degree ranking holds at most five entries from the input, each with a positive count, in non-increasing order with ties in node order, and all positive entries when there are at most five of them |
| DependencyExtractor.IsolatedAmong | src/extraction/dependency_extractor.py:115-116 | a node is listed exactly when its total degree is zero |
| DependencyExtractor.AnalyzeSpec | src/extraction/dependency_extractor.py:106-129 | a file is isolated exactly when no edge touches it, and the circular flag is set exactly when the graph has a cycle |
| DependencyExtractor.AnalyzeRankings | src/extraction/dependency_extractor.py:98-126 | both rankings are top-five selections of nodes with their in- or out-degree, each positive |
| DependencyExtractor.DegreesAgree | src/extraction/dependency_extractor.py:149-164 | counting the exported edge list gives back every node's in- and out-degree, and no edge is listed twice |
| DependencyExtractor.DependencyExtractor.constructor | src/extraction/dependency_extractor.py:14-17 | a new extractor has an empty graph and no dependency sets |
| DependencyExtractor.DependencyExtractor.AddDependencies | src/extraction/dependency_extractor.py:44-46 | each dependency is added to the file's set and as an edge, and nothing else changes |
| DependencyExtractor.DependencyExtractor.AddFileData | src/extraction/dependency_extractor.py:35-46 | one outer-loop turn adds the file's node and its imports' dependencies |
| DependencyExtractor.DependencyExtractor.ExtractDependencies | src/extraction/dependency_extractor.py:18-60 | the extractor's new state is the old one extended by the files, it stays valid, and the report carries the file count, the graph, the sets and the analysis of the whole graph |
| DependencyExtractor.DependencyExtractor.ExportGraphData | src/extraction/dependency_extractor.py:141-169 | one node entry per graph node in order with its file name and degrees, the edges exactly the graph's edges without repeats, and the degrees agree with the exported edges |
| CallGraphBuilder.FuncIdSuffix | src/extraction/call_graph_builder.py:63-94 | a function's id is "file::Class.name" for a method and "file::name" otherwise, and ends in "::name" or ".name" so the repository-wide search can find it |
| CallGraphBuilder.Put | src/extraction/call_graph_builder.py:69-75 | storing a definition updates that key's entry, appends a new key at the end and keeps an existing key's place |
| CallGraphBuilder.MethodName | src/extraction/call_graph_builder.py:124-128 | a call is looked up by its text after the last dot, and the whole call when it has no dot |
| CallGraphBuilder.ClassCandidatesEmpty | src/extraction/call_graph_builder.py:135-140 | the class-context lookup finds something exactly when some method record's class defines the called name |
| CallGraphBuilder.ResolutionIff | src/extraction/call_graph_builder.py:109-149 | when the local or class-context lookup finds a definition the candidates are exactly those, the free function first; only otherwise are they every defined id ending in "::name" or ".name" |
| CallGraphBuilder.FallbackFindsNamed | src/extraction/call_graph_builder.py:142-146 | when the local lookups fail, every registered function with the called name, in any file, is a candidate |
| CallGraphBuilder.ResolutionWithin | src/extraction/call_graph_builder.py:109-149 | every candidate is a defined id |
| CallGraphBuilder.RegisterAllValid | src/extraction/call_graph_builder.py:51-79 | registering one file's records keeps the builder consistent: the nodes are the definition keys in insertion order and the call sets mirror the edges |
| CallGraphBuilder.CollectValid | src/extraction/call_graph_builder.py:33-79 | the first pass keeps the builder consistent |
| CallGraphBuilder.RegisterAllNodes | src/extraction/call_graph_builder.py:60-79 | the old nodes stay first, and a node is new exactly when it is the id of one of the file's records |
| CallGraphBuilder.CollectNodes | src/extraction/call_graph_builder.py:33-79 | the first pass keeps the old nodes first, adds exactly the ids of the records, and leaves the edges and call sets alone |
| CallGraphBuilder.CalledFromIff | src/extraction/call_graph_builder.py:89-107 | a function of the file calls v exactly when v is among the resolved candidates of one of its calls |
| CallGraphBuilder.CallsIff | src/extraction/call_graph_builder.py:89-107 | some file's function u calls v exactly when some record of some file has id u and resolves one of its calls to v |
| CallGraphBuilder.AddCallFacts | src/extraction/call_graph_builder.py:103-107 | a callee that is a node gets an edge from the caller and joins its call set, keeping the call sets equal to the edges |
| CallGraphBuilder.BuildFilesFacts | src/extraction/call_graph_builder.py:80-108 | the second pass adds exactly the edges of the resolved calls whose callees are nodes, and keeps the builder consistent |
| CallGraphBuilder.CallsWithin | src/extraction/call_graph_builder.py:101-106 | every resolved callee is a registered id, so no resolved call is dropped by the node test |
| CallGraphBuilder.BuildAllFacts | src/extraction/call_graph_builder.py:21-50 | both passes keep the builder consistent; the old nodes stay first, the new ones are the ids of the records, and an edge is added exactly for each resolved call |
| CallGraphBuilder.FreshCallGraph | src/extraction/call_graph_builder.py:15-50 | on a fresh builder the nodes are exactly the records' ids, none twice, and the edges exactly the resolved calls |
| CallGraphBuilder.CallGraphBuilder.constructor | src/extraction/call_graph_builder.py:15-20 | a new builder has an empty graph, no call sets and no definitions |
| CallGraphBuilder.CallGraphBuilder.CollectFunctions | src/extraction/call_graph_builder.py:51-79 | the loop registers each of the file's records in order |
| CallGraphBuilder.CallGraphBuilder.ResolveCall | src/extraction/call_graph_builder.py:109-149 | the method returns the specified resolution of the call |
| CallGraphBuilder.CallGraphBuilder.ClassContext | src/extraction/call_graph_builder.py:135-140 | the loop returns the class-context candidates in record order |
| CallGraphBuilder.CallGraphBuilder.SearchAll | src/extraction/call_graph_builder.py:143-146 | the loop returns every defined id ending in the called name, in dictionary order |
| CallGraphBuilder.CallGraphBuilder.AddCallees | src/extraction/call_graph_builder.py:103-107 | each candidate that is a node gets its edge and call-set entry, in order |
| CallGraphBuilder.CallGraphBuilder.AddCallsOf | src/extraction/call_graph_builder.py:99-107 | every call of one function is resolved and its candidates added |
| CallGraphBuilder.CallGraphBuilder.BuildCalls | src/extraction/call_graph_builder.py:80-108 | every call of every function of the file is resolved and added |
| CallGraphBuilder.CallGraphBuilder.BuildCallGraph | src/extraction/call_graph_builder.py:21-50 | the new state is both passes applied to the old one, the builder stays consistent, and the report carries the graph, the call sets, the definitions and the analysis |
| CallGraphBuilder.RankEntries | src/extraction/call_graph_builder.py:197-212 | one ranking entry per pair, carrying the recorded name or "unknown" |
| CallGraphBuilder.TopCallsSpec | src/extraction/call_graph_builder.py:169-212 | taking the ten highest, dropping the zeros and keeping five is the top five positive counts, in non-increasing order, complete when at most five are positive |
| CallGraphBuilder.RankedSpec | src/extraction/call_graph_builder.py:197-212 | a ranking lists at most five entries, each a node with its positive count and recorded name, in non-increasing order |
| CallGraphBuilder.RecursiveNodesIn | src/extraction/call_graph_builder.py:175-188 | a node is reported as recursive exactly when it lies on a cycle of at most five calls |
| CallGraphBuilder.RecursiveNodesNoDup | src/extraction/call_graph_builder.py:188 | no recursive function is reported twice |
| CallGraphBuilder.DeadEndsSpec | src/extraction/call_graph_builder.py:190-192 | a dead end is exactly a node with no outgoing call |
| CallGraphBuilder.AverageSpec | src/extraction/call_graph_builder.py:221-224 | the average times the number of functions is the number of calls |
| CallGraphBuilder.AnalyzeRankings | src/extraction/call_graph_builder.py:167-212 | most called ranks by in-degree and most calls by out-degree, at most five each, every entry a node with its positive degree and name, and all positive nodes when there are at most five |
| CallGraphBuilder.AnalyzeRecursive | src/extraction/call_graph_builder.py:175-219 | at most ten distinct functions, each on a simple cycle of at most five calls with its name; all of them, and every self-caller, when at most ten qualify |
| CallGraphBuilder.CallGraphBuilder.AnalyzeCallGraph | src/extraction/call_graph_builder.py:150-226 | the loop and the rankings give the specified analysis, and the empty graph gives its own short result |
| CallGraphBuilder.ChainsFromIff | src/extraction/call_graph_builder.py:243-258 | the search from a chain reports exactly the chains that extend it along call edges without repeating a function and stop only at the depth limit or at a function that calls nothing |
| CallGraphBuilder.CallChainsSpec | src/extraction/call_graph_builder.py:227-261 | nothing for an unknown function; otherwise at most ten chains, each a chain the search describes, and all of them when there are at most ten |
| CallGraphBuilder.ChainShape | src/extraction/call_graph_builder.py:243-258 | a chain starts at the function, follows call edges, repeats no function and has at most max(maxDepth, 0) calls |
| CallGraphBuilder.SelfCallerHasNoChain | src/extraction/call_graph_builder.py:250-256 | a function whose only callee is itself yields no chain at all, because the search reports nothing when every successor is already on the chain |
| CallGraphBuilder.CallGraphBuilder.Dfs | src/extraction/call_graph_builder.py:243-258 | the recursive search returns the chains the specification describes, in successor order |
| CallGraphBuilder.CallGraphBuilder.GetCallChain | src/extraction/call_graph_builder.py:227-261 | the method returns the first ten chains from a known function and none for an unknown one |
| Orchestrator.InfoOf | main.py:166-171 | the file information is the loader record's name, relative path, line count and size |
| Orchestrator.ParsedOf | main.py:79-91 | the repository-level steps see each analysed file's parse result, in order |
| Orchestrator.ComplexitiesOf | main.py:95 | the repository complexity step sees each file's path and its complexity entry, always present |
| Orchestrator.AnalysedNext | main.py:79-83 | appending the analysis of the next loaded file to the analyses of the files before it keeps every entry the analysis of its own loaded file |
| Orchestrator.SummaryTotalsAppend | main.py:182-187 | the four summary totals are additive over the files |
| Orchestrator.SummaryTotalsSingle | main.py:182-187 | the summary of one file reports that file's function, class, line and smell counts |
| Orchestrator.MostComplexFilesOrder | main.py:190-195 | at most five entries, five when there are at least five files, highest complexity first, and files of equal complexity in file order |
| Orchestrator.MostComplexFilesChosen | main.py:190-206 | each entry is one file's path and average complexity, every file left out is no more complex than any chosen, and with five files or fewer every file is listed |
| Orchestrator.DependencySummarySpec | main.py:207-210 | the circular flag is set exactly when the dependency graph has a cycle, and the isolated count is the number of files no import edge touches |
| Orchestrator.MakeSerializable | main.py:227-236 | the result has no object left in dicts and lists; dicts keep their keys in order with each value converted, lists keep their length with each item converted, objects become their string form, and everything else, tuples included, is returned unchanged |
| Orchestrator.MakeSerializableFixed | main.py:227-236 | the conversion leaves a value unchanged exactly when nothing in it needs converting |
| Orchestrator.MakeSerializableIdempotent | main.py:227-236 | converting twice is the same as converting once |
| Orchestrator.CodebaseArchaeologist.constructor | main.py:34-54 | the archaeologist keeps the configuration and holds a fresh parser and a fresh, empty dependency extractor |
| Orchestrator.CodebaseArchaeologist.AnalyzeFile | main.py:138-175 | the file's parse result is that of its content, its file information is copied, its complexity entry is exactly what the complexity analyser's contract gives for radon's outcome and the configured maximum (every block entry, the flagged entries and their count, average, maximum, score and rank), its smell report is exactly what the detector's contract gives with the configured limits (every category and the total), and its documentation is that of its parse |
| Orchestrator.CodebaseArchaeologist.AnalyzeFiles | main.py:79-83 | one analysed file per loaded file, in order, each with every field stated as for AnalyzeFile |
| Orchestrator.CodebaseArchaeologist.AnalyzeLocal | main.py:56-118 | exactly when no Python file is found the result is empty and the extractor untouched; otherwise every Python file is analysed in order, each with every field stated as for AnalyzeFile, the extractor gains their dependencies, and the duplicates, repository complexity and summary are computed from the analysed files |
| Ranking.SortDesc | main.py:190-195 | the descending sort returns a permutation of its input |
| Ranking.SortDescSorted | main.py:190-195 | the sorted list is in non-increasing key order |
| Ranking.SortDescStable | main.py:190-195 | the sort is stable: for every key value the elements with that key keep their input order |
| Ranking.TopNSelection | main.py:190-195 | taking the first n of the sorted list chooses the largest: no element left out has a larger key than one chosen |
| Ranking.TopPositive | src/extraction/dependency_extractor.py:100-126 | at most n entries, each from the input and with a positive key |
| Ranking.TopPositiveOrdered | src/extraction/dependency_extractor.py:100-126 | the selection is best first, and holds every positive entry when at most n qualify |
| Digraph.AddNode | src/extraction/dependency_extractor.py:39 | adding a node that is present changes nothing; a new node goes to the end; the edges are untouched |
| Digraph.AddEdge | src/extraction/dependency_extractor.py:46 | adding an edge first adds its missing endpoints, source before target, and an edge already present is not added twice |
| Digraph.DegreeZero | src/extraction/dependency_extractor.py:115-116 | a degree is zero exactly when no edge has the node at that end |
| Digraph.DegreeCounts | src/extraction/dependency_extractor.py:99-103 | the degree listings hold exactly the graph's nodes with their degrees |
| Digraph.OnCycleWithinIff | src/extraction/call_graph_builder.py:182-184 | a node lies on a closed walk of at most k edges exactly when it lies on a simple cycle of at most k edges |
| Digraph.CycleDetectedIff | src/extraction/dependency_extractor.py:106-129 | the bounded cycle test holds exactly when the graph has a cycle of any length |
| Digraph.SelfLoopOnCycle | src/extraction/call_graph_builder.py:177-179 | a self-call is a cycle of one edge |
| CodeLoader.FirstMatch | src/ingestion/code_loader.py:229-235 | the leftmost position from the start where the tail's pattern matches, or the end of the text when there is none |
| CodeLoader.CutTail | src/ingestion/code_loader.py:229-235 | substituting the empty string for a pattern ending in ".*$" keeps a prefix of the text |
| CodeLoader.CutTailSpec | src/ingestion/code_loader.py:229-235 | after the cut the pattern no longer matches, a text without a match is kept whole, and a text with one is shortened |
| CodeLoader.CutKeepsNoMatch | src/ingestion/code_loader.py:229-235 | cutting one tail never creates a match of another |
| CodeLoader.WithGitSuffix | src/ingestion/code_loader.py:237-239 | an https URL without ".git" gains it, and any other URL is kept |
| CodeLoader.NormalizeGithubUrl | src/ingestion/code_loader.py:198-242 | an SSH URL is returned stripped and otherwise unchanged, and every https result ends in ".git" |
| CodeLoader.NormalizeShape | src/ingestion/code_loader.py:221-239 | a non-SSH result is the stem, possibly with ".git" added; the stem is a prefix of the trimmed URL with no tree, blob or page tail left, and is the whole trimmed URL when there was none |
| CodeLoader.NoMatchInHost | src/ingestion/code_loader.py:229-235 | no tail pattern matches inside the leading "https://github.com" |
| CodeLoader.GithubGainsScheme | src/ingestion/code_loader.py:224-226 | a bare "github.com" address gains the https scheme |
| CodeLoader.CloneUrlUnchanged | src/ingestion/code_loader.py:198-242 | a clean https URL ending in ".git" with none of the tails comes back unchanged |
| CodeLoader.TargetExtensions | src/ingestion/code_loader.py:327-335 | the language name is matched whatever its case, and an unknown language falls back to the Python extension |
| CodeLoader.FilterByLanguage | src/ingestion/code_loader.py:316-338 | a file is kept exactly when its extension is one of the language's, never more files than given |
| CodeLoader.FilterAppend | src/ingestion/code_loader.py:336 | filtering keeps the order: filtering a concatenation concatenates the filtered parts |
| CodeLoader.LanguageNames | src/ingestion/code_loader.py:316-336 | the language name is case-insensitive, and the default "python" keeps exactly the ".py" files |
| FileFilter.SettingsOf | src/ingestion/file_filter.py:20-24 | missing entries take their defaults: no excluded directories and a 10 MB limit counted in bytes |
| FileFilter.ExtensionsFor | src/ingestion/file_filter.py:78-91 | a language name is looked up whatever its case, and an unknown one lists no extension |
| FileFilter.ExtensionsForNames | src/ingestion/file_filter.py:78-88 | the table lists the extensions of the nine languages as the source gives them |
| FileFilter.IsSupportedIff | src/ingestion/file_filter.py:68-94 | a suffix is supported exactly when some configured language lists it |
| FileFilter.GetLanguage | src/ingestion/file_filter.py:96-125 | "unknown" exactly for a suffix outside the table, and ".h" is "c/cpp" |
| FileFilter.TablesAgree | src/ingestion/file_filter.py:78-125 | the two tables agree: a language is named for exactly the suffixes some language of the support table lists |
| FileFilter.KnownIsListed | src/ingestion/file_filter.py:78-123 | every suffix that has a language name is listed under some supported language |
| FileFilter.UnknownIsUnlisted | src/ingestion/file_filter.py:78-123 | a suffix without a language name is listed under no supported language |
| FileFilter.HeaderLanguage | src/ingestion/file_filter.py:116 | only ".h" is filed under "c/cpp" |
| FileFilter.ShouldAnalyzeIff | src/ingestion/file_filter.py:26-66 | a path is accepted exactly when it is a regular file, no part of it under the root is an excluded directory, its suffix is not excluded, its size can be read and is within the limit, and some configured language lists its suffix |
| FileFilter.OutsideRootAndStatFailure | src/ingestion/file_filter.py:42-60 | a path outside the root is never rejected for its directories, and a failing stat rejects the file |
| FileFilter.Accepted | src/ingestion/file_filter.py:138-143 | a path is kept exactly when it is accepted |
| FileFilter.AcceptedAppend | src/ingestion/file_filter.py:140-142 | filtering keeps the order: it maps a concatenation to the concatenation of the filtered parts |
| FileFilter.FilterFiles | src/ingestion/file_filter.py:127-145 | the loop returns the accepted paths in order |
| FileFilter.BumpSpec | src/ingestion/file_filter.py:167-171 | one increment adds one to the total and keeps the counter well formed |
| FileFilter.CountAllTotal | src/ingestion/file_filter.py:164-171 | the counter lists each key once, in the order first seen, and its counts sum to the number of keys counted |
| FileFilter.CountAllCounts | src/ingestion/file_filter.py:164-171 | a key has an entry exactly when it occurs, and its entry is the number of its occurrences |
| FileFilter.StatisticsSums | src/ingestion/file_filter.py:157-171 | both breakdowns count every file once, so their counts sum to total_files, and each language's count is the number of files in it |
| FileFilter.LanguagesStep | src/ingestion/file_filter.py:166-167 | one more file increments its language's count |
| FileFilter.ExtensionsStep | src/ingestion/file_filter.py:170-171 | one more file increments its suffix's count |
| FileFilter.SizeStep | src/ingestion/file_filter.py:174-177 | one more file adds its size, or nothing when stat fails |
| FileFilter.GetFileStatistics | src/ingestion/file_filter.py:147-179 | the loop's dictionaries and size total are the specified statistics |
| CodeSummarizer.FirstRuleSpec | src/ai_engine/code_summarizer.py:183-210 | the first-match search gives a matching rule with no matching rule before it, and nothing exactly when no rule matches |
| CodeSummarizer.InferPurposeSpec | src/ai_engine/code_summarizer.py:178-210 | the purpose is the first rule of the chain, in the source's order, that the lower-cased name matches, and there is none exactly when no rule matches |
| CodeSummarizer.FilePurposeRules | src/ai_engine/code_summarizer.py:212-235 | "test" anywhere in the name decides the purpose ahead of every other rule; "primarily defines classes" only for classes without functions and "primarily defines functions" only the other way round; no purpose only when both or neither list is empty |
| CodeSummarizer.ClassWithMethodIsNotClassesOnly | src/ai_engine/code_summarizer.py:230-231 | a parsed file with a class that has a method is never said to primarily define classes, because the parser records the method as a function too |
| CodeSummarizer.FunctionsRuleOutClassesOnly | src/ai_engine/code_summarizer.py:230-231 | a file with any function record is never said to primarily define classes |
| CodeSummarizer.ParameterParts | src/ai_engine/code_summarizer.py:75-80 | "takes no parameters" is among the phrases exactly when the list is empty |
| CodeSummarizer.FunctionParts | src/ai_engine/code_summarizer.py:61-90 | the phrases open with the async or plain opening |
| CodeSummarizer.FunctionSummaryShape | src/ai_engine/code_summarizer.py:38-92 | with a docstring the summary is the fixed header and the docstring; without one it opens with "This asynchronous function" exactly for an async def, with "This function" exactly otherwise, and ends with a full stop |
| CodeSummarizer.ParameterPhrase | src/ai_engine/code_summarizer.py:74-80 | "takes no parameters" appears exactly for a def with no parameters; a list of only self and cls gives no phrase; otherwise the phrase counts and lists the real parameters, never self or cls |
| CodeSummarizer.CallPhrase | src/ai_engine/code_summarizer.py:86-90 | one to five calls are listed by name, more than five are only counted, and no call gives no phrase |
| CodeSummarizer.KeyMethods | src/ai_engine/code_summarizer.py:125 | the key methods are exactly the methods whose names do not start with an underscore |
| CodeSummarizer.ClassParts | src/ai_engine/code_summarizer.py:114-132 | the phrases open with the class name |
| CodeSummarizer.ClassSummaryShape | src/ai_engine/code_summarizer.py:94-134 | at most five methods are listed, each a key method, in order, with no key method skipped before the last one listed, and all of them when there are at most five; with a docstring the summary is the header and the docstring; otherwise it opens with the class name and ends with a full stop |
| CodeSummarizer.ClassSummaryIncluding | src/ai_engine/code_summarizer.py:114-132 | without a docstring, the methods listed are exactly those the 'including: ' phrase names, and no part opens with 'including: ' when none is listed |
| CodeSummarizer.StandaloneMembers | src/ai_engine/code_summarizer.py:163 | a record is kept exactly when it has no parent class |
| CodeSummarizer.StandaloneAppend | src/ai_engine/code_summarizer.py:264-265 | the kept records stay in their order |
| CodeSummarizer.FileName | src/ai_engine/code_summarizer.py:147 | the file name is the part of the path after its last slash |
| CodeSummarizer.FileRestNoA | src/ai_engine/code_summarizer.py:156-174 | without the function count, no later phrase starts with "a", so the count phrase cannot be confused with another |
| CodeSummarizer.FileParts | src/ai_engine/code_summarizer.py:153-174 | the phrases open with the file name |
| CodeSummarizer.FileSummaryShape | src/ai_engine/code_summarizer.py:136-176 | the summary opens with the file name, and the function count is given exactly when there is a standalone function, counting those only |
| CodeSummarizer.ClassDocs | src/ai_engine/code_summarizer.py:249-256 | one class entry per class, in order |
| CodeSummarizer.FunctionDocs | src/ai_engine/code_summarizer.py:257-266 | one function entry per standalone record, in order |
| CodeSummarizer.GenerateDocumentation | src/ai_engine/code_summarizer.py:237-266 | the documentation is the file summary, the class entries and the function entries |
| CodeSummarizer.FunctionDocsExact | src/ai_engine/code_summarizer.py:257-266 | every record without a parent class has an entry and every entry is that of such a record, so a method never has one of its own |
| ModelManager.AfterLoadValid | src/ai_engine/model_manager.py:38-84 | every step of loading keeps the fields valid: a model is never held without its tokenizer, and the device is the CPU or the GPU |
| ModelManager.LoadOutcome | src/ai_engine/model_manager.py:38-84 | with the local model disabled loading fails and changes nothing; it succeeds exactly when every step succeeds, and then holds the named tokenizer and model, on the GPU when CUDA is present |
| ModelManager.ModelFailureKeepsModel | src/ai_engine/model_manager.py:50-84 | a failing model download leaves the previous model in place beside the new tokenizer |
| ModelManager.UnloadSpec | src/ai_engine/model_manager.py:214-230 | after unloading no model is held, the tokenizer goes with a model, a tokenizer left by a failed download stays, the device is never reset, and unloading twice is unloading once |
| ModelManager.InfoAfterLoadAndUnload | src/ai_engine/model_manager.py:232-244 | the info reports a model as loaded after a successful load and as not loaded after an unload, with the device kept |
| ModelManager.JaccardSpec | src/ai_engine/model_manager.py:190-212 | the similarity lies in [0, 1] and is symmetric; it is 1 exactly when both texts have the same non-empty token set and 0 exactly when they share no token |
| ModelManager.ModelManager.constructor | src/ai_engine/model_manager.py:22-36 | the name and switch come from the configuration with their defaults, nothing is loaded and the device is the CPU |
| ModelManager.ModelManager.LoadModel | src/ai_engine/model_manager.py:38-84 | the result and the new fields are those of the step-by-step load, and the name and switch are untouched |
| ModelManager.ModelManager.UnloadModel | src/ai_engine/model_manager.py:214-230 | the new fields are those of the unload, and the name and switch are untouched |
| ModelManager.ModelManager.GetModelInfo | src/ai_engine/model_manager.py:232-244 | the info says loaded exactly when a model is held, and reports the name, device and switch |
| ModelManager.ModelManager.EncodeCode | src/ai_engine/model_manager.py:86-124 | nothing without both a model and a tokenizer; with both, exactly what the model produced (nothing when it raised) |
| ModelManager.ModelManager.GenerateSummary | src/ai_engine/model_manager.py:126-153 | the fixed fallback text is returned exactly when no model is held, and with a model held the fixed placeholder text 'AI-generated summary (requires fine-tuned model)' |
| ModelManager.ModelManager.CalculateSimilarity | src/ai_engine/model_manager.py:155-188 | without a model the Jaccard fallback in [0, 1]; with one, 0 when either snippet cannot be encoded |
| PromptTemplates.Fenced | src/ai_engine/prompt_templates.py:27-44 | a code fence adds exactly its opening and closing lines around the text |
| PromptTemplates.FencedRecovered | src/ai_engine/prompt_templates.py:27-44 | the fenced text can be read back from between the lead-in and the trailer |
| PromptTemplates.JoinCommaCount | src/ai_engine/prompt_templates.py:96-97 | joining comma-free names with ", " puts one comma between each two, so the list can be counted from the text |
| PromptTemplates.FunctionSummaryPromptSpec | src/ai_engine/prompt_templates.py:12-44 | the function's code is the fenced block verbatim, and the parameter line lists the parameters or says "no parameters" |
| PromptTemplates.ClassSummaryPromptSpec | src/ai_engine/prompt_templates.py:47-79 | the class's code is the fenced block verbatim, and the method line lists the methods or says "no methods" |
| PromptTemplates.Preview | src/ai_engine/prompt_templates.py:107 | the preview is the first 500 characters, or the whole content when shorter, followed by "..." |
| PromptTemplates.FileSummaryPromptSpec | src/ai_engine/prompt_templates.py:82-117 | the fenced block is the preview of the content, at most 503 characters, and an empty list reads "none" |
| PromptTemplates.FirstFiveShown | src/ai_engine/prompt_templates.py:96-97 | of a list of comma-free names at most five are shown, and they are the first five |
| PromptTemplates.CodeSmellExplanationPromptSpec | src/ai_engine/prompt_templates.py:120-150 | the snippet is the fenced block verbatim |
| PromptTemplates.RefactoringSuggestionPromptSpec | src/ai_engine/prompt_templates.py:153-178 | the code is the fenced block verbatim, and the complexity is written in decimal right after the opening parenthesis |
| PromptTemplates.BulletLines | src/ai_engine/prompt_templates.py:193-194 | one "- " line per item |
| PromptTemplates.BulletBlock | src/ai_engine/prompt_templates.py:193-194 | for single-line items the bullet block splits back into one "- " line per item, at most n of them, the first n items |
| PromptTemplates.DependencyAnalysisPromptSpec | src/ai_engine/prompt_templates.py:181-211 | between its fixed texts the prompt holds one '- ' line for each of the first ten imports and then for each of the first five dependents, an empty block for an empty list, and never more than ten and five lines |
| PromptTemplates.DocumentationGenerationPromptSpec | src/ai_engine/prompt_templates.py:243-273 | "No existing documentation" exactly when there are none, otherwise the existing text after "Existing: "; the code is the fenced block verbatim |
| PromptTemplates.BugDetectionPromptSpec | src/ai_engine/prompt_templates.py:276-304 | the code is the fenced block verbatim after the context line |
| PromptTemplates.TestGenerationPromptSpec | src/ai_engine/prompt_templates.py:307-335 | the function's code is the fenced block verbatim |

## Left out

- File-system and process I/O. This covers `load_from_local`'s walk, `_scan_directory`'s file reads,
  `load_from_github`'s `git clone` through subprocess, `_check_git_available`, `_ensure_clean_dir`,
  `_force_rmtree`, and the orchestrator's `analyze_github` and `_save_results`. The loaded files are inputs instead.
- The clock-based metadata `analyzed_at` and `analysis_time_seconds`, the tqdm progress bar, and all logging. None of them affects a result.
- `ast.parse`, `ast.unparse` and `ast.get_docstring` belong to the Python standard library. Their results are inputs: the tree, the unparsed text and the docstring.
  An exception raised while the tree is walked is not modelled; a failed parse is a parser outcome.
- radon's `cc_visit`, `mi_visit`, `h_visit` and `analyze` are library calls. Their results are inputs: per-function complexities and the maintainability score.
  The Halstead and raw-metric entries of the complexity result, and the juggling of the Halstead API's shape
  (src/analysis/complexity_analyzer.py:33-72), are not part of the result record. Nothing else in the core reads them.
- networkx internals. Which cycles `simple_cycles` returns, in which order, and the cap of five are not modelled.
  Only the circular-dependency flag is modelled, as "the graph has a cycle". In the call graph, a recursive function is
  one that lies on a simple cycle of at most five edges.
- `get_dependency_matrix` (`to_numpy_array`) and the call graph's `export_dot`. They are a numeric export and a file write.
- Floating point, including `round(..., 2)`. Averages, ratios, coverage and similarities are exact reals.
  The maintainability score is a real that is only compared against the rank bands.
- `code_quality_prompt` is left out because it only formats library floats with `:.2f`. The other nine prompt templates are modelled.
- `get_metrics_summary` formats a report string for display. Nothing in the analysis reads it.
- The metrics calculator's `except` branch and the `_empty_metrics` record it returns are not modelled
  (src/analysis/metrics_calculator.py:88-90, 327-351). The branch only catches errors from malformed dictionaries,
  and the model's records are typed, so it cannot fire. The complexity analyser's `except` branch is modelled:
  a radon failure is an input outcome that yields `_empty_result`.
- torch and transformers: loading the tokenizer and model, CUDA detection, encoding, generation and the cosine similarity of embeddings.
  Whether a model loads and what encoding yields are inputs to the model manager.
- ModelManager.ModelManager.CalculateSimilarity: with a model loaded, the cosine of the two embeddings is a parameter. Only the 0 returned when either encoding fails, and the Jaccard fallback, are specified.
- The code summariser's `_initialize_model` is a placeholder that only logs, so the summariser is always rule-based.
- The helpers `load_config` (YAML parsing), `get_file_hash`, `count_lines`, `is_binary_file`, `create_output_dir`,
  `format_bytes` and `setup_logger` do I/O or float formatting. Only the configuration's defaults are modelled.
- `max_file_size_mb` is an integer number of megabytes; a fractional value in the YAML file is not modelled.
- The orders that come from Python sets are not modelled: `list(set(calls))` in `_extract_calls`, the set of defined names in the dead-code rule, and the
  `list(set(...))` of recursive functions. Contracts about them state membership and the absence of duplicates instead.
  Where the model needs a fixed order, it picks one: the call graph's recursive functions are listed in the graph's node order,
  and the called names of a function in the order of their first appearance in the walk.
- Regular expressions: `.` is taken to match any character, including a newline, in the GitHub URL patterns. `\d` and `\w` in the magic-number
  pattern are the ASCII classes.
- CodeSmellDetector.GlobalSmells: upper case is judged on ASCII letters only. Python's `str.isupper()` knows every cased
  Unicode letter, so a global named `Δ` is reported by the model but not by the source, and one named `δX` is reported by the
  source but not by the model. The model has no Unicode case tables.
- The unused `duplicate_threshold` setting and the `SequenceMatcher` import (src/extraction/code_smell_detector.py:9, 19).
- Reporting, visualisation, the web and command-line front ends, and `main()`. They consume the core's results.
