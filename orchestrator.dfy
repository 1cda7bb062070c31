/** The orchestrator: one analysis run over a local codebase. It keeps the
    Python files, analyses each one (parse, complexity, smells,
    documentation), then runs the repository-wide steps (dependencies,
    duplicates, repository metrics) and compiles a summary. The JSON
    conversion applied before the results are written is modelled on a
    small value type. */
module Orchestrator {
  import opened Seqs
  import opened Helpers
  import opened Ranking
  import opened Digraph
  import opened AstParser
  import ComplexityAnalyzer
  import opened CodeSmellDetector
  import opened DependencyExtractor
  import opened CodeSummarizer
  import opened CodeLoader

  // ---------------------------------------------------------------------
  // One analysed file
  // ---------------------------------------------------------------------

  datatype FileInfo = FileInfo(name: string, relativePath: string, lines: nat, size: nat)

  /** The 'file_info' entry copied from the loader's record. */
  function InfoOf(f: LoadedFile): (i: FileInfo)
    ensures i.name == f.name && i.relativePath == f.relativePath
    ensures i.lines == f.lines && i.size == f.size
  {
    FileInfo(f.name, f.relativePath, f.lines, f.size)
  }

  /** The parse result with the per-file analyses added beside it. */
  datatype AnalyzedFile = AnalyzedFile(
    parsed: ParseResult,
    fileInfo: FileInfo,
    complexity: ComplexityAnalyzer.ComplexityResult,
    codeSmells: SmellReport,
    documentation: Documentation)

  /** The parse results of the analysed files, in order. */
  function ParsedOf(fs: seq<AnalyzedFile>): (r: seq<ParseResult>)
    ensures |r| == |fs| && forall i :: 0 <= i < |fs| ==> r[i] == fs[i].parsed
  {
    seq(|fs|, i requires 0 <= i < |fs| => fs[i].parsed)
  }

  /** What the repository-level complexity step reads from each file: its
      path and its (always present) complexity entry. */
  function ComplexitiesOf(fs: seq<AnalyzedFile>): (r: seq<ComplexityAnalyzer.FileComplexity>)
    ensures |r| == |fs|
    ensures forall i :: 0 <= i < |fs| ==>
      r[i] == ComplexityAnalyzer.FileComplexity(fs[i].parsed.filepath, Some(fs[i].complexity))
  {
    seq(|fs|, i requires 0 <= i < |fs| =>
      ComplexityAnalyzer.FileComplexity(fs[i].parsed.filepath, Some(fs[i].complexity)))
  }

  /** What every analysed file holds for the loaded file it came from: the
      parse of its content, its file information, its complexity measured
      from radon's outcome against the configured maximum, its smells
      detected with the configured limits, and the documentation of its
      parse. `parse` and `radon` stand for the Python parser and the radon
      library applied to a file's content. */
  ghost predicate AnalysedFrom(f: LoadedFile, a: AnalyzedFile, parse: string -> ParseOutcome,
                         radon: string -> ComplexityAnalyzer.RadonOutcome, config: Config) {
    && a.parsed == ResultOf(f.path, parse(f.content))
    && a.fileInfo == InfoOf(f)
    && ComplexityAnalyzer.MeasuredFrom(f.path, radon(f.content), MaxComplexity(config), a.complexity)
    && DetectedIn(a.parsed, f.content, LimitsFrom(config), a.codeSmells)
    && a.documentation == GenerateDocumentation(a.parsed)
  }

  /** The analysed files, in order, one for each loaded file. */
  ghost predicate AllAnalysed(files: seq<LoadedFile>, all: seq<AnalyzedFile>, parse: string -> ParseOutcome,
                              radon: string -> ComplexityAnalyzer.RadonOutcome, config: Config)
    decreases |files|, 1
  {
    |all| == |files| && (|files| == 0 || LastAnalysed(files, all, parse, radon, config))
  }

  /** The last analysed file is the analysis of the last loaded file, and
      the ones before it are those of the files before it. */
  ghost predicate LastAnalysed(files: seq<LoadedFile>, all: seq<AnalyzedFile>, parse: string -> ParseOutcome,
                               radon: string -> ComplexityAnalyzer.RadonOutcome, config: Config)
    decreases |files|, 0
  {
    && 0 < |files| == |all|
    && AnalysedFrom(files[|files| - 1], all[|files| - 1], parse, radon, config)
    && AllAnalysed(files[..|files| - 1], all[..|files| - 1], parse, radon, config)
  }

  /** Appending the analysis of the next file keeps every file analysed. */
  lemma AnalysedNext(files: seq<LoadedFile>, i: int, all: seq<AnalyzedFile>, a: AnalyzedFile,
                     parse: string -> ParseOutcome, radon: string -> ComplexityAnalyzer.RadonOutcome,
                     config: Config)
    requires 0 <= i < |files|
    ensures AllAnalysed(files[..i], all, parse, radon, config) && AnalysedFrom(files[i], a, parse, radon, config)
            ==> AllAnalysed(files[..i + 1], all + [a], parse, radon, config)
  {
    if |all| == i {
      assert files[..i + 1][..i] == files[..i];
      assert (all + [a])[..i] == all;
    }
  }

  // ---------------------------------------------------------------------
  // The summary
  // ---------------------------------------------------------------------

  datatype ComplexFile = ComplexFile(file: string, complexity: real)

  datatype DependencySummary = DependencySummary(hasCircularDependencies: bool, isolatedFiles: nat)

  datatype Summary = Summary(
    totalFunctions: int,
    totalClasses: int,
    totalLinesOfCode: int,
    totalCodeSmells: int,
    averageComplexity: real,
    averageMaintainability: real,
    mostComplexFiles: seq<ComplexFile>,
    dependencyAnalysis: DependencySummary)

  function FunctionCount(f: AnalyzedFile): int { |f.parsed.functions| }
  function ClassCount(f: AnalyzedFile): int { |f.parsed.classes| }
  function LineCount(f: AnalyzedFile): int { f.fileInfo.lines }
  function SmellTotal(f: AnalyzedFile): int { f.codeSmells.totalSmellCount }

  /** A file's (path, average cyclomatic complexity) pair. */
  function PairOf(f: AnalyzedFile): ComplexFile {
    ComplexFile(f.parsed.filepath, f.complexity.cyclomatic.average)
  }

  function PairsOf(fs: seq<AnalyzedFile>): (r: seq<ComplexFile>)
    ensures |r| == |fs| && forall i :: 0 <= i < |fs| ==> r[i] == PairOf(fs[i])
  {
    seq(|fs|, i requires 0 <= i < |fs| => PairOf(fs[i]))
  }

  function ComplexityKey(c: ComplexFile): real { c.complexity }

  /** The five files with the highest average complexity, highest first,
      ties in file order. */
  function MostComplexFiles(fs: seq<AnalyzedFile>): seq<ComplexFile> {
    Take(SortDesc(PairsOf(fs), ComplexityKey), 5)
  }

  /** _generate_summary. */
  function GenerateSummary(fs: seq<AnalyzedFile>, dep: DependencyReport,
                           repo: ComplexityAnalyzer.RepositoryComplexity): Summary
  {
    Summary(
      Sum(fs, FunctionCount), Sum(fs, ClassCount), Sum(fs, LineCount), Sum(fs, SmellTotal),
      repo.averageComplexity, repo.averageMaintainability,
      MostComplexFiles(fs),
      DependencySummary(dep.analysis.hasCircularDependencies, |dep.analysis.isolatedFiles|))
  }

  lemma {:induction false} SumAppend<T>(a: seq<T>, b: seq<T>, f: T -> int)
    ensures Sum(a + b, f) == Sum(a, f) + Sum(b, f)
    decreases |b|
  {
    if |b| == 0 {
      assert a + b == a;
    } else {
      assert (a + b)[..|a + b| - 1] == a + b[..|b| - 1];
      SumAppend(a, b[..|b| - 1], f);
    }
  }

  /** The four totals of a summary are additive over the files: the totals
      for a + b are those for a plus those for b. */
  lemma SummaryTotalsAppend(a: seq<AnalyzedFile>, b: seq<AnalyzedFile>, dep: DependencyReport,
                            repo: ComplexityAnalyzer.RepositoryComplexity)
    ensures GenerateSummary(a + b, dep, repo).totalFunctions
         == GenerateSummary(a, dep, repo).totalFunctions + GenerateSummary(b, dep, repo).totalFunctions
    ensures GenerateSummary(a + b, dep, repo).totalClasses
         == GenerateSummary(a, dep, repo).totalClasses + GenerateSummary(b, dep, repo).totalClasses
    ensures GenerateSummary(a + b, dep, repo).totalLinesOfCode
         == GenerateSummary(a, dep, repo).totalLinesOfCode + GenerateSummary(b, dep, repo).totalLinesOfCode
    ensures GenerateSummary(a + b, dep, repo).totalCodeSmells
         == GenerateSummary(a, dep, repo).totalCodeSmells + GenerateSummary(b, dep, repo).totalCodeSmells
  {
    SumAppend(a, b, FunctionCount);
    SumAppend(a, b, ClassCount);
    SumAppend(a, b, LineCount);
    SumAppend(a, b, SmellTotal);
  }

  /** A summary of a single file reports that file's own counts. */
  lemma SummaryTotalsSingle(f: AnalyzedFile, dep: DependencyReport,
                            repo: ComplexityAnalyzer.RepositoryComplexity)
    ensures GenerateSummary([f], dep, repo).totalFunctions == |f.parsed.functions|
    ensures GenerateSummary([f], dep, repo).totalClasses == |f.parsed.classes|
    ensures GenerateSummary([f], dep, repo).totalLinesOfCode == f.fileInfo.lines
    ensures GenerateSummary([f], dep, repo).totalCodeSmells == f.codeSmells.totalSmellCount
  {
    assert [f][..0] == [];
    assert Sum([f], FunctionCount) == FunctionCount(f);
    assert Sum([f], ClassCount) == ClassCount(f);
    assert Sum([f], LineCount) == LineCount(f);
    assert Sum([f], SmellTotal) == SmellTotal(f);
  }

  /** most_complex_files is ordered: at most five entries, highest
      complexity first, and for every complexity value the files with that
      value appear in file order. */
  lemma MostComplexFilesOrder(fs: seq<AnalyzedFile>, v: real)
    ensures |MostComplexFiles(fs)| == (if |fs| < 5 then |fs| else 5)
    ensures NonIncreasing(MostComplexFiles(fs), ComplexityKey)
    ensures WithKey(MostComplexFiles(fs), ComplexityKey, v) <= WithKey(PairsOf(fs), ComplexityKey, v)
  {
    var pairs := PairsOf(fs);
    SortDescSorted(pairs, ComplexityKey);
    NonIncreasingPrefix(SortDesc(pairs, ComplexityKey), 5, ComplexityKey);
    SortDescStable(pairs, ComplexityKey, v);
    WithKeyTake(SortDesc(pairs, ComplexityKey), 5, ComplexityKey, v);
  }

  /** most_complex_files chooses the most complex files: each entry is the
      pair of one of the files, every file left out is no more complex than
      any file chosen, and with five files or fewer every file is listed. */
  lemma MostComplexFilesChosen(fs: seq<AnalyzedFile>)
    ensures forall c :: c in MostComplexFiles(fs) ==>
      exists i :: 0 <= i < |fs| && c == PairOf(fs[i])
    ensures forall c, d ::
      c in multiset(PairsOf(fs)) - multiset(MostComplexFiles(fs)) && d in MostComplexFiles(fs)
      ==> c.complexity <= d.complexity
    ensures |fs| <= 5 ==> multiset(MostComplexFiles(fs)) == multiset(PairsOf(fs))
  {
    var pairs := PairsOf(fs);
    var top := MostComplexFiles(fs);
    assert forall c :: c in top ==> exists i :: 0 <= i < |fs| && c == PairOf(fs[i]) by {
      TopNSubset(pairs, ComplexityKey, 5);
      forall c | c in top ensures exists i :: 0 <= i < |fs| && c == PairOf(fs[i]) {
        assert c in multiset(pairs);
        var i :| 0 <= i < |pairs| && pairs[i] == c;
      }
    }
    assert forall c, d ::
      c in multiset(pairs) - multiset(top) && d in top ==> c.complexity <= d.complexity
    by {
      TopNSelection(pairs, ComplexityKey, 5);
      forall c: ComplexFile, d: ComplexFile | c in multiset(pairs) - multiset(top) && d in top
        ensures c.complexity <= d.complexity
      {
        assert ComplexityKey(c) <= ComplexityKey(d);
      }
    }
    TopNSubset(pairs, ComplexityKey, 5);
  }

  /** Filtering a list of distinct nodes keeps them distinct. */
  lemma {:induction false} IsolatedDistinct(g: Graph, nodes: seq<string>)
    requires NoDup(nodes)
    ensures NoDup(IsolatedAmong(g, nodes))
    decreases |nodes|
  {
    if |nodes| > 0 {
      var init := nodes[..|nodes| - 1];
      assert NoDup(init);
      IsolatedDistinct(g, init);
      assert nodes[|nodes| - 1] !in init;
    }
  }

  /** The summary's 'dependency_analysis' for a report the extractor
      produced: the circular flag is set exactly when the dependency graph
      has a cycle, and the isolated count is the number of files no import
      edge touches. */
  lemma DependencySummarySpec(fs: seq<AnalyzedFile>, dep: DependencyReport,
                              repo: ComplexityAnalyzer.RepositoryComplexity)
    requires Digraph.Valid(dep.dependencyGraph)
    requires dep.analysis == Analyze(dep.dependencyGraph)
    ensures GenerateSummary(fs, dep, repo).dependencyAnalysis.hasCircularDependencies
        <==> HasCycle(dep.dependencyGraph)
    ensures GenerateSummary(fs, dep, repo).dependencyAnalysis.isolatedFiles
         == |set n | n in dep.dependencyGraph.nodes && Degree(dep.dependencyGraph, n) == 0|
  {
    var g := dep.dependencyGraph;
    AnalyzeSpec(g, "");
    var iso := IsolatedAmong(g, g.nodes);
    IsolatedDistinct(g, g.nodes);
    NoDupCard(iso);
    assert ToSet(iso) == set n | n in g.nodes && Degree(g, n) == 0;
  }

  // ---------------------------------------------------------------------
  // The compiled results and their JSON form
  // ---------------------------------------------------------------------

  /** The results of a run; the clock-based metadata is not modelled. */
  datatype Results = Results(
    source: string,
    totalFiles: nat,
    files: seq<AnalyzedFile>,
    dependencies: DependencyReport,
    duplicates: seq<Duplicate>,
    repositoryMetrics: ComplexityAnalyzer.RepositoryComplexity,
    summary: Summary)

  /** A Python value as _make_serializable sees it: a dict (its items in
      order), a list, a tuple, an object with a __dict__ (with what str()
      gives for it), or a scalar. */
  datatype Value =
    | VNone
    | VBool(b: bool)
    | VInt(i: int)
    | VFloat(x: real)
    | VStr(s: string)
    | VList(items: seq<Value>)
    | VTuple(elems: seq<Value>)
    | VDict(entries: seq<Entry>)
    | VObject(text: string)

  datatype Entry = Entry(key: string, value: Value)

  /** No object is left where the conversion reaches: in lists and dict
      values, recursively. Tuples are not descended into. */
  predicate Converted(v: Value)
    decreases v
  {
    match v
    case VList(items) => forall i :: 0 <= i < |items| ==> Converted(items[i])
    case VDict(entries) => forall i :: 0 <= i < |entries| ==> Converted(entries[i].value)
    case VObject(_) => false
    case _ => true
  }

  /** _make_serializable: dicts and lists are rebuilt with their parts
      converted, objects become their string form, everything else
      (tuples included) is returned as it is. */
  function MakeSerializable(v: Value): (r: Value)
    ensures Converted(r)
    ensures v.VDict? ==>
      r.VDict? && |r.entries| == |v.entries|
      && forall i :: 0 <= i < |v.entries| ==>
           r.entries[i].key == v.entries[i].key && r.entries[i].value == MakeSerializable(v.entries[i].value)
    ensures v.VList? ==>
      r.VList? && |r.items| == |v.items|
      && forall i :: 0 <= i < |v.items| ==> r.items[i] == MakeSerializable(v.items[i])
    ensures v.VObject? ==> r == VStr(v.text)
    ensures !v.VDict? && !v.VList? && !v.VObject? ==> r == v
    decreases v
  {
    match v
    case VDict(entries) =>
      VDict(seq(|entries|, i requires 0 <= i < |entries| =>
        Entry(entries[i].key, MakeSerializable(entries[i].value))))
    case VList(items) =>
      VList(seq(|items|, i requires 0 <= i < |items| => MakeSerializable(items[i])))
    case VObject(text) => VStr(text)
    case _ => v
  }

  /** The conversion leaves a value alone exactly when nothing in it needs
      converting. */
  lemma {:induction false} MakeSerializableFixed(v: Value)
    ensures MakeSerializable(v) == v <==> Converted(v)
    decreases v
  {
    match v
    case VDict(entries) =>
      forall i | 0 <= i < |entries| && Converted(entries[i].value)
        ensures MakeSerializable(entries[i].value) == entries[i].value
      {
        MakeSerializableFixed(entries[i].value);
      }
      if Converted(v) {
        assert MakeSerializable(v).entries == entries;
      }
    case VList(items) =>
      forall i | 0 <= i < |items| && Converted(items[i])
        ensures MakeSerializable(items[i]) == items[i]
      {
        MakeSerializableFixed(items[i]);
      }
      if Converted(v) {
        assert MakeSerializable(v).items == items;
      }
    case _ =>
  }

  /** Converting twice is converting once. */
  lemma MakeSerializableIdempotent(v: Value)
    ensures MakeSerializable(MakeSerializable(v)) == MakeSerializable(v)
  {
    MakeSerializableFixed(MakeSerializable(v));
  }

  // ---------------------------------------------------------------------
  // The orchestrator
  // ---------------------------------------------------------------------

  /** CodebaseArchaeologist: the analysers it holds. The parser and the
      dependency extractor keep state between calls; the other analysers
      are configuration only. */
  class CodebaseArchaeologist {
    const config: Config
    const parser: Parser
    const dependencyExtractor: DependencyExtractor

    ghost predicate Valid()
      reads dependencyExtractor
    {
      dependencyExtractor.Valid()
    }

    constructor(config: Config)
      ensures Valid()
      ensures this.config == config
      ensures fresh(parser) && fresh(dependencyExtractor)
      ensures dependencyExtractor.graph == Empty && dependencyExtractor.fileDependencies == map[]
    {
      this.config := config;
      parser := new Parser();
      dependencyExtractor := new DependencyExtractor();
    }

    /** _analyze_file: parse the content, measure its complexity against the
        configured maximum, detect smells with the configured limits and
        document the parse result. `parse` and `radon` stand for the Python
        parser and the radon library applied to the file's content. */
    method AnalyzeFile(file: LoadedFile, parse: string -> ParseOutcome,
                       radon: string -> ComplexityAnalyzer.RadonOutcome) returns (a: AnalyzedFile)
      modifies parser
      ensures AnalysedFrom(file, a, parse, radon, config)
    {
      var parsed := parser.ParseFile(file.path, parse(file.content));
      var complexity := ComplexityAnalyzer.AnalyzeFile(file.path, radon(file.content), MaxComplexity(config));
      var smells := DetectSmells(parsed, file.content, LimitsFrom(config));
      var documentation := GenerateDocumentation(parsed);
      a := AnalyzedFile(parsed, InfoOf(file), complexity, smells, documentation);
    }

    /** The loop of analyze_local: every file analysed, in order. */
    method AnalyzeFiles(files: seq<LoadedFile>, parse: string -> ParseOutcome,
                        radon: string -> ComplexityAnalyzer.RadonOutcome) returns (all: seq<AnalyzedFile>)
      modifies parser
      ensures AllAnalysed(files, all, parse, radon, config)
    {
      all := [];
      for i := 0 to |files|
        invariant AllAnalysed(files[..i], all, parse, radon, config)
      {
        var a := AnalyzeFile(files[i], parse, radon);
        AnalysedNext(files, i, all, a, parse, radon, config);
        all := all + [a];
      }
      assert files[..|files|] == files;
    }

    /** analyze_local over the files the loader found: None when there is
        no Python file (the empty dict of the source); otherwise every
        Python file analysed in order, the repository-level steps run over
        them, and the summary compiled from their results. */
    method AnalyzeLocal(path: string, loaded: seq<LoadedFile>, parse: string -> ParseOutcome,
                        radon: string -> ComplexityAnalyzer.RadonOutcome) returns (r: Option<Results>)
      requires Valid()
      modifies parser, dependencyExtractor
      ensures Valid()
      ensures r.None? <==> FilterByLanguage(loaded, "python") == []
      ensures r.None? ==> unchanged(dependencyExtractor)
      ensures r.Some? ==>
        var files := FilterByLanguage(loaded, "python");
        && r.value.source == path
        && r.value.totalFiles == |files|
        && AllAnalysed(files, r.value.files, parse, radon, config)
      ensures r.Some? ==>
        var parsed := ParsedOf(r.value.files);
        && dependencyExtractor.State()
           == AddFiles(old(dependencyExtractor.State()), parsed, FileKeys(parsed))
        && r.value.dependencies
           == DependencyReport(|parsed|, dependencyExtractor.graph, dependencyExtractor.fileDependencies,
                               Analyze(dependencyExtractor.graph))
        && r.value.duplicates == Duplicates(parsed)
      ensures r.Some? ==>
        var cs := ComplexitiesOf(r.value.files);
        && r.value.repositoryMetrics.averageComplexity
           == ComplexityAnalyzer.MeanOf(ComplexityAnalyzer.PositiveAverages(cs))
        && r.value.repositoryMetrics.averageMaintainability
           == ComplexityAnalyzer.MeanOf(ComplexityAnalyzer.PositiveScores(cs))
        && r.value.repositoryMetrics.highComplexityFiles == ComplexityAnalyzer.HighFiles(cs)
      ensures r.Some? ==>
        r.value.summary == GenerateSummary(r.value.files, r.value.dependencies, r.value.repositoryMetrics)
    {
      var files := FilterByLanguage(loaded, "python");
      if |files| == 0 {
        return None;
      }
      var all := AnalyzeFiles(files, parse, radon);
      var parsed := ParsedOf(all);
      var dependencies := dependencyExtractor.ExtractDependencies(parsed);
      var duplicates := DetectDuplicates(parsed);
      var repo := ComplexityAnalyzer.AnalyzeRepository(ComplexitiesOf(all));
      var summary := GenerateSummary(all, dependencies, repo);
      r := Some(Results(path, |files|, all, dependencies, duplicates, repo, summary));
    }
  }
}
