/** Per-file and per-repository size metrics (MetricsCalculator): line
    classification with one "inside a triple-quoted string" flag, structure
    counts and averages, documentation coverage, repository totals and the
    per-language breakdown. Percentages and averages are exact reals; the
    source rounds them to two places. */
module MetricsCalculator {
  import opened Seqs
  import opened Text
  import opened Paths
  import opened AstParser

  // ---------------------------------------------------------------------
  // Line classification
  // ---------------------------------------------------------------------

  /** The test both line counters apply to a stripped line. */
  predicate HasTripleQuote(s: string) {
    Contains(s, "\"\"\"") || Contains(s, "'''")
  }

  /** The in-string flag after reading the given lines: it starts false and
      every line whose stripped text holds a triple quote flips it. */
  function InStringAfter(lines: seq<string>): bool
    decreases |lines|
  {
    if |lines| == 0 then false
    else InStringAfter(lines[..|lines| - 1]) != HasTripleQuote(Strip(lines[|lines| - 1]))
  }

  datatype LineKind = SourceLine | CommentLine | BlankLine

  /** How the two counters treat one line, given the flag before it: a
      triple-quote line, a line inside a string and a '#' line are
      comments; of the rest, an empty stripped line is blank and any other
      is source. */
  function Classify(inString: bool, line: string): LineKind {
    var t := Strip(line);
    if HasTripleQuote(t) || inString || StartsWith(t, "#") then CommentLine
    else if t == "" then BlankLine
    else SourceLine
  }

  /** The number of lines of the given kind. */
  function CountKind(lines: seq<string>, k: LineKind): nat
    decreases |lines|
  {
    if |lines| == 0 then 0
    else
      var init := lines[..|lines| - 1];
      CountKind(init, k) + (if Classify(InStringAfter(init), lines[|lines| - 1]) == k then 1 else 0)
  }

  /** Every line is exactly one of source, comment and blank, so the three
      counts add up to the number of lines. */
  lemma {:induction false} CountKindPartition(lines: seq<string>)
    ensures CountKind(lines, SourceLine) + CountKind(lines, CommentLine) + CountKind(lines, BlankLine) == |lines|
    decreases |lines|
  {
    if |lines| > 0 {
      CountKindPartition(lines[..|lines| - 1]);
    }
  }

  /** A line holding a triple quote flips the flag once and counts as one
      comment line and never as source, even when it opens and closes a
      string on the same line. */
  lemma TripleQuoteLine(lines: seq<string>, k: nat)
    requires k < |lines| && HasTripleQuote(Strip(lines[k]))
    ensures InStringAfter(lines[..k + 1]) == !InStringAfter(lines[..k])
    ensures CountKind(lines[..k + 1], CommentLine) == CountKind(lines[..k], CommentLine) + 1
    ensures CountKind(lines[..k + 1], SourceLine) == CountKind(lines[..k], SourceLine)
    ensures CountKind(lines[..k + 1], BlankLine) == CountKind(lines[..k], BlankLine)
  {
    assert lines[..k + 1][..k] == lines[..k];
  }

  /** Reading one more line flips the flag on a triple quote and adds the
      line to the count of its kind. */
  lemma LineStep(lines: seq<string>, i: nat, k: LineKind)
    requires i < |lines|
    ensures InStringAfter(lines[..i + 1]) == (InStringAfter(lines[..i]) != HasTripleQuote(Strip(lines[i])))
    ensures CountKind(lines[..i + 1], k)
         == CountKind(lines[..i], k) + (if Classify(InStringAfter(lines[..i]), lines[i]) == k then 1 else 0)
  {
    assert lines[..i + 1][..i] == lines[..i];
  }

  /** _count_sloc: the lines outside strings that are neither empty nor
      '#' comments. */
  method CountSloc(lines: seq<string>) returns (sloc: nat)
    ensures sloc == CountKind(lines, SourceLine)
  {
    sloc := 0;
    var inMultilineString := false;
    for i := 0 to |lines|
      invariant inMultilineString == InStringAfter(lines[..i])
      invariant sloc == CountKind(lines[..i], SourceLine)
    {
      LineStep(lines, i, SourceLine);
      var stripped := Strip(lines[i]);
      if HasTripleQuote(stripped) {
        inMultilineString := !inMultilineString;
        continue;
      }
      if inMultilineString {
        continue;
      }
      if stripped != "" && !StartsWith(stripped, "#") {
        sloc := sloc + 1;
      }
    }
    assert lines[..|lines|] == lines;
  }

  /** _count_comments: triple-quote lines, lines inside strings and '#'
      lines. */
  method CountComments(lines: seq<string>) returns (comments: nat)
    ensures comments == CountKind(lines, CommentLine)
  {
    comments := 0;
    var inDocstring := false;
    for i := 0 to |lines|
      invariant inDocstring == InStringAfter(lines[..i])
      invariant comments == CountKind(lines[..i], CommentLine)
    {
      LineStep(lines, i, CommentLine);
      var stripped := Strip(lines[i]);
      if HasTripleQuote(stripped) {
        inDocstring := !inDocstring;
        comments := comments + 1;
        continue;
      }
      if inDocstring {
        comments := comments + 1;
        continue;
      }
      if StartsWith(stripped, "#") {
        comments := comments + 1;
      }
    }
    assert lines[..|lines|] == lines;
  }

  // ---------------------------------------------------------------------
  // Structure and documentation
  // ---------------------------------------------------------------------

  function FunctionLength(f: FunctionInfo): real { f.numLines as real }
  function ClassLength(c: ClassInfo): real { c.numLines as real }

  predicate FunctionDocumented(f: FunctionInfo) { Truthy(f.docstring) }
  predicate ClassDocumented(c: ClassInfo) { Truthy(c.docstring) }

  /** _calculate_avg_function_length without the rounding. */
  function AvgFunctionLength(fs: seq<FunctionInfo>): (r: real)
    ensures |fs| == 0 ==> r == 0.0
    ensures |fs| > 0 ==> r * |fs| as real == SumReal(fs, FunctionLength)
  {
    Mean(fs, FunctionLength)
  }

  /** _calculate_avg_class_length without the rounding. */
  function AvgClassLength(cs: seq<ClassInfo>): (r: real)
    ensures |cs| == 0 ==> r == 0.0
    ensures |cs| > 0 ==> r * |cs| as real == SumReal(cs, ClassLength)
  {
    Mean(cs, ClassLength)
  }

  /** The average length lies between the shortest and the longest record. */
  lemma AvgFunctionLengthWithin(fs: seq<FunctionInfo>, lo: int, hi: int)
    requires |fs| > 0
    requires forall i :: 0 <= i < |fs| ==> lo <= fs[i].numLines <= hi
    ensures lo as real <= AvgFunctionLength(fs) <= hi as real
  {
    MeanBounds(fs, FunctionLength, lo as real, hi as real);
  }

  /** Documentation coverage: documented over total items as a percentage,
      0 when there are no items (without the rounding). */
  function Coverage(documented: nat, total: nat): (r: real)
    requires documented <= total
    ensures 0.0 <= r <= 100.0
    ensures total == 0 ==> r == 0.0
    ensures total > 0 ==> r * total as real == documented as real * 100.0
    ensures r == 100.0 <==> total > 0 && documented == total
  {
    if total == 0 then 0.0 else (documented as real / total as real) * 100.0
  }

  /** _calculate_doc_coverage: one pass over the functions and one over the
      classes, counting items and documented items. */
  method CalculateDocCoverage(parsed: ParseResult) returns (coverage: real)
    ensures coverage == Coverage(CountIf(parsed.functions, FunctionDocumented) + CountIf(parsed.classes, ClassDocumented),
                                 |parsed.functions| + |parsed.classes|)
    ensures 0.0 <= coverage <= 100.0
  {
    var totalItems: nat := 0;
    var documentedItems: nat := 0;
    var fs := parsed.functions;
    for i := 0 to |fs|
      invariant totalItems == i
      invariant documentedItems == CountIf(fs[..i], FunctionDocumented)
    {
      assert fs[..i + 1][..i] == fs[..i];
      totalItems := totalItems + 1;
      if Truthy(fs[i].docstring) {
        documentedItems := documentedItems + 1;
      }
    }
    assert fs[..|fs|] == fs;
    var cs := parsed.classes;
    for j := 0 to |cs|
      invariant totalItems == |fs| + j
      invariant documentedItems == CountIf(fs, FunctionDocumented) + CountIf(cs[..j], ClassDocumented)
    {
      assert cs[..j + 1][..j] == cs[..j];
      totalItems := totalItems + 1;
      if Truthy(cs[j].docstring) {
        documentedItems := documentedItems + 1;
      }
    }
    assert cs[..|cs|] == cs;
    if totalItems == 0 {
      return 0.0;
    }
    return (documentedItems as real / totalItems as real) * 100.0;
  }

  // ---------------------------------------------------------------------
  // File metrics
  // ---------------------------------------------------------------------

  datatype LinesOfCode = LinesOfCode(
    total: int, source: int, comments: int, blank: int,
    commentRatio: real, codeRatio: real)

  datatype Structure = Structure(
    functions: int, classes: int, imports: int,
    avgFunctionLength: real, avgClassLength: real)

  datatype Documentation = Documentation(coverage: real, functionsWithDocs: int, classesWithDocs: int)

  datatype FileMetrics = FileMetrics(
    filepath: string, linesOfCode: LinesOfCode, structure: Structure, documentation: Documentation)

  /** part / whole * 100, or 0 when whole is 0 (without the rounding). */
  function Percent(part: int, whole: int): (r: real)
    ensures whole <= 0 ==> r == 0.0
    ensures whole > 0 ==> r * whole as real == part as real * 100.0
    ensures whole > 0 && 0 <= part <= whole ==> 0.0 <= r <= 100.0
  {
    if whole > 0 then part as real / whole as real * 100.0 else 0.0
  }

  /** calculate_file_metrics. */
  method CalculateFileMetrics(filepath: string, content: string, parsed: ParseResult) returns (m: FileMetrics)
    ensures m.filepath == filepath
    ensures m.linesOfCode.total == |Split(content, '\n')| == CountChar(content, '\n') + 1
    ensures m.linesOfCode.source == CountKind(Split(content, '\n'), SourceLine)
    ensures m.linesOfCode.comments == CountKind(Split(content, '\n'), CommentLine)
    ensures m.linesOfCode.blank == CountKind(Split(content, '\n'), BlankLine)
    ensures m.linesOfCode.source + m.linesOfCode.comments + m.linesOfCode.blank == m.linesOfCode.total
    ensures m.linesOfCode.commentRatio == Percent(m.linesOfCode.comments, m.linesOfCode.total)
    ensures m.linesOfCode.codeRatio == Percent(m.linesOfCode.source, m.linesOfCode.total)
    ensures m.structure == Structure(|parsed.functions|, |parsed.classes|, |parsed.imports|,
                                     AvgFunctionLength(parsed.functions), AvgClassLength(parsed.classes))
    ensures m.documentation.functionsWithDocs == CountIf(parsed.functions, FunctionDocumented)
    ensures m.documentation.classesWithDocs == CountIf(parsed.classes, ClassDocumented)
    ensures m.documentation.coverage
         == Coverage(m.documentation.functionsWithDocs + m.documentation.classesWithDocs,
                     m.structure.functions + m.structure.classes)
  {
    var lines := Split(content, '\n');
    SplitLength(content, '\n');
    var loc := |lines|;
    var sloc := CountSloc(lines);
    var comments := CountComments(lines);
    CountKindPartition(lines);
    var blank := loc - sloc - comments;
    var docCoverage := CalculateDocCoverage(parsed);
    m := FileMetrics(
      filepath,
      LinesOfCode(loc, sloc, comments, blank, Percent(comments, loc), Percent(sloc, loc)),
      Structure(|parsed.functions|, |parsed.classes|, |parsed.imports|,
                AvgFunctionLength(parsed.functions), AvgClassLength(parsed.classes)),
      Documentation(docCoverage, CountIf(parsed.functions, FunctionDocumented), CountIf(parsed.classes, ClassDocumented)));
  }

  // ---------------------------------------------------------------------
  // Language breakdown
  // ---------------------------------------------------------------------

  /** _get_language_from_extension's table. */
  const ExtensionLanguages: map<string, string> := map[
    ".py" := "Python", ".js" := "JavaScript", ".jsx" := "JavaScript",
    ".ts" := "TypeScript", ".tsx" := "TypeScript", ".java" := "Java",
    ".cpp" := "C++", ".c" := "C", ".go" := "Go", ".rs" := "Rust",
    ".rb" := "Ruby", ".php" := "PHP"]

  /** _get_language_from_extension: the table's entry, or "Unknown". */
  function LanguageFromExtension(ext: string): (r: string)
    ensures r == "Unknown" <==> ext !in ExtensionLanguages
    ensures ext in ExtensionLanguages ==> r == ExtensionLanguages[ext]
  {
    if ext in ExtensionLanguages then ExtensionLanguages[ext] else "Unknown"
  }

  function LanguageOfFile(m: FileMetrics): string {
    LanguageFromExtension(Suffix(m.filepath))
  }

  datatype LanguageStats = LanguageStats(files: nat, lines: int, functions: int, classes: int)

  /** The per-language dictionary: its keys in insertion order, and its
      entries. */
  datatype LanguageTable = LanguageTable(languages: seq<string>, stats: map<string, LanguageStats>)

  function AddFile(s: LanguageStats, m: FileMetrics): LanguageStats {
    LanguageStats(s.files + 1, s.lines + m.linesOfCode.total,
                  s.functions + m.structure.functions, s.classes + m.structure.classes)
  }

  /** One loop step of _calculate_language_metrics. */
  function TallyStep(t: LanguageTable, lang: string, m: FileMetrics): LanguageTable {
    var t1 := if lang in t.stats then t
              else LanguageTable(t.languages + [lang], t.stats[lang := LanguageStats(0, 0, 0, 0)]);
    LanguageTable(t1.languages, t1.stats[lang := AddFile(t1.stats[lang], m)])
  }

  function Tally(ms: seq<FileMetrics>): LanguageTable
    decreases |ms|
  {
    if |ms| == 0 then LanguageTable([], map[])
    else TallyStep(Tally(ms[..|ms| - 1]), LanguageOfFile(ms[|ms| - 1]), ms[|ms| - 1])
  }

  /** _calculate_language_metrics: one dictionary update per file. */
  method CalculateLanguageMetrics(ms: seq<FileMetrics>) returns (t: LanguageTable)
    ensures t == Tally(ms)
  {
    var languages: seq<string> := [];
    var stats: map<string, LanguageStats> := map[];
    for i := 0 to |ms|
      invariant LanguageTable(languages, stats) == Tally(ms[..i])
    {
      assert ms[..i + 1][..i] == ms[..i];
      var language := LanguageFromExtension(Suffix(ms[i].filepath));
      if language !in stats {
        languages := languages + [language];
        stats := stats[language := LanguageStats(0, 0, 0, 0)];
      }
      stats := stats[language := AddFile(stats[language], ms[i])];
    }
    assert ms[..|ms|] == ms;
    t := LanguageTable(languages, stats);
  }

  /** The table's keys are listed once each, and are exactly the languages
      of the files. */
  ghost predicate WellFormed(t: LanguageTable) {
    NoDup(t.languages) && (forall l :: l in t.languages <==> l in t.stats)
  }

  /** The sum of one field over the table, in key order. */
  function SumStat(languages: seq<string>, stats: map<string, LanguageStats>, f: LanguageStats -> int): int
    decreases |languages|
  {
    if |languages| == 0 then 0
    else
      var l := languages[|languages| - 1];
      SumStat(languages[..|languages| - 1], stats, f) + (if l in stats then f(stats[l]) else 0)
  }

  lemma {:induction false} SumStatOther(languages: seq<string>, stats: map<string, LanguageStats>,
                                        l: string, v: LanguageStats, f: LanguageStats -> int)
    requires l !in languages
    ensures SumStat(languages, stats[l := v], f) == SumStat(languages, stats, f)
    decreases |languages|
  {
    if |languages| > 0 {
      SumStatOther(languages[..|languages| - 1], stats, l, v, f);
    }
  }

  lemma {:induction false} SumStatUpdate(languages: seq<string>, stats: map<string, LanguageStats>,
                                         l: string, v: LanguageStats, f: LanguageStats -> int)
    requires NoDup(languages) && l in languages && l in stats
    ensures SumStat(languages, stats[l := v], f) == SumStat(languages, stats, f) - f(stats[l]) + f(v)
    decreases |languages|
  {
    var init := languages[..|languages| - 1];
    if languages[|languages| - 1] == l {
      assert l !in init;
      SumStatOther(init, stats, l, v, f);
    } else {
      assert l in init;
      SumStatUpdate(init, stats, l, v, f);
    }
  }

  function FilesStat(s: LanguageStats): int { s.files }
  function LinesStat(s: LanguageStats): int { s.lines }
  function TotalLines(m: FileMetrics): int { m.linesOfCode.total }

  /** The entry a tally step for m starts from. */
  function EntryBefore(t: LanguageTable, lang: string): LanguageStats {
    if lang in t.stats then t.stats[lang] else LanguageStats(0, 0, 0, 0)
  }

  lemma TallyStepWellFormed(t: LanguageTable, lang: string, m: FileMetrics)
    requires WellFormed(t)
    ensures WellFormed(TallyStep(t, lang, m))
  {
  }

  /** A tally step changes a column sum by what it adds to m's entry. */
  lemma TallyStepSum(t: LanguageTable, lang: string, m: FileMetrics, f: LanguageStats -> int)
    requires WellFormed(t)
    ensures SumStat(TallyStep(t, lang, m).languages, TallyStep(t, lang, m).stats, f)
         == SumStat(t.languages, t.stats, f) - (if lang in t.stats then f(t.stats[lang]) else 0)
            + f(AddFile(EntryBefore(t, lang), m))
  {
    var s0 := EntryBefore(t, lang);
    if lang in t.stats {
      SumStatUpdate(t.languages, t.stats, lang, AddFile(s0, m), f);
    } else {
      var ls := t.languages + [lang];
      var st := t.stats[lang := s0];
      assert ls[..|ls| - 1] == t.languages;
      SumStatOther(t.languages, t.stats, lang, s0, f);
      assert SumStat(ls, st, f) == SumStat(t.languages, t.stats, f) + f(s0);
      assert NoDup(ls);
      SumStatUpdate(ls, st, lang, AddFile(s0, m), f);
      assert TallyStep(t, lang, m) == LanguageTable(ls, st[lang := AddFile(st[lang], m)]);
    }
  }

  /** No language is listed twice, and the listed languages are the keys. */
  lemma {:induction false} TallyWellFormed(ms: seq<FileMetrics>)
    ensures WellFormed(Tally(ms))
    decreases |ms|
  {
    if |ms| > 0 {
      TallyWellFormed(ms[..|ms| - 1]);
      TallyStepWellFormed(Tally(ms[..|ms| - 1]), LanguageOfFile(ms[|ms| - 1]), ms[|ms| - 1]);
    }
  }

  /** The per-language file counts sum to the number of files. */
  lemma {:induction false} TallyFileSum(ms: seq<FileMetrics>)
    ensures SumStat(Tally(ms).languages, Tally(ms).stats, FilesStat) == |ms|
    decreases |ms|
  {
    if |ms| > 0 {
      var init, last := ms[..|ms| - 1], ms[|ms| - 1];
      var t := Tally(init);
      var lang := LanguageOfFile(last);
      var t' := TallyStep(t, lang, last);
      assert Tally(ms) == t';
      TallyFileSum(init);
      assert SumStat(t'.languages, t'.stats, FilesStat) == SumStat(t.languages, t.stats, FilesStat) + 1 by {
        TallyWellFormed(init);
        TallyStepSum(t, lang, last, FilesStat);
        var e := EntryBefore(t, lang);
        assert (if lang in t.stats then FilesStat(t.stats[lang]) else 0) == FilesStat(e);
        assert FilesStat(AddFile(e, last)) == FilesStat(e) + 1;
      }
    }
  }

  /** The per-language line counts sum to the total lines of the files. */
  lemma {:induction false} TallyLineSum(ms: seq<FileMetrics>)
    ensures SumStat(Tally(ms).languages, Tally(ms).stats, LinesStat) == Sum(ms, TotalLines)
    decreases |ms|
  {
    if |ms| > 0 {
      var init, last := ms[..|ms| - 1], ms[|ms| - 1];
      var t := Tally(init);
      var lang := LanguageOfFile(last);
      var t' := TallyStep(t, lang, last);
      assert Tally(ms) == t';
      assert Sum(ms, TotalLines) == Sum(init, TotalLines) + TotalLines(last);
      TallyLineSum(init);
      assert SumStat(t'.languages, t'.stats, LinesStat) == SumStat(t.languages, t.stats, LinesStat) + TotalLines(last) by {
        TallyWellFormed(init);
        TallyStepSum(t, lang, last, LinesStat);
        var e := EntryBefore(t, lang);
        assert (if lang in t.stats then LinesStat(t.stats[lang]) else 0) == LinesStat(e);
        assert LinesStat(AddFile(e, last)) == LinesStat(e) + TotalLines(last);
      }
    }
  }

  lemma TallyStepKeys(t: LanguageTable, lang: string, m: FileMetrics, l: string)
    ensures l in TallyStep(t, lang, m).stats <==> l in t.stats || l == lang
  {
  }

  /** A language has an entry exactly when some file is in it. */
  lemma {:induction false} TallyHas(ms: seq<FileMetrics>, l: string)
    ensures l in Tally(ms).stats <==> exists m :: m in ms && InLanguage(l, m)
    decreases |ms|
  {
    if |ms| > 0 {
      var init, last := ms[..|ms| - 1], ms[|ms| - 1];
      assert Tally(ms) == TallyStep(Tally(init), LanguageOfFile(last), last);
      assert l in Tally(ms).stats <==> l in Tally(init).stats || InLanguage(l, last) by {
        TallyStepKeys(Tally(init), LanguageOfFile(last), last, l);
      }
      TallyHas(init, l);
      assert (exists m :: m in ms && InLanguage(l, m))
        <==> (exists m :: m in init && InLanguage(l, m)) || InLanguage(l, last) by {
        assert ms == init + [last];
        assert forall m :: m in ms <==> m in init || m == last;
        if InLanguage(l, last) {
          assert last in ms;
        }
      }
    }
  }

  predicate InLanguage(l: string, m: FileMetrics) { LanguageOfFile(m) == l }

  /** Each entry counts the files in its language. */
  lemma {:induction false} TallyFiles(ms: seq<FileMetrics>, l: string)
    ensures l in Tally(ms).stats ==> Tally(ms).stats[l].files == CountIf(ms, m => InLanguage(l, m))
    ensures l !in Tally(ms).stats ==> CountIf(ms, m => InLanguage(l, m)) == 0
    decreases |ms|
  {
    if |ms| > 0 {
      var init := ms[..|ms| - 1];
      TallyFiles(init, l);
      assert CountIf(ms, m => InLanguage(l, m))
          == CountIf(init, m => InLanguage(l, m)) + (if InLanguage(l, ms[|ms| - 1]) then 1 else 0);
    }
  }

  // ---------------------------------------------------------------------
  // Repository metrics
  // ---------------------------------------------------------------------

  datatype RepoLines = RepoLines(total: int, source: int, comments: int, blank: int, commentRatio: real)

  datatype RepoStructure = RepoStructure(
    totalFunctions: int, totalClasses: int, totalImports: int,
    avgFunctionsPerFile: real, avgClassesPerFile: real)

  datatype RepositoryMetrics = RepositoryMetrics(
    totalFiles: nat, linesOfCode: RepoLines, structure: RepoStructure,
    averageCoverage: real, perLanguage: LanguageTable)

  /** _empty_repo_metrics. */
  function EmptyRepoMetrics(): (r: RepositoryMetrics)
    ensures r.totalFiles == 0 && r.perLanguage.languages == [] && r.perLanguage.stats == map[]
    ensures r.linesOfCode.total == 0 && r.structure.totalFunctions == 0 && r.averageCoverage == 0.0
  {
    RepositoryMetrics(0, RepoLines(0, 0, 0, 0, 0.0), RepoStructure(0, 0, 0, 0.0, 0.0), 0.0,
                      LanguageTable([], map[]))
  }

  function SourceLines(m: FileMetrics): int { m.linesOfCode.source }
  function CommentLines(m: FileMetrics): int { m.linesOfCode.comments }
  function BlankLines(m: FileMetrics): int { m.linesOfCode.blank }
  function Functions(m: FileMetrics): int { m.structure.functions }
  function Classes(m: FileMetrics): int { m.structure.classes }
  function Imports(m: FileMetrics): int { m.structure.imports }
  function FunctionsReal(m: FileMetrics): real { m.structure.functions as real }
  function ClassesReal(m: FileMetrics): real { m.structure.classes as real }
  function CoverageOf(m: FileMetrics): real { m.documentation.coverage }

  /** calculate_repository_metrics: sums of the per-file fields, means per
      file and the language breakdown; the empty list gives the all-zero
      metrics. */
  method CalculateRepositoryMetrics(ms: seq<FileMetrics>) returns (r: RepositoryMetrics)
    ensures |ms| == 0 ==> r == EmptyRepoMetrics()
    ensures r.totalFiles == |ms|
    ensures |ms| > 0 ==> r.linesOfCode == RepoLines(Sum(ms, TotalLines), Sum(ms, SourceLines), Sum(ms, CommentLines),
                                                  Sum(ms, BlankLines), Percent(Sum(ms, CommentLines), Sum(ms, TotalLines)))
    ensures |ms| > 0 ==> r.structure == RepoStructure(Sum(ms, Functions), Sum(ms, Classes), Sum(ms, Imports),
                                                    Mean(ms, FunctionsReal), Mean(ms, ClassesReal))
    ensures |ms| > 0 ==> r.averageCoverage == Mean(ms, CoverageOf)
    ensures |ms| > 0 ==> r.perLanguage == Tally(ms)
  {
    if |ms| == 0 {
      return EmptyRepoMetrics();
    }
    var totalLoc := Sum(ms, TotalLines);
    var totalComments := Sum(ms, CommentLines);
    var perLanguage := CalculateLanguageMetrics(ms);
    r := RepositoryMetrics(
      |ms|,
      RepoLines(totalLoc, Sum(ms, SourceLines), totalComments, Sum(ms, BlankLines), Percent(totalComments, totalLoc)),
      RepoStructure(Sum(ms, Functions), Sum(ms, Classes), Sum(ms, Imports), Mean(ms, FunctionsReal), Mean(ms, ClassesReal)),
      Mean(ms, CoverageOf),
      perLanguage);
  }

  /** In the repository metrics the per-language file counts add up to
      total_files and the per-language lines to the total lines. */
  lemma RepositoryLanguageSums(ms: seq<FileMetrics>, r: RepositoryMetrics)
    requires |ms| > 0 && r.totalFiles == |ms| && r.perLanguage == Tally(ms) && r.linesOfCode.total == Sum(ms, TotalLines)
    ensures SumStat(r.perLanguage.languages, r.perLanguage.stats, FilesStat) == r.totalFiles
    ensures SumStat(r.perLanguage.languages, r.perLanguage.stats, LinesStat) == r.linesOfCode.total
  {
    TallyFileSum(ms);
    TallyLineSum(ms);
  }

  /** Average coverage over files whose coverage is each in [0, 100] lies in
      [0, 100]. */
  lemma AverageCoverageBounds(ms: seq<FileMetrics>)
    requires |ms| > 0
    requires forall i :: 0 <= i < |ms| ==> 0.0 <= ms[i].documentation.coverage <= 100.0
    ensures 0.0 <= Mean(ms, CoverageOf) <= 100.0
  {
    MeanBounds(ms, CoverageOf, 0.0, 100.0);
  }
}
