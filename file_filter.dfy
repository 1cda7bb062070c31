/** FileFilter: whether a scanned path is analysed, the two language tables,
    the filtering loop and the statistics over the kept files. What the file
    system reports about a path (whether it is a regular file, its size, its
    position under the root) is given as FileFacts. */
module FileFilter {
  import opened Seqs
  import opened Text
  import opened Helpers
  import opened Paths

  /** What should_analyze_file learns from the file system about a path:
      is_file(); the parts of relative_to(root), None when it raises
      ValueError; and stat().st_size, None when stat raises OSError. */
  datatype FileFacts = FileFacts(
    path: string, isFile: bool, relativeParts: Option<seq<string>>, size: Option<int>)

  /** The settings the filter takes from the configuration. */
  datatype Settings = Settings(
    excludeDirs: set<string>, excludeExtensions: set<string>,
    maxFileSize: int, supportedLanguages: seq<string>)

  /** FileFilter.__init__: the analysis section's entries with their
      defaults; the size limit is in bytes. */
  function SettingsOf(c: Config): (s: Settings)
    ensures c.analysis.excludeDirs.None? ==> s.excludeDirs == {}
    ensures c.analysis.maxFileSizeMb.None? ==> s.maxFileSize == 10 * 1024 * 1024
  {
    Settings(ToSet(GetOr(c.analysis.excludeDirs, [])), ToSet(GetOr(c.analysis.excludeExtensions, [])),
             MaxFileSizeBytes(c), SupportedLanguages(c))
  }

  // ---------------------------------------------------------------------
  // is_supported_language and get_language
  // ---------------------------------------------------------------------

  /** is_supported_language's table of extensions per language. */
  const SupportedExtensions: map<string, seq<string>> := map[
    "python" := [".py"],
    "javascript" := [".js", ".jsx", ".ts", ".tsx"],
    "java" := [".java"],
    "cpp" := [".cpp", ".cc", ".cxx", ".h", ".hpp"],
    "c" := [".c", ".h"],
    "go" := [".go"],
    "rust" := [".rs"],
    "ruby" := [".rb"],
    "php" := [".php"]]

  /** The table's entry for a language name in any case; an unknown name
      has no extensions. */
  function ExtensionsFor(language: string): (r: seq<string>)
    ensures LowerAscii(language) !in SupportedExtensions ==> r == []
  {
    var l := LowerAscii(language);
    if l in SupportedExtensions then SupportedExtensions[l] else []
  }

  /** The loop of is_supported_language: true at the first configured
      language whose list holds the suffix. */
  function IsSupportedIn(suffix: string, languages: seq<string>): bool
    decreases |languages|
  {
    if |languages| == 0 then false
    else if suffix in ExtensionsFor(languages[0]) then true
    else IsSupportedIn(suffix, languages[1..])
  }

  /** A suffix is supported exactly when some configured language lists it. */
  lemma {:induction false} IsSupportedIff(suffix: string, languages: seq<string>)
    ensures IsSupportedIn(suffix, languages) <==>
      exists i :: 0 <= i < |languages| && suffix in ExtensionsFor(languages[i])
    decreases |languages|
  {
    if |languages| > 0 {
      IsSupportedIff(suffix, languages[1..]);
      if exists i :: 0 <= i < |languages| && suffix in ExtensionsFor(languages[i]) {
        var i :| 0 <= i < |languages| && suffix in ExtensionsFor(languages[i]);
        if i > 0 {
          assert languages[1..][i - 1] == languages[i];
        }
      }
      if IsSupportedIn(suffix, languages[1..]) {
        var i :| 0 <= i < |languages[1..]| && suffix in ExtensionsFor(languages[1..][i]);
        assert languages[i + 1] == languages[1..][i];
      }
    }
  }

  function IsSupportedLanguage(st: Settings, path: string): bool {
    IsSupportedIn(Suffix(path), st.supportedLanguages)
  }

  /** get_language's table. */
  const LanguageOfExtension: map<string, string> := map[
    ".py" := "python", ".js" := "javascript", ".jsx" := "javascript",
    ".ts" := "typescript", ".tsx" := "typescript", ".java" := "java",
    ".cpp" := "cpp", ".cc" := "cpp", ".cxx" := "cpp", ".h" := "c/cpp",
    ".hpp" := "cpp", ".c" := "c", ".go" := "go", ".rs" := "rust",
    ".rb" := "ruby", ".php" := "php"]

  /** get_language: the table's entry for the path's suffix, 'unknown' for
      any other. */
  function GetLanguage(path: string): (r: string)
    ensures r == "unknown" <==> Suffix(path) !in LanguageOfExtension
    ensures Suffix(path) == ".h" ==> r == "c/cpp"
  {
    var ext := Suffix(path);
    if ext in LanguageOfExtension then LanguageOfExtension[ext] else "unknown"
  }

  /** The nine language names of is_supported_language's table. */
  const AllLanguages: seq<string> := ["python", "javascript", "java", "cpp", "c", "go", "rust", "ruby", "php"]

  lemma ExtensionsForNames()
    ensures ExtensionsFor("python") == [".py"]
    ensures ExtensionsFor("javascript") == [".js", ".jsx", ".ts", ".tsx"]
    ensures ExtensionsFor("java") == [".java"]
    ensures ExtensionsFor("cpp") == [".cpp", ".cc", ".cxx", ".h", ".hpp"]
    ensures ExtensionsFor("c") == [".c", ".h"]
    ensures ExtensionsFor("go") == [".go"]
    ensures ExtensionsFor("rust") == [".rs"]
    ensures ExtensionsFor("ruby") == [".rb"]
    ensures ExtensionsFor("php") == [".php"]
  {
    assert LowerAscii("python") == "python";
    assert LowerAscii("javascript") == "javascript";
    assert LowerAscii("java") == "java";
    assert LowerAscii("cpp") == "cpp";
    assert LowerAscii("c") == "c";
    assert LowerAscii("go") == "go";
    assert LowerAscii("rust") == "rust";
    assert LowerAscii("ruby") == "ruby";
    assert LowerAscii("php") == "php";
  }

  /** The two tables agree: get_language names a language for exactly the
      suffixes that some language of is_supported_language lists. */
  lemma TablesAgree(path: string)
    ensures GetLanguage(path) != "unknown" <==> IsSupportedIn(Suffix(path), AllLanguages)
  {
    var ext := Suffix(path);
    IsSupportedIff(ext, AllLanguages);
    if ext in LanguageOfExtension {
      KnownIsListed(ext);
    } else {
      UnknownIsUnlisted(ext);
    }
  }

  lemma KnownIsListed(ext: string)
    requires ext in LanguageOfExtension
    ensures exists i :: 0 <= i < |AllLanguages| && ext in ExtensionsFor(AllLanguages[i])
  {
    ExtensionsForNames();
    var i :=
      if ext == ".py" then 0
      else if ext in [".js", ".jsx", ".ts", ".tsx"] then 1
      else if ext == ".java" then 2
      else if ext in [".cpp", ".cc", ".cxx", ".h", ".hpp"] then 3
      else if ext == ".c" then 4
      else if ext == ".go" then 5
      else if ext == ".rs" then 6
      else if ext == ".rb" then 7
      else 8;
    assert ext in ExtensionsFor(AllLanguages[i]);
  }

  lemma UnknownIsUnlisted(ext: string)
    requires ext !in LanguageOfExtension
    ensures forall i :: 0 <= i < |AllLanguages| ==> ext !in ExtensionsFor(AllLanguages[i])
  {
    ExtensionsForNames();
    forall i | 0 <= i < |AllLanguages|
      ensures ext !in ExtensionsFor(AllLanguages[i])
    {
      assert AllLanguages[i] in AllLanguages;
    }
  }

  /** Only '.h' is filed under 'c/cpp'. */
  lemma HeaderLanguage(path: string)
    ensures GetLanguage(path) == "c/cpp" <==> Suffix(path) == ".h"
  {
  }

  // ---------------------------------------------------------------------
  // should_analyze_file
  // ---------------------------------------------------------------------

  /** Some part of the path relative to the root is an excluded directory;
      a path outside the root has no such parts. */
  predicate InExcludedDir(st: Settings, f: FileFacts) {
    f.relativeParts.Some? &&
    exists i :: 0 <= i < |f.relativeParts.value| && f.relativeParts.value[i] in st.excludeDirs
  }

  /** should_analyze_file: the checks in the source's order. */
  function ShouldAnalyzeFile(st: Settings, f: FileFacts): bool {
    if !f.isFile then false
    else if InExcludedDir(st, f) then false
    else if Suffix(f.path) in st.excludeExtensions then false
    else if f.size.None? then false
    else if f.size.value > st.maxFileSize then false
    else IsSupportedLanguage(st, f.path)
  }

  /** A path is accepted exactly when it is a regular file, no part of it
      under the root is an excluded directory, its suffix is not excluded,
      its size is known and within the limit, and some configured language
      lists its suffix. */
  lemma ShouldAnalyzeIff(st: Settings, f: FileFacts)
    ensures ShouldAnalyzeFile(st, f) <==>
      f.isFile
      && !(f.relativeParts.Some? && exists d :: d in f.relativeParts.value && d in st.excludeDirs)
      && Suffix(f.path) !in st.excludeExtensions
      && f.size.Some? && f.size.value <= st.maxFileSize
      && exists i :: 0 <= i < |st.supportedLanguages| && Suffix(f.path) in ExtensionsFor(st.supportedLanguages[i])
  {
    IsSupportedIff(Suffix(f.path), st.supportedLanguages);
    if f.relativeParts.Some? && exists d :: d in f.relativeParts.value && d in st.excludeDirs {
      var d :| d in f.relativeParts.value && d in st.excludeDirs;
      var i :| 0 <= i < |f.relativeParts.value| && f.relativeParts.value[i] == d;
      assert InExcludedDir(st, f);
    }
  }

  /** A path outside the root is not rejected for its directories: the
      excluded directories make no difference to it. A failing stat rejects
      the file. */
  lemma OutsideRootAndStatFailure(st: Settings, f: FileFacts, dirs: set<string>)
    ensures f.relativeParts.None? ==> ShouldAnalyzeFile(st, f) == ShouldAnalyzeFile(st.(excludeDirs := dirs), f)
    ensures f.size.None? ==> !ShouldAnalyzeFile(st, f)
  {
  }

  // ---------------------------------------------------------------------
  // filter_files
  // ---------------------------------------------------------------------

  /** The accepted paths, in their order. */
  function Accepted(st: Settings, files: seq<FileFacts>): (r: seq<FileFacts>)
    ensures |r| <= |files|
    ensures forall f :: f in r <==> f in files && ShouldAnalyzeFile(st, f)
    decreases |files|
  {
    if |files| == 0 then []
    else
      var init, last := files[..|files| - 1], files[|files| - 1];
      assert forall f :: f in files <==> f in init || f == last;
      Accepted(st, init) + (if ShouldAnalyzeFile(st, last) then [last] else [])
  }

  /** Filtering keeps the order: it maps a concatenation to the
      concatenation of the filtered parts. */
  lemma {:induction false} AcceptedAppend(st: Settings, a: seq<FileFacts>, b: seq<FileFacts>)
    ensures Accepted(st, a + b) == Accepted(st, a) + Accepted(st, b)
    decreases |b|
  {
    if |b| == 0 {
      assert a + b == a;
    } else {
      var b0 := b[..|b| - 1];
      assert (a + b)[..|a + b| - 1] == a + b0;
      assert (a + b)[|a + b| - 1] == b[|b| - 1];
      AcceptedAppend(st, a, b0);
    }
  }

  /** filter_files: one append per accepted path. */
  method FilterFiles(st: Settings, files: seq<FileFacts>) returns (filtered: seq<FileFacts>)
    ensures filtered == Accepted(st, files)
  {
    filtered := [];
    for i := 0 to |files|
      invariant filtered == Accepted(st, files[..i])
    {
      assert files[..i + 1][..i] == files[..i];
      if ShouldAnalyzeFile(st, files[i]) {
        filtered := filtered + [files[i]];
      }
    }
    assert files[..|files|] == files;
  }

  // ---------------------------------------------------------------------
  // get_file_statistics
  // ---------------------------------------------------------------------

  /** A counting dictionary: its keys in insertion order, and the counts. */
  datatype Counter = Counter(keys: seq<string>, counts: map<string, nat>)

  /** d[k] = d.get(k, 0) + 1. */
  function Bump(c: Counter, k: string): Counter {
    if k in c.counts then Counter(c.keys, c.counts[k := c.counts[k] + 1])
    else Counter(c.keys + [k], c.counts[k := 1])
  }

  /** The counter after bumping each key of ks in turn. */
  function CountAll(ks: seq<string>): Counter
    decreases |ks|
  {
    if |ks| == 0 then Counter([], map[]) else Bump(CountAll(ks[..|ks| - 1]), ks[|ks| - 1])
  }

  /** How often k occurs in ks. */
  function Occurrences(ks: seq<string>, k: string): nat
    decreases |ks|
  {
    if |ks| == 0 then 0 else Occurrences(ks[..|ks| - 1], k) + (if ks[|ks| - 1] == k then 1 else 0)
  }

  /** The sum of the counts, key by key in order. */
  function SumCounts(keys: seq<string>, counts: map<string, nat>): int
    decreases |keys|
  {
    if |keys| == 0 then 0
    else
      var k := keys[|keys| - 1];
      SumCounts(keys[..|keys| - 1], counts) + (if k in counts then counts[k] else 0)
  }

  ghost predicate CounterValid(c: Counter) {
    NoDup(c.keys) && forall k :: k in c.keys <==> k in c.counts
  }

  lemma {:induction false} SumCountsOther(keys: seq<string>, counts: map<string, nat>, k: string, v: nat)
    requires k !in keys
    ensures SumCounts(keys, counts[k := v]) == SumCounts(keys, counts)
    decreases |keys|
  {
    if |keys| > 0 {
      SumCountsOther(keys[..|keys| - 1], counts, k, v);
    }
  }

  lemma {:induction false} SumCountsUpdate(keys: seq<string>, counts: map<string, nat>, k: string, v: nat)
    requires NoDup(keys) && k in keys && k in counts
    ensures SumCounts(keys, counts[k := v]) == SumCounts(keys, counts) - counts[k] + v
    decreases |keys|
  {
    var init := keys[..|keys| - 1];
    if keys[|keys| - 1] == k {
      assert k !in init;
      SumCountsOther(init, counts, k, v);
    } else {
      assert k in init;
      SumCountsUpdate(init, counts, k, v);
    }
  }

  /** One bump adds one to the total and one to its key's count. */
  lemma BumpSpec(c: Counter, k: string)
    requires CounterValid(c)
    ensures CounterValid(Bump(c, k))
    ensures SumCounts(Bump(c, k).keys, Bump(c, k).counts) == SumCounts(c.keys, c.counts) + 1
  {
    if k in c.counts {
      SumCountsUpdate(c.keys, c.counts, k, c.counts[k] + 1);
    } else {
      var ks := c.keys + [k];
      assert ks[..|ks| - 1] == c.keys;
      SumCountsOther(c.keys, c.counts, k, 1);
    }
  }

  /** The keys are listed once each, in the order they first occur, and
      the counts sum to the number of keys counted. */
  lemma {:induction false} CountAllTotal(ks: seq<string>)
    ensures CounterValid(CountAll(ks))
    ensures SumCounts(CountAll(ks).keys, CountAll(ks).counts) == |ks|
    decreases |ks|
  {
    if |ks| > 0 {
      CountAllTotal(ks[..|ks| - 1]);
      BumpSpec(CountAll(ks[..|ks| - 1]), ks[|ks| - 1]);
    }
  }

  /** A key has an entry exactly when it occurs, and its entry is the
      number of its occurrences. */
  lemma {:induction false} CountAllCounts(ks: seq<string>, k: string)
    ensures k in CountAll(ks).counts <==> k in ks
    ensures k in CountAll(ks).counts ==> CountAll(ks).counts[k] == Occurrences(ks, k)
    decreases |ks|
  {
    if |ks| > 0 {
      var init := ks[..|ks| - 1];
      CountAllCounts(init, k);
      assert k in ks <==> k in init || k == ks[|ks| - 1];
      if k !in init {
        OccurrencesAbsent(init, k);
      }
    }
  }

  lemma {:induction false} OccurrencesAbsent(ks: seq<string>, k: string)
    requires k !in ks
    ensures Occurrences(ks, k) == 0
    decreases |ks|
  {
    if |ks| > 0 {
      OccurrencesAbsent(ks[..|ks| - 1], k);
    }
  }

  /** get_file_statistics: the number of files, the counts per language
      and per extension, and the sum of the sizes that stat could read. */
  datatype FileStatistics = FileStatistics(
    totalFiles: nat, byLanguage: Counter, totalSize: int, byExtension: Counter)

  function SizeOf(f: FileFacts): int { if f.size.Some? then f.size.value else 0 }

  function LanguagesOf(files: seq<FileFacts>): (r: seq<string>)
    ensures |r| == |files| && forall i :: 0 <= i < |files| ==> r[i] == GetLanguage(files[i].path)
  {
    seq(|files|, i requires 0 <= i < |files| => GetLanguage(files[i].path))
  }

  function ExtensionsOf(files: seq<FileFacts>): (r: seq<string>)
    ensures |r| == |files| && forall i :: 0 <= i < |files| ==> r[i] == Suffix(files[i].path)
  {
    seq(|files|, i requires 0 <= i < |files| => Suffix(files[i].path))
  }

  function Statistics(files: seq<FileFacts>): FileStatistics {
    FileStatistics(|files|, CountAll(LanguagesOf(files)), Sum(files, SizeOf), CountAll(ExtensionsOf(files)))
  }

  /** Both breakdowns count every file once: their counts sum to the number
      of files. Each language's count is the number of files in it. */
  lemma StatisticsSums(files: seq<FileFacts>, language: string)
    ensures SumCounts(Statistics(files).byLanguage.keys, Statistics(files).byLanguage.counts) == Statistics(files).totalFiles
    ensures SumCounts(Statistics(files).byExtension.keys, Statistics(files).byExtension.counts) == Statistics(files).totalFiles
    ensures language in Statistics(files).byLanguage.counts ==>
      Statistics(files).byLanguage.counts[language] == Occurrences(LanguagesOf(files), language)
  {
    CountAllTotal(LanguagesOf(files));
    CountAllTotal(ExtensionsOf(files));
    CountAllCounts(LanguagesOf(files), language);
  }

  /** One more file bumps each breakdown once and adds its size. */
  lemma LanguagesStep(files: seq<FileFacts>, i: nat)
    requires i < |files|
    ensures CountAll(LanguagesOf(files[..i + 1])) == Bump(CountAll(LanguagesOf(files[..i])), GetLanguage(files[i].path))
  {
    var ls := LanguagesOf(files[..i + 1]);
    assert ls[..i] == LanguagesOf(files[..i]);
  }

  lemma ExtensionsStep(files: seq<FileFacts>, i: nat)
    requires i < |files|
    ensures CountAll(ExtensionsOf(files[..i + 1])) == Bump(CountAll(ExtensionsOf(files[..i])), Suffix(files[i].path))
  {
    var es := ExtensionsOf(files[..i + 1]);
    assert es[..i] == ExtensionsOf(files[..i]);
  }

  lemma SizeStep(files: seq<FileFacts>, i: nat)
    requires i < |files|
    ensures Sum(files[..i + 1], SizeOf) == Sum(files[..i], SizeOf) + SizeOf(files[i])
  {
    assert files[..i + 1][..i] == files[..i];
  }

  /** get_file_statistics: one update of each dictionary per file. */
  method GetFileStatistics(files: seq<FileFacts>) returns (stats: FileStatistics)
    ensures stats == Statistics(files)
  {
    var byLanguage := Counter([], map[]);
    var byExtension := Counter([], map[]);
    var totalSize := 0;
    for i := 0 to |files|
      invariant byLanguage == CountAll(LanguagesOf(files[..i]))
      invariant byExtension == CountAll(ExtensionsOf(files[..i]))
      invariant totalSize == Sum(files[..i], SizeOf)
    {
      var f := files[i];
      var language := GetLanguage(f.path);
      var ext := Suffix(f.path);
      LanguagesStep(files, i);
      ExtensionsStep(files, i);
      SizeStep(files, i);
      byLanguage := Bump(byLanguage, language);
      byExtension := Bump(byExtension, ext);
      if f.size.Some? {
        totalSize := totalSize + f.size.value;
      }
    }
    assert files[..|files|] == files;
    stats := FileStatistics(|files|, byLanguage, totalSize, byExtension);
  }
}
