/** The result processing of ComplexityAnalyzer. The per-function
    cyclomatic complexities and the maintainability score come from the
    radon library and are inputs here; what is modelled is what the analyser
    makes of them: the functions list, the high-complexity flagging, the
    maximum and average, the maintainability rank and the repository
    aggregate. */
module ComplexityAnalyzer {
  import opened Seqs
  import opened Helpers

  /** One entry of radon's cc_visit result (a function, method or class). */
  datatype CcResult = CcResult(name: string, complexity: int, lineno: int, classname: Option<string>)

  /** What the radon calls produce for a file: the per-block complexities
      and the maintainability score, or an exception. */
  datatype RadonOutcome = RadonOk(results: seq<CcResult>, miScore: real) | RadonError

  /** One 'functions' entry of the result. */
  datatype FuncComplexity = FuncComplexity(name: string, complexity: int, line: int, classname: Option<string>)

  datatype MiRank = RankGood | RankModerate | RankPoor | RankUnknown

  function RankText(r: MiRank): string {
    match r
    case RankGood => "A (Good)"
    case RankModerate => "B (Moderate)"
    case RankPoor => "C (Poor)"
    case RankUnknown => "Unknown"
  }

  datatype Cyclomatic = Cyclomatic(
    average: real, max: int, functions: seq<FuncComplexity>,
    highComplexityCount: nat, highComplexityFunctions: seq<FuncComplexity>)

  /** The analysis of a file. The failure result has no high-complexity
      entries, which every reader takes as 0 and []. */
  datatype ComplexityResult = ComplexityResult(
    filepath: string, cyclomatic: Cyclomatic, miScore: real, rank: MiRank)

  function FuncDataOf(c: CcResult): FuncComplexity {
    FuncComplexity(c.name, c.complexity, c.lineno, c.classname)
  }

  function ComplexityOf(c: CcResult): real { c.complexity as real }

  /** _get_mi_rank: A from 20 up, B from 10 up, C below. */
  function MiRankOf(score: real): (r: MiRank)
    ensures r == RankGood <==> score >= 20.0
    ensures r == RankModerate <==> 10.0 <= score < 20.0
    ensures r == RankPoor <==> score < 10.0
  {
    if score >= 20.0 then RankGood else if score >= 10.0 then RankModerate else RankPoor
  }

  /** _calculate_average_complexity without the rounding. */
  function AverageComplexity(results: seq<CcResult>): (r: real)
    ensures |results| == 0 ==> r == 0.0
    ensures |results| > 0 ==> r * |results| as real == SumReal(results, ComplexityOf)
  {
    Mean(results, ComplexityOf)
  }

  /** max(r.complexity for r in results), or 0 for no results. */
  function MaxComplexityOf(results: seq<CcResult>): (m: int)
    ensures forall i :: 0 <= i < |results| ==> results[i].complexity <= m
    ensures |results| > 0 ==> exists i :: 0 <= i < |results| && results[i].complexity == m
    ensures |results| == 0 ==> m == 0
    decreases |results|
  {
    if |results| == 0 then 0
    else if |results| == 1 then results[0].complexity
    else
      var init := results[..|results| - 1];
      var m := MaxComplexityOf(init);
      var last := results[|results| - 1].complexity;
      assert forall i :: 0 <= i < |init| ==> init[i] == results[i];
      if last > m then last else m
  }

  /** The entries whose complexity exceeds the limit, in order. */
  function HighEntries(fs: seq<FuncComplexity>, limit: int): (r: seq<FuncComplexity>)
    ensures |r| <= |fs|
    ensures forall x :: x in r <==> x in fs && x.complexity > limit
    decreases |fs|
  {
    if |fs| == 0 then []
    else
      var init := fs[..|fs| - 1];
      var last := fs[|fs| - 1];
      assert forall x :: x in fs <==> x in init || x == last;
      HighEntries(init, limit) + (if last.complexity > limit then [last] else [])
  }

  /** The average lies between the smallest and the largest complexity. */
  lemma AverageWithinMax(results: seq<CcResult>, lo: int)
    requires |results| > 0
    requires forall i :: 0 <= i < |results| ==> lo <= results[i].complexity
    ensures lo as real <= AverageComplexity(results) <= MaxComplexityOf(results) as real
  {
    MeanBounds(results, ComplexityOf, lo as real, MaxComplexityOf(results) as real);
  }

  /** _empty_result. */
  function EmptyResult(filepath: string): (r: ComplexityResult)
    ensures r.filepath == filepath && r.cyclomatic.functions == [] && r.cyclomatic.highComplexityCount == 0
    ensures r.rank == RankUnknown
  {
    ComplexityResult(filepath, Cyclomatic(0.0, 0, [], 0, []), 0.0, RankUnknown)
  }

  /** One more entry is flagged exactly when it is above the limit. */
  lemma HighEntriesSnoc(fs: seq<FuncComplexity>, x: FuncComplexity, limit: int)
    ensures HighEntries(fs + [x], limit) == HighEntries(fs, limit) + (if x.complexity > limit then [x] else [])
  {
    assert (fs + [x])[..|fs|] == fs;
  }

  /** The loop of analyze_file over the radon results: one entry per
      result, and the entries above the limit in order. */
  method CollectEntries(results: seq<CcResult>, maxComplexity: int)
    returns (functionsComplexity: seq<FuncComplexity>, highComplexity: seq<FuncComplexity>)
    ensures |functionsComplexity| == |results|
    ensures forall i :: 0 <= i < |results| ==> functionsComplexity[i] == FuncDataOf(results[i])
    ensures highComplexity == HighEntries(functionsComplexity, maxComplexity)
  {
    functionsComplexity, highComplexity := [], [];
    for i := 0 to |results|
      invariant |functionsComplexity| == i
      invariant forall j :: 0 <= j < i ==> functionsComplexity[j] == FuncDataOf(results[j])
      invariant highComplexity == HighEntries(functionsComplexity, maxComplexity)
    {
      var funcData := FuncDataOf(results[i]);
      var extended := functionsComplexity + [funcData];
      var flagged := if results[i].complexity > maxComplexity then highComplexity + [funcData] else highComplexity;
      assert forall j :: 0 <= j < i + 1 ==> extended[j] == FuncDataOf(results[j]) by {
        assert forall j :: 0 <= j < i ==> extended[j] == functionsComplexity[j];
      }
      assert flagged == HighEntries(extended, maxComplexity) by {
        HighEntriesSnoc(functionsComplexity, funcData, maxComplexity);
      }
      functionsComplexity, highComplexity := extended, flagged;
    }
  }

  /** What analyze_file returns for radon's outcome: the failure result
      when radon raised; otherwise one functions entry per result in order,
      the entries above maxComplexity flagged and counted, the average and
      maximum of the results, and the maintainability score with its rank. */
  ghost predicate MeasuredFrom(filepath: string, outcome: RadonOutcome, maxComplexity: int, r: ComplexityResult) {
    && (outcome.RadonError? ==> r == EmptyResult(filepath))
    && (outcome.RadonOk? ==>
      && r.filepath == filepath
      && |r.cyclomatic.functions| == |outcome.results|
      && (forall i :: 0 <= i < |outcome.results| ==> r.cyclomatic.functions[i] == FuncDataOf(outcome.results[i]))
      && r.cyclomatic.highComplexityFunctions == HighEntries(r.cyclomatic.functions, maxComplexity)
      && r.cyclomatic.highComplexityCount == |r.cyclomatic.highComplexityFunctions|
      && r.cyclomatic.average == AverageComplexity(outcome.results)
      && r.cyclomatic.max == MaxComplexityOf(outcome.results)
      && r.miScore == outcome.miScore && r.rank == MiRankOf(outcome.miScore))
  }

  /** analyze_file with the radon outputs given. */
  method AnalyzeFile(filepath: string, outcome: RadonOutcome, maxComplexity: int) returns (r: ComplexityResult)
    ensures MeasuredFrom(filepath, outcome, maxComplexity, r)
  {
    if outcome.RadonError? {
      return EmptyResult(filepath);
    }
    var results := outcome.results;
    var functionsComplexity, highComplexity := CollectEntries(results, maxComplexity);
    r := ComplexityResult(
      filepath,
      Cyclomatic(AverageComplexity(results), MaxComplexityOf(results), functionsComplexity,
                 |highComplexity|, highComplexity),
      outcome.miScore, MiRankOf(outcome.miScore));
  }

  /** With the default configuration a function is flagged exactly when its
      complexity is above 10. */
  lemma DefaultFlagging(r: ComplexityResult, x: FuncComplexity)
    requires r.cyclomatic.highComplexityFunctions == HighEntries(r.cyclomatic.functions, MaxComplexity(DefaultConfig()))
    ensures x in r.cyclomatic.highComplexityFunctions <==> x in r.cyclomatic.functions && x.complexity > 10
  {
    DefaultLimits();
  }

  // ---------------------------------------------------------------------
  // analyze_repository
  // ---------------------------------------------------------------------

  /** A parsed file as analyze_repository sees it: its path and its
      complexity entry, None when that entry is missing or empty. */
  datatype FileComplexity = FileComplexity(filepath: string, complexity: Option<ComplexityResult>)

  datatype HighFile = HighFile(file: string, count: nat, functions: seq<FuncComplexity>)

  datatype RepositoryComplexity = RepositoryComplexity(
    averageComplexity: real, averageMaintainability: real,
    totalHighComplexityFiles: nat, highComplexityFiles: seq<HighFile>)

  /** The positive per-file averages, in file order. */
  function PositiveAverages(fs: seq<FileComplexity>): (r: seq<real>)
    ensures forall i :: 0 <= i < |r| ==> r[i] > 0.0
    decreases |fs|
  {
    if |fs| == 0 then []
    else
      var f := fs[|fs| - 1];
      PositiveAverages(fs[..|fs| - 1])
      + (if f.complexity.Some? && f.complexity.value.cyclomatic.average > 0.0 then [f.complexity.value.cyclomatic.average] else [])
  }

  /** The positive maintainability scores, in file order. */
  function PositiveScores(fs: seq<FileComplexity>): (r: seq<real>)
    ensures forall i :: 0 <= i < |r| ==> r[i] > 0.0
    decreases |fs|
  {
    if |fs| == 0 then []
    else
      var f := fs[|fs| - 1];
      PositiveScores(fs[..|fs| - 1])
      + (if f.complexity.Some? && f.complexity.value.miScore > 0.0 then [f.complexity.value.miScore] else [])
  }

  /** The files with at least one high-complexity function, in file order. */
  function HighFiles(fs: seq<FileComplexity>): (r: seq<HighFile>)
    ensures forall i :: 0 <= i < |r| ==> r[i].count > 0
    decreases |fs|
  {
    if |fs| == 0 then []
    else
      var f := fs[|fs| - 1];
      HighFiles(fs[..|fs| - 1])
      + (if f.complexity.Some? && f.complexity.value.cyclomatic.highComplexityCount > 0
         then [HighFile(f.filepath, f.complexity.value.cyclomatic.highComplexityCount,
                        f.complexity.value.cyclomatic.highComplexityFunctions)]
         else [])
  }

  function Id(x: real): real { x }

  /** The mean of a list of reals, 0 for none. */
  function MeanOf(xs: seq<real>): (r: real)
    ensures |xs| == 0 ==> r == 0.0
  {
    Mean(xs, Id)
  }

  /** A file is reported as high-complexity exactly when it has a
      complexity entry with a positive high_complexity_count. */
  lemma {:induction false} HighFilesIff(fs: seq<FileComplexity>, path: string)
    ensures (exists h :: h in HighFiles(fs) && h.file == path) <==>
      exists i :: 0 <= i < |fs| && fs[i].filepath == path && fs[i].complexity.Some?
                  && fs[i].complexity.value.cyclomatic.highComplexityCount > 0
    decreases |fs|
  {
    if |fs| > 0 {
      var init := fs[..|fs| - 1];
      HighFilesIff(init, path);
      assert forall i :: 0 <= i < |init| ==> init[i] == fs[i];
      var f := fs[|fs| - 1];
      if f.filepath == path && f.complexity.Some? && f.complexity.value.cyclomatic.highComplexityCount > 0 {
        assert HighFiles(fs)[|HighFiles(fs)| - 1].file == path;
      }
    }
  }

  /** The mean of positive values is positive, and 0 only when there are
      none: averages skip every file whose value is 0 or missing. */
  lemma MeanOfPositive(xs: seq<real>)
    requires forall i :: 0 <= i < |xs| ==> xs[i] > 0.0
    ensures MeanOf(xs) > 0.0 <==> |xs| > 0
  {
    if |xs| > 0 {
      PositiveSum(xs);
    }
  }

  lemma {:induction false} PositiveSum(xs: seq<real>)
    requires |xs| > 0 && forall i :: 0 <= i < |xs| ==> xs[i] > 0.0
    ensures SumReal(xs, Id) > 0.0
    decreases |xs|
  {
    if |xs| > 1 {
      PositiveSum(xs[..|xs| - 1]);
    }
  }

  /** analyze_repository: one pass collecting the positive averages, the
      positive maintainability scores and the high-complexity files. */
  method AnalyzeRepository(fs: seq<FileComplexity>) returns (r: RepositoryComplexity)
    ensures r.averageComplexity == MeanOf(PositiveAverages(fs))
    ensures r.averageMaintainability == MeanOf(PositiveScores(fs))
    ensures r.highComplexityFiles == HighFiles(fs)
    ensures r.totalHighComplexityFiles == |r.highComplexityFiles|
  {
    var totalComplexity: seq<real> := [];
    var totalMi: seq<real> := [];
    var highComplexityFiles: seq<HighFile> := [];
    for i := 0 to |fs|
      invariant totalComplexity == PositiveAverages(fs[..i])
      invariant totalMi == PositiveScores(fs[..i])
      invariant highComplexityFiles == HighFiles(fs[..i])
    {
      assert fs[..i + 1][..i] == fs[..i];
      var complexity := fs[i].complexity;
      if complexity.Some? {
        var cc := complexity.value.cyclomatic;
        if cc.average > 0.0 {
          totalComplexity := totalComplexity + [cc.average];
        }
        if complexity.value.miScore > 0.0 {
          totalMi := totalMi + [complexity.value.miScore];
        }
        if cc.highComplexityCount > 0 {
          highComplexityFiles := highComplexityFiles + [HighFile(fs[i].filepath, cc.highComplexityCount, cc.highComplexityFunctions)];
        }
      }
    }
    assert fs[..|fs|] == fs;
    r := RepositoryComplexity(MeanOf(totalComplexity), MeanOf(totalMi), |highComplexityFiles|, highComplexityFiles);
  }
}
