/** CodeSmellDetector: threshold rules over the records of one parsed file
    (long functions and classes, missing docstrings, too many parameters,
    global variables), a file-local dead-code check, a magic-number scan of
    the text, and the repository-wide grouping of functions by name and
    parameter count. */
module CodeSmellDetector {
  import opened Seqs
  import opened Text
  import opened Helpers
  import opened AstParser
  import opened Ranking

  /** The limits the detector reads from the 'quality' configuration. */
  datatype SmellLimits = SmellLimits(maxFunctionLength: int, maxClassLength: int)

  function LimitsFrom(c: Config): (l: SmellLimits)
    ensures c == DefaultConfig() ==> l == SmellLimits(50, 300)
  {
    SmellLimits(MaxFunctionLength(c), MaxClassLength(c))
  }

  datatype Severity = High | Medium

  function SeverityText(s: Severity): string {
    match s
    case High => "high"
    case Medium => "medium"
  }

  /** 'high' beyond twice the limit, 'medium' otherwise. */
  function SeverityOf(numLines: int, limit: int): Severity {
    if numLines > limit * 2 then High else Medium
  }

  // ---------------------------------------------------------------------
  // Long functions and classes
  // ---------------------------------------------------------------------

  datatype LongFunction = LongFunction(name: string, lines: int, lineStart: nat, severity: Severity)

  datatype LongClass = LongClass(name: string, lines: int, methods: nat, lineStart: nat, severity: Severity)

  function LongFunctionEntry(f: FunctionInfo, limit: int): LongFunction {
    LongFunction(f.name, f.numLines, f.lineStart, SeverityOf(f.numLines, limit))
  }

  function LongClassEntry(c: ClassInfo, limit: int): LongClass {
    LongClass(c.name, c.numLines, c.numMethods, c.lineStart, SeverityOf(c.numLines, limit))
  }

  /** The functions longer than the limit, in order. */
  function LongFunctions(fs: seq<FunctionInfo>, limit: int): (r: seq<LongFunction>)
    ensures |r| <= |fs|
    ensures forall e :: e in r <==> exists i :: 0 <= i < |fs| && fs[i].numLines > limit && e == LongFunctionEntry(fs[i], limit)
    decreases |fs|
  {
    if |fs| == 0 then []
    else
      var init := fs[..|fs| - 1];
      assert forall i :: 0 <= i < |init| ==> init[i] == fs[i];
      var f := fs[|fs| - 1];
      LongFunctions(init, limit) + (if f.numLines > limit then [LongFunctionEntry(f, limit)] else [])
  }

  /** The classes longer than the limit, in order. */
  function LongClasses(cs: seq<ClassInfo>, limit: int): (r: seq<LongClass>)
    ensures |r| <= |cs|
    ensures forall e :: e in r <==> exists i :: 0 <= i < |cs| && cs[i].numLines > limit && e == LongClassEntry(cs[i], limit)
    decreases |cs|
  {
    if |cs| == 0 then []
    else
      var init := cs[..|cs| - 1];
      assert forall i :: 0 <= i < |init| ==> init[i] == cs[i];
      var c := cs[|cs| - 1];
      LongClasses(init, limit) + (if c.numLines > limit then [LongClassEntry(c, limit)] else [])
  }

  /** A reported function's severity is high exactly when it is more than
      twice the limit long. */
  lemma LongFunctionSeverity(fs: seq<FunctionInfo>, limit: int, e: LongFunction)
    requires e in LongFunctions(fs, limit)
    ensures e.lines > limit
    ensures e.severity == High <==> e.lines > 2 * limit
  {
  }

  /** _detect_long_functions. */
  method DetectLongFunctions(fs: seq<FunctionInfo>, limits: SmellLimits) returns (r: seq<LongFunction>)
    ensures r == LongFunctions(fs, limits.maxFunctionLength)
  {
    r := [];
    for i := 0 to |fs|
      invariant r == LongFunctions(fs[..i], limits.maxFunctionLength)
    {
      assert fs[..i + 1][..i] == fs[..i];
      var numLines := fs[i].numLines;
      if numLines > limits.maxFunctionLength {
        r := r + [LongFunction(fs[i].name, numLines, fs[i].lineStart,
                               if numLines > limits.maxFunctionLength * 2 then High else Medium)];
      }
    }
    assert fs[..|fs|] == fs;
  }

  /** _detect_long_classes. */
  method DetectLongClasses(cs: seq<ClassInfo>, limits: SmellLimits) returns (r: seq<LongClass>)
    ensures r == LongClasses(cs, limits.maxClassLength)
  {
    r := [];
    for i := 0 to |cs|
      invariant r == LongClasses(cs[..i], limits.maxClassLength)
    {
      assert cs[..i + 1][..i] == cs[..i];
      var numLines := cs[i].numLines;
      if numLines > limits.maxClassLength {
        r := r + [LongClass(cs[i].name, numLines, cs[i].numMethods, cs[i].lineStart,
                            if numLines > limits.maxClassLength * 2 then High else Medium)];
      }
    }
    assert cs[..|cs|] == cs;
  }

  // ---------------------------------------------------------------------
  // Missing docstrings
  // ---------------------------------------------------------------------

  datatype ItemKind = FunctionItem | ClassItem

  datatype MissingDoc = MissingDoc(kind: ItemKind, name: string, line: nat)

  function MissingFunctionDocs(fs: seq<FunctionInfo>): (r: seq<MissingDoc>)
    ensures |r| <= |fs|
    ensures forall e :: e in r <==> exists i :: 0 <= i < |fs| && !Truthy(fs[i].docstring)
                                         && e == MissingDoc(FunctionItem, fs[i].name, fs[i].lineStart)
    decreases |fs|
  {
    if |fs| == 0 then []
    else
      var init := fs[..|fs| - 1];
      assert forall i :: 0 <= i < |init| ==> init[i] == fs[i];
      var f := fs[|fs| - 1];
      MissingFunctionDocs(init) + (if !Truthy(f.docstring) then [MissingDoc(FunctionItem, f.name, f.lineStart)] else [])
  }

  function MissingClassDocs(cs: seq<ClassInfo>): (r: seq<MissingDoc>)
    ensures |r| <= |cs|
    ensures forall e :: e in r <==> exists i :: 0 <= i < |cs| && !Truthy(cs[i].docstring)
                                         && e == MissingDoc(ClassItem, cs[i].name, cs[i].lineStart)
    decreases |cs|
  {
    if |cs| == 0 then []
    else
      var init := cs[..|cs| - 1];
      assert forall i :: 0 <= i < |init| ==> init[i] == cs[i];
      var c := cs[|cs| - 1];
      MissingClassDocs(init) + (if !Truthy(c.docstring) then [MissingDoc(ClassItem, c.name, c.lineStart)] else [])
  }

  /** _detect_missing_docstrings: the functions without a docstring, then
      the classes without one. */
  method DetectMissingDocstrings(parsed: ParseResult) returns (r: seq<MissingDoc>)
    ensures r == MissingFunctionDocs(parsed.functions) + MissingClassDocs(parsed.classes)
  {
    r := [];
    var fs := parsed.functions;
    for i := 0 to |fs|
      invariant r == MissingFunctionDocs(fs[..i])
    {
      assert fs[..i + 1][..i] == fs[..i];
      if !Truthy(fs[i].docstring) {
        r := r + [MissingDoc(FunctionItem, fs[i].name, fs[i].lineStart)];
      }
    }
    assert fs[..|fs|] == fs;
    var cs := parsed.classes;
    for j := 0 to |cs|
      invariant r == MissingFunctionDocs(fs) + MissingClassDocs(cs[..j])
    {
      assert cs[..j + 1][..j] == cs[..j];
      if !Truthy(cs[j].docstring) {
        r := r + [MissingDoc(ClassItem, cs[j].name, cs[j].lineStart)];
      }
    }
    assert cs[..|cs|] == cs;
  }

  // ---------------------------------------------------------------------
  // Too many parameters
  // ---------------------------------------------------------------------

  /** The parameters other than 'self' and 'cls', in order. */
  function RealParams(ps: seq<string>): (r: seq<string>)
    ensures |r| <= |ps|
    ensures forall x :: x in r <==> x in ps && x != "self" && x != "cls"
    decreases |ps|
  {
    if |ps| == 0 then []
    else
      var init := ps[..|ps| - 1];
      var p := ps[|ps| - 1];
      assert forall x :: x in ps <==> x in init || x == p;
      RealParams(init) + (if p != "self" && p != "cls" then [p] else [])
  }

  datatype ManyParams = ManyParams(name: string, parameterCount: nat, parameters: seq<string>, line: nat)

  function ManyParamsEntry(f: FunctionInfo): ManyParams {
    var realParams := RealParams(f.parameters);
    ManyParams(f.name, |realParams|, realParams, f.lineStart)
  }

  function ManyParameters(fs: seq<FunctionInfo>, maxParams: int): (r: seq<ManyParams>)
    ensures |r| <= |fs|
    ensures forall e :: e in r <==> exists i :: 0 <= i < |fs| && |RealParams(fs[i].parameters)| > maxParams
                                         && e == ManyParamsEntry(fs[i])
    decreases |fs|
  {
    if |fs| == 0 then []
    else
      var init := fs[..|fs| - 1];
      assert forall i :: 0 <= i < |init| ==> init[i] == fs[i];
      var f := fs[|fs| - 1];
      ManyParameters(init, maxParams) + (if |RealParams(f.parameters)| > maxParams then [ManyParamsEntry(f)] else [])
  }

  /** _detect_many_parameters with its default max_params = 5. */
  method DetectManyParameters(fs: seq<FunctionInfo>, maxParams: int := 5) returns (r: seq<ManyParams>)
    ensures r == ManyParameters(fs, maxParams)
  {
    r := [];
    for i := 0 to |fs|
      invariant r == ManyParameters(fs[..i], maxParams)
    {
      assert fs[..i + 1][..i] == fs[..i];
      var realParams := RealParams(fs[i].parameters);
      if |realParams| > maxParams {
        r := r + [ManyParams(fs[i].name, |realParams|, realParams, fs[i].lineStart)];
      }
    }
    assert fs[..|fs|] == fs;
  }

  /** Exactly five real parameters is not flagged, six is, however many
      'self' and 'cls' entries there are. */
  lemma FiveParamsNotFlagged(f: FunctionInfo)
    requires |RealParams(f.parameters)| == 5
    ensures ManyParameters([f], 5) == []
    ensures ManyParameters([f.(parameters := f.parameters + ["x"])], 5) == [ManyParamsEntry(f.(parameters := f.parameters + ["x"]))]
  {
    var g := f.(parameters := f.parameters + ["x"]);
    assert g.parameters[..|g.parameters| - 1] == f.parameters;
    assert [g][..0] == [];
    assert [f][..0] == [];
  }

  // ---------------------------------------------------------------------
  // Dead code
  // ---------------------------------------------------------------------

  /** The name a call is looked up by: the text after its last '.'. */
  function CallName(call: string): (r: string)
    ensures '.' !in r && EndsWith(call, r)
    ensures '.' !in call ==> r == call
  {
    LastPiece(call, '.')
  }

  /** The names of the file's function records. */
  function FunctionNames(fs: seq<FunctionInfo>): (r: set<string>)
    ensures forall n :: n in r <==> exists i :: 0 <= i < |fs| && fs[i].name == n
  {
    set i | 0 <= i < |fs| :: fs[i].name
  }

  /** The names a sequence of calls reduces to. */
  function CallNamesOf(calls: seq<string>): set<string>
    decreases |calls|
  {
    if |calls| == 0 then {}
    else
      CallNamesOf(calls[..|calls| - 1]) + {CallName(calls[|calls| - 1])}
  }

  /** The names the calls of the file's records reduce to. */
  function CalledNames(fs: seq<FunctionInfo>): set<string>
    decreases |fs|
  {
    if |fs| == 0 then {}
    else
      CalledNames(fs[..|fs| - 1]) + CallNamesOf(fs[|fs| - 1].calls)
  }

  lemma {:induction false} CallNamesOfHas(calls: seq<string>, c: string)
    requires c in calls
    ensures CallName(c) in CallNamesOf(calls)
    decreases |calls|
  {
    var init := calls[..|calls| - 1];
    if c != calls[|calls| - 1] {
      assert c in init;
      CallNamesOfHas(init, c);
    }
  }

  /** Every call of every record contributes its name. */
  lemma {:induction false} CalledNamesHas(fs: seq<FunctionInfo>, i: nat, c: string)
    requires i < |fs| && c in fs[i].calls
    ensures CallName(c) in CalledNames(fs)
    decreases |fs|
  {
    if i == |fs| - 1 {
      CallNamesOfHas(fs[i].calls, c);
    } else {
      var init := fs[..|fs| - 1];
      assert init[i] == fs[i];
      CalledNamesHas(init, i, c);
    }
  }

  predicate ExemptName(name: string) {
    StartsWith(name, "__") || name in ["main", "run", "execute"]
  }

  /** A name among the given function names that none of the given call
      names matches and that is not exempt. */
  predicate DeadAmong(functions: set<string>, calls: set<string>, name: string) {
    name in functions && name !in calls && !ExemptName(name)
  }

  /** The dead-code rule: a function name of the file that no call of the
      file reduces to and that is not exempt. */
  predicate IsDead(fs: seq<FunctionInfo>, name: string) {
    DeadAmong(FunctionNames(fs), CalledNames(fs), name)
  }

  /** The first record with the given name. */
  function FirstNamed(fs: seq<FunctionInfo>, name: string): (k: nat)
    requires exists i :: 0 <= i < |fs| && fs[i].name == name
    ensures k < |fs| && fs[k].name == name
    ensures forall j :: 0 <= j < k ==> fs[j].name != name
    decreases |fs|
  {
    if fs[0].name == name then 0
    else
      assert exists i :: 0 <= i < |fs[1..]| && fs[1..][i].name == name by {
        var i :| 0 <= i < |fs| && fs[i].name == name;
        assert fs[1..][i - 1] == fs[i];
      }
      1 + FirstNamed(fs[1..], name)
  }

  /** The all_calls loop of _detect_dead_code. */
  method CollectCallNames(fs: seq<FunctionInfo>) returns (allCalls: set<string>)
    ensures allCalls == CalledNames(fs)
  {
    allCalls := {};
    for i := 0 to |fs|
      invariant allCalls == CalledNames(fs[..i])
    {
      assert fs[..i + 1][..i] == fs[..i];
      var calls := fs[i].calls;
      for j := 0 to |calls|
        invariant allCalls == CalledNames(fs[..i]) + CallNamesOf(calls[..j])
      {
        assert calls[..j + 1][..j] == calls[..j];
        var callName := if '.' in calls[j] then LastPiece(calls[j], '.') else calls[j];
        allCalls := allCalls + {callName};
      }
      assert calls[..|calls|] == calls;
    }
    assert fs[..|fs|] == fs;
  }

  const DeadCodeNote: string := "Potentially unused (not called within file)"

  datatype DeadCode = DeadCode(name: string, line: nat, note: string)

  /** An entry that carries the line of the first record with its name
      and the fixed note. */
  predicate FirstLineEntry(fs: seq<FunctionInfo>, d: DeadCode) {
    (exists i :: 0 <= i < |fs| && fs[i].name == d.name)
    && d.line == fs[FirstNamed(fs, d.name)].lineStart && d.note == DeadCodeNote
  }

  /** The names of a dead-code list. */
  function DeadNames(dead: seq<DeadCode>): set<string>
    decreases |dead|
  {
    if |dead| == 0 then {} else DeadNames(dead[..|dead| - 1]) + {dead[|dead| - 1].name}
  }

  lemma {:induction false} DeadNamesIff(dead: seq<DeadCode>, n: string)
    ensures n in DeadNames(dead) <==> exists k :: 0 <= k < |dead| && dead[k].name == n
    decreases |dead|
  {
    if |dead| > 0 {
      var init := dead[..|dead| - 1];
      DeadNamesIff(init, n);
      assert forall k :: 0 <= k < |init| ==> init[k] == dead[k];
    }
  }

  lemma DeadEntriesAppend(fs: seq<FunctionInfo>, dead: seq<DeadCode>, e: DeadCode)
    requires forall k :: 0 <= k < |dead| ==> FirstLineEntry(fs, dead[k])
    requires forall k :: 0 <= k < |dead| ==> dead[k].name != e.name
    requires forall k, l :: 0 <= k < l < |dead| ==> dead[k].name != dead[l].name
    requires FirstLineEntry(fs, e)
    ensures forall k :: 0 <= k < |dead + [e]| ==> FirstLineEntry(fs, (dead + [e])[k])
    ensures forall k, l :: 0 <= k < l < |dead + [e]| ==> (dead + [e])[k].name != (dead + [e])[l].name
    ensures DeadNames(dead + [e]) == DeadNames(dead) + {e.name}
  {
    assert (dead + [e])[..|dead|] == dead;
  }

  /** What the dead-code loop keeps: the names reported so far are the
      dead names already taken out of the remaining set, each once, each
      with the line of its first record. */
  ghost predicate DeadLoopInv(fs: seq<FunctionInfo>, functions: set<string>, calls: set<string>,
                              remaining: set<string>, dead: seq<DeadCode>) {
    remaining <= functions
    && (forall n :: n in DeadNames(dead) <==> n in functions - remaining && DeadAmong(functions, calls, n))
    && (forall k :: 0 <= k < |dead| ==> FirstLineEntry(fs, dead[k]))
    && (forall k :: 0 <= k < |dead| ==> dead[k].name !in remaining)
    && (forall k, l :: 0 <= k < l < |dead| ==> dead[k].name != dead[l].name)
  }

  /** One turn of the dead-code loop keeps its invariant. */
  lemma DeadLoopStep(fs: seq<FunctionInfo>, calls: set<string>, remaining: set<string>,
                     dead: seq<DeadCode>, name: string)
    requires DeadLoopInv(fs, FunctionNames(fs), calls, remaining, dead) && name in remaining
    ensures DeadAmong(FunctionNames(fs), calls, name) ==>
      DeadLoopInv(fs, FunctionNames(fs), calls, remaining - {name},
                  dead + [DeadCode(name, fs[FirstNamed(fs, name)].lineStart, DeadCodeNote)])
    ensures !DeadAmong(FunctionNames(fs), calls, name) ==>
      DeadLoopInv(fs, FunctionNames(fs), calls, remaining - {name}, dead)
  {
    assert forall k :: 0 <= k < |dead| ==> dead[k].name != name;
    if DeadAmong(FunctionNames(fs), calls, name) {
      var entry := DeadCode(name, fs[FirstNamed(fs, name)].lineStart, DeadCodeNote);
      DeadEntriesAppend(fs, dead, entry);
    }
  }

  /** _detect_dead_code. The source iterates over a set of names, so the
      order of the entries is unspecified; the contract says which entries
      there are and that no name is reported twice. */
  method DetectDeadCode(fs: seq<FunctionInfo>) returns (dead: seq<DeadCode>)
    ensures forall n :: n in DeadNames(dead) <==> IsDead(fs, n)
    ensures forall k :: 0 <= k < |dead| ==> IsDead(fs, dead[k].name) && FirstLineEntry(fs, dead[k])
    ensures forall k, l :: 0 <= k < l < |dead| ==> dead[k].name != dead[l].name
  {
    var allFunctions := FunctionNames(fs);
    var allCalls := CollectCallNames(fs);
    dead := [];
    var remaining := allFunctions;
    while remaining != {}
      invariant DeadLoopInv(fs, allFunctions, allCalls, remaining, dead)
      decreases |remaining|
    {
      var funcName :| funcName in remaining;
      DeadLoopStep(fs, allCalls, remaining, dead, funcName);
      remaining := remaining - {funcName};
      if funcName !in allCalls && !ExemptName(funcName) {
        var first := FirstNamed(fs, funcName);
        dead := dead + [DeadCode(funcName, fs[first].lineStart, DeadCodeNote)];
      }
    }
    forall k | 0 <= k < |dead|
      ensures IsDead(fs, dead[k].name)
    {
      DeadNamesIff(dead, dead[k].name);
    }
  }

  /** A function whose name some call of the file ends in is never
      reported, however the call is qualified. */
  lemma CalledNotDead(fs: seq<FunctionInfo>, i: nat, prefix: string)
    requires i < |fs| && prefix + "." + fs[i].name in fs[i].calls && '.' !in fs[i].name
    ensures !IsDead(fs, fs[i].name)
  {
    var call := prefix + "." + fs[i].name;
    LastPieceAfter(prefix, fs[i].name, '.');
    CalledNamesHas(fs, i, call);
  }

  // ---------------------------------------------------------------------
  // Magic numbers
  // ---------------------------------------------------------------------

  /** A character the pattern's look-arounds reject next to a number: a
      word character or a '.'. */
  predicate IsWordOrDot(c: char) { IsWordChar(c) || c == '.' }

  /** A match of the pattern \b(?<![\w.])\d{2,}\b(?![\w.]) at [i, j): two
      or more digits with neither a word character nor a '.' on either side. */
  ghost predicate IsMagicRun(line: string, i: int, j: int) {
    0 <= i && i + 2 <= j <= |line|
    && (forall k :: i <= k < j ==> IsAsciiDigit(line[k]))
    && (i == 0 || !IsWordOrDot(line[i - 1]))
    && (j == |line| || !IsWordOrDot(line[j]))
  }

  /** The end of the run of digits starting at p. */
  function DigitRunEnd(line: string, p: nat): (e: nat)
    requires p <= |line|
    ensures p <= e <= |line|
    ensures forall k :: p <= k < e ==> IsAsciiDigit(line[k])
    ensures e < |line| ==> !IsAsciiDigit(line[e])
    decreases |line| - p
  {
    if p < |line| && IsAsciiDigit(line[p]) then DigitRunEnd(line, p + 1) else p
  }

  lemma {:induction false} DigitRunEndAt(line: string, p: nat, j: nat)
    requires p <= j <= |line|
    requires forall k :: p <= k < j ==> IsAsciiDigit(line[k])
    requires j == |line| || !IsAsciiDigit(line[j])
    ensures DigitRunEnd(line, p) == j
    decreases j - p
  {
    if p < j {
      DigitRunEndAt(line, p + 1, j);
    }
  }

  /** Whether a match starts at p: p is a digit after a boundary, and its
      maximal digit run is long enough and followed by a boundary. */
  predicate MatchAt(line: string, p: nat)
    requires p < |line|
  {
    IsAsciiDigit(line[p]) && (p == 0 || !IsWordOrDot(line[p - 1]))
    && var e := DigitRunEnd(line, p);
       e >= p + 2 && (e == |line| || !IsWordOrDot(line[e]))
  }

  /** re.finditer from position p: the matches as (start, end) pairs,
      scanning left to right and resuming after each match. */
  function MatchesFrom(line: string, p: nat): (r: seq<(nat, nat)>)
    requires p <= |line|
    ensures forall k :: 0 <= k < |r| ==> p <= r[k].0 && IsMagicRun(line, r[k].0, r[k].1)
    decreases |line| - p
  {
    if p == |line| then []
    else if MatchAt(line, p) then
      var e := DigitRunEnd(line, p);
      [(p, e)] + MatchesFrom(line, e)
    else MatchesFrom(line, p + 1)
  }

  /** Every run the pattern describes at or after p is found. */
  lemma {:induction false} MatchesFromComplete(line: string, p: nat, i: nat, j: nat)
    requires p <= i && p <= |line| && IsMagicRun(line, i, j)
    ensures (i, j) in MatchesFrom(line, p)
    decreases |line| - p
  {
    DigitRunEndAt(line, i, j);
    if p == i {
      assert MatchAt(line, p);
    } else if MatchAt(line, p) {
      MatchesFromComplete(line, DigitRunEnd(line, p), i, j);
    } else {
      MatchesFromComplete(line, p + 1, i, j);
    }
  }

  /** The matches of a line are exactly the runs the pattern describes. */
  lemma MatchesIff(line: string, i: nat, j: nat)
    ensures (i, j) in MatchesFrom(line, 0) <==> IsMagicRun(line, i, j)
  {
    if IsMagicRun(line, i, j) {
      MatchesFromComplete(line, 0, i, j);
    }
    if (i, j) in MatchesFrom(line, 0) {
      var r := MatchesFrom(line, 0);
      var k :| 0 <= k < |r| && r[k] == (i, j);
    }
  }

  const AcceptableNumbers: seq<string> := ["0", "1", "10", "100"]

  datatype MagicNumber = MagicNumber(number: string, line: nat, context: string)

  /** A line the scan skips: a '#' comment or one holding a triple quote. */
  predicate SkipLine(line: string) {
    StartsWith(Strip(line), "#") || Contains(line, "\"\"\"") || Contains(line, "'''")
  }

  function Context(line: string): string { PrefixSlice(Strip(line), 50) }

  /** The record for the number at [i, j) of a line. */
  function RecordAt(line: string, lineNum: nat, i: nat, j: nat): MagicNumber
    requires i <= j <= |line|
  {
    MagicNumber(line[i..j], lineNum, Context(line))
  }

  ghost predicate WithinLine(line: string, ms: seq<(nat, nat)>) {
    forall k :: 0 <= k < |ms| ==> ms[k].0 <= ms[k].1 <= |line|
  }

  /** The records of the given matches of one line, skipping the
      acceptable numbers. */
  function MatchRecords(line: string, lineNum: nat, ms: seq<(nat, nat)>): (r: seq<MagicNumber>)
    requires WithinLine(line, ms)
    ensures forall m :: m in r <==> exists k :: 0 <= k < |ms| && line[ms[k].0..ms[k].1] !in AcceptableNumbers
                                          && m == RecordAt(line, lineNum, ms[k].0, ms[k].1)
    decreases |ms|
  {
    if |ms| == 0 then []
    else
      var init := ms[..|ms| - 1];
      assert forall k :: 0 <= k < |init| ==> init[k] == ms[k];
      var (i, j) := ms[|ms| - 1];
      MatchRecords(line, lineNum, init)
      + (if line[i..j] !in AcceptableNumbers then [RecordAt(line, lineNum, i, j)] else [])
  }

  /** The records of one line that is not skipped. */
  function LineRecords(line: string, lineNum: nat): seq<MagicNumber> {
    MatchRecords(line, lineNum, MatchesFrom(line, 0))
  }

  /** The magic numbers of every line that is not skipped, lines numbered
      from 1. */
  function MagicIn(lines: seq<string>): seq<MagicNumber>
    decreases |lines|
  {
    if |lines| == 0 then []
    else
      var line := lines[|lines| - 1];
      MagicIn(lines[..|lines| - 1]) + (if SkipLine(line) then [] else LineRecords(line, |lines|))
  }

  /** The condition under which a number is reported for a line. */
  ghost predicate LineMagic(line: string, lineNum: nat, i: int, j: int, m: MagicNumber) {
    !SkipLine(line) && IsMagicRun(line, i, j) && line[i..j] !in AcceptableNumbers
    && m == RecordAt(line, lineNum, i, j)
  }

  /** Each record of a line comes from a pattern match that is not an
      acceptable number. */
  lemma LineRecordsSound(line: string, lineNum: nat, m: MagicNumber) returns (i: nat, j: nat)
    requires !SkipLine(line) && m in LineRecords(line, lineNum)
    ensures LineMagic(line, lineNum, i, j, m)
  {
    var ms := MatchesFrom(line, 0);
    var t :| 0 <= t < |ms| && line[ms[t].0..ms[t].1] !in AcceptableNumbers
             && m == RecordAt(line, lineNum, ms[t].0, ms[t].1);
    i, j := ms[t].0, ms[t].1;
  }

  /** Each pattern match of a line that is not an acceptable number is
      recorded. */
  lemma LineRecordsComplete(line: string, lineNum: nat, i: nat, j: nat, m: MagicNumber)
    requires LineMagic(line, lineNum, i, j, m)
    ensures m in LineRecords(line, lineNum)
  {
    var ms := MatchesFrom(line, 0);
    MatchesIff(line, i, j);
    var t :| 0 <= t < |ms| && ms[t] == (i, j);
  }

  /** Line k (0-based) of the text reports m for the number at [i, j). */
  ghost predicate MagicAt(lines: seq<string>, k: int, i: int, j: int, m: MagicNumber) {
    0 <= k < |lines| && LineMagic(lines[k], k + 1, i, j, m)
  }

  /** Every record of the scan is a pattern match on a line that is not
      skipped, is not an acceptable number, and carries the 1-based index
      of its line. */
  lemma {:induction false} MagicInSound(lines: seq<string>, m: MagicNumber) returns (k: nat, i: nat, j: nat)
    requires m in MagicIn(lines)
    ensures MagicAt(lines, k, i, j, m)
    decreases |lines|
  {
    var n := |lines| - 1;
    var init := lines[..n];
    var line := lines[n];
    assert MagicIn(lines) == MagicIn(init) + (if SkipLine(line) then [] else LineRecords(line, n + 1));
    if m in MagicIn(init) {
      k, i, j := MagicInSound(init, m);
      assert init[k] == lines[k];
    } else {
      k := n;
      i, j := LineRecordsSound(line, n + 1, m);
    }
  }

  /** Every such pattern match is recorded. */
  lemma {:induction false} MagicInComplete(lines: seq<string>, k: nat, i: nat, j: nat, m: MagicNumber)
    requires MagicAt(lines, k, i, j, m)
    ensures m in MagicIn(lines)
    decreases |lines|
  {
    var n := |lines| - 1;
    var init := lines[..n];
    var line := lines[n];
    assert MagicIn(lines) == MagicIn(init) + (if SkipLine(line) then [] else LineRecords(line, n + 1));
    if k < n {
      assert init[k] == lines[k];
      MagicInComplete(init, k, i, j, m);
    } else {
      assert k == n && LineMagic(lines[k], k + 1, i, j, m);
      LineRecordsComplete(line, n + 1, i, j, m);
    }
  }

  /** The records of one line, as the inner loop collects them. */
  method CollectLineRecords(line: string, lineNum: nat) returns (recs: seq<MagicNumber>)
    ensures recs == LineRecords(line, lineNum)
  {
    recs := [];
    var matches := MatchesFrom(line, 0);
    for t := 0 to |matches|
      invariant recs == MatchRecords(line, lineNum, matches[..t])
    {
      assert matches[..t + 1][..t] == matches[..t];
      var number := line[matches[t].0..matches[t].1];
      if number !in AcceptableNumbers {
        recs := recs + [MagicNumber(number, lineNum, PrefixSlice(Strip(line), 50))];
      }
    }
    assert matches[..|matches|] == matches;
  }

  /** Scanning one more line appends that line's records. */
  lemma MagicInStep(lines: seq<string>, n: nat)
    requires n < |lines|
    ensures MagicIn(lines[..n + 1]) == MagicIn(lines[..n]) + (if SkipLine(lines[n]) then [] else LineRecords(lines[n], n + 1))
  {
    assert lines[..n + 1][..n] == lines[..n];
  }

  /** _detect_magic_numbers: scan the '\n'-separated lines and keep the
      first 10 records. */
  method DetectMagicNumbers(content: string) returns (r: seq<MagicNumber>)
    ensures r == Take(MagicIn(Split(content, '\n')), 10)
  {
    var magicNumbers: seq<MagicNumber> := [];
    var lines := Split(content, '\n');
    for n := 0 to |lines|
      invariant magicNumbers == MagicIn(lines[..n])
    {
      MagicInStep(lines, n);
      if SkipLine(lines[n]) {
        continue;
      }
      var recs := CollectLineRecords(lines[n], n + 1);
      magicNumbers := magicNumbers + recs;
    }
    assert lines[..|lines|] == lines;
    r := Take(magicNumbers, 10);
  }

  // ---------------------------------------------------------------------
  // Global variables
  // ---------------------------------------------------------------------

  /** _detect_global_vars: the variables that are not all upper case and
      not named __name__ or __main__, in order. */
  function GlobalSmells(vs: seq<VariableInfo>): (r: seq<VariableInfo>)
    ensures |r| <= |vs|
    ensures forall v :: v in r <==> v in vs && !IsUpper(v.name) && v.name !in ["__name__", "__main__"]
    decreases |vs|
  {
    if |vs| == 0 then []
    else
      var init := vs[..|vs| - 1];
      var v := vs[|vs| - 1];
      assert forall x :: x in vs <==> x in init || x == v;
      GlobalSmells(init) + (if !IsUpper(v.name) && v.name !in ["__name__", "__main__"] then [v] else [])
  }

  // ---------------------------------------------------------------------
  // detect_smells
  // ---------------------------------------------------------------------

  datatype Smells = Smells(
    longFunctions: seq<LongFunction>,
    longClasses: seq<LongClass>,
    missingDocstrings: seq<MissingDoc>,
    tooManyParameters: seq<ManyParams>,
    deadCode: seq<DeadCode>,
    magicNumbers: seq<MagicNumber>,
    globalVariables: seq<VariableInfo>)

  function SmellCount(s: Smells): nat {
    |s.longFunctions| + |s.longClasses| + |s.missingDocstrings| + |s.tooManyParameters|
    + |s.deadCode| + |s.magicNumbers| + |s.globalVariables|
  }

  datatype SmellReport = SmellReport(filepath: string, smells: Smells, totalSmellCount: nat)

  /** What detect_smells reports for one file: every rule's findings under
      the given limits, and their total number. */
  ghost predicate DetectedIn(parsed: ParseResult, content: string, limits: SmellLimits, r: SmellReport) {
    && r.filepath == parsed.filepath
    && r.smells.longFunctions == LongFunctions(parsed.functions, limits.maxFunctionLength)
    && r.smells.longClasses == LongClasses(parsed.classes, limits.maxClassLength)
    && r.smells.missingDocstrings == MissingFunctionDocs(parsed.functions) + MissingClassDocs(parsed.classes)
    && r.smells.tooManyParameters == ManyParameters(parsed.functions, 5)
    && (forall n :: n in DeadNames(r.smells.deadCode) <==> IsDead(parsed.functions, n))
    && (forall k :: 0 <= k < |r.smells.deadCode| ==> FirstLineEntry(parsed.functions, r.smells.deadCode[k]))
    && (forall k, l :: 0 <= k < l < |r.smells.deadCode| ==> r.smells.deadCode[k].name != r.smells.deadCode[l].name)
    && r.smells.magicNumbers == Take(MagicIn(Split(content, '\n')), 10)
    && r.smells.globalVariables == GlobalSmells(parsed.globalVariables)
    && r.totalSmellCount == SmellCount(r.smells)
  }

  /** detect_smells: every rule over one file, and the total number of
      findings. */
  method DetectSmells(parsed: ParseResult, content: string, limits: SmellLimits) returns (r: SmellReport)
    ensures DetectedIn(parsed, content, limits, r)
    ensures r.totalSmellCount <= |parsed.functions| * 3 + |parsed.classes| * 2 + |r.smells.deadCode| + 10 + |parsed.globalVariables|
  {
    var longFunctions := DetectLongFunctions(parsed.functions, limits);
    var longClasses := DetectLongClasses(parsed.classes, limits);
    var missing := DetectMissingDocstrings(parsed);
    var many := DetectManyParameters(parsed.functions);
    var dead := DetectDeadCode(parsed.functions);
    var magic := DetectMagicNumbers(content);
    var smells := Smells(longFunctions, longClasses, missing, many, dead, magic, GlobalSmells(parsed.globalVariables));
    r := SmellReport(parsed.filepath, smells, SmellCount(smells));
  }

  // ---------------------------------------------------------------------
  // detect_duplicates
  // ---------------------------------------------------------------------

  /** The grouping key f"{name}_{len(parameters)}". */
  function KeyText(name: string, paramCount: nat): string {
    name + "_" + NatToString(paramCount)
  }

  /** The key's last '_' is the one after the name, and the digits follow it. */
  lemma KeyTextShape(name: string, paramCount: nat)
    ensures var s := KeyText(name, paramCount);
      |s| > |name| && s[|name|] == '_' && s[..|name|] == name && s[|name| + 1..] == NatToString(paramCount)
      && forall j :: |name| < j < |s| ==> s[j] != '_'
  {
    var s := KeyText(name, paramCount);
    var d := NatToString(paramCount);
    assert forall j :: |name| < j < |s| ==> s[j] == d[j - |name| - 1];
  }

  /** The key text determines the name and the parameter count, so grouping
      by the text is grouping by the pair. */
  lemma KeyTextInjective(n1: string, c1: nat, n2: string, c2: nat)
    requires KeyText(n1, c1) == KeyText(n2, c2)
    ensures n1 == n2 && c1 == c2
  {
    KeyTextShape(n1, c1);
    KeyTextShape(n2, c2);
    var s := KeyText(n1, c1);
    assert |n1| == |n2|;
    assert NatToString(c1) == s[|n1| + 1..] == NatToString(c2);
    NatToStringInjective(c1, c2);
  }

  /** The reported signature, signature.split('_')[0], is the part of the
      name before its first '_' (the whole name when it has none). */
  lemma SignatureOfKey(name: string, paramCount: nat)
    ensures FirstPiece(KeyText(name, paramCount), '_') == FirstPiece(name, '_')
  {
    var s := KeyText(name, paramCount);
    KeyTextShape(name, paramCount);
    if '_' in name {
      var i := FirstIndex(name, '_');
      assert s[..i] == name[..i];
      FirstIndexUnique(s, '_', i);
    } else {
      FirstIndexUnique(s, '_', |name|);
    }
  }

  datatype Occurrence = Occurrence(file: string, functionName: string, line: nat)

  /** One function record as detect_duplicates files it: its key and its
      occurrence. */
  datatype Keyed = Keyed(key: string, occ: Occurrence)

  function KeyedOf(filepath: string, f: FunctionInfo): Keyed {
    Keyed(KeyText(f.name, |f.parameters|), Occurrence(filepath, f.name, f.lineStart))
  }

  /** The keyed records of one file, in record order. */
  function FileKeyed(pr: ParseResult): (r: seq<Keyed>)
    ensures |r| == |pr.functions|
    ensures forall i :: 0 <= i < |r| ==> r[i] == KeyedOf(pr.filepath, pr.functions[i])
  {
    seq(|pr.functions|, i requires 0 <= i < |pr.functions| => KeyedOf(pr.filepath, pr.functions[i]))
  }

  /** The keyed records of all files, file by file. */
  function AllKeyed(files: seq<ParseResult>): seq<Keyed> {
    FlatMap(files, FileKeyed)
  }

  /** The occurrences filed under key k, in the order they were filed. */
  function OccurrencesOf(es: seq<Keyed>, k: string): (r: seq<Occurrence>)
    ensures |r| <= |es|
    decreases |es|
  {
    if |es| == 0 then []
    else OccurrencesOf(es[..|es| - 1], k) + (if es[|es| - 1].key == k then [es[|es| - 1].occ] else [])
  }

  lemma {:induction false} OccurrencesAppend(a: seq<Keyed>, b: seq<Keyed>, k: string)
    ensures OccurrencesOf(a + b, k) == OccurrencesOf(a, k) + OccurrencesOf(b, k)
    decreases |b|
  {
    if |b| == 0 {
      assert a + b == a;
    } else {
      var b0 := b[..|b| - 1];
      assert (a + b)[..|a + b| - 1] == a + b0;
      OccurrencesAppend(a, b0, k);
    }
  }

  /** Each occurrence filed under k comes from a record with key k. */
  lemma {:induction false} OccurrencesOfMember(es: seq<Keyed>, k: string, o: Occurrence)
    ensures o in OccurrencesOf(es, k) <==> exists i :: 0 <= i < |es| && es[i].key == k && es[i].occ == o
    decreases |es|
  {
    if |es| > 0 {
      var init := es[..|es| - 1];
      OccurrencesOfMember(init, k, o);
      assert forall i :: 0 <= i < |init| ==> init[i] == es[i];
      if exists i :: 0 <= i < |es| && es[i].key == k && es[i].occ == o {
        var i :| 0 <= i < |es| && es[i].key == k && es[i].occ == o;
        if i < |init| {
          assert init[i].key == k && init[i].occ == o;
        }
      }
    }
  }

  /** Two records with the same key make a group of at least two. */
  lemma {:induction false} TwoMakeAGroup(es: seq<Keyed>, a: nat, b: nat, k: string)
    requires a < b < |es| && es[a].key == k && es[b].key == k
    ensures |OccurrencesOf(es, k)| >= 2
    decreases |es|
  {
    var init := es[..|es| - 1];
    if b == |es| - 1 {
      assert init[a] == es[a];
      OccurrencesOfMember(init, k, es[a].occ);
    } else {
      assert init[a] == es[a] && init[b] == es[b];
      TwoMakeAGroup(init, a, b, k);
    }
  }

  /** A file contributes all its occurrences to the repository-wide group. */
  lemma {:induction false} FileOccurrencesWithin(files: seq<ParseResult>, q: nat, k: string)
    requires q < |files|
    ensures |OccurrencesOf(AllKeyed(files), k)| >= |OccurrencesOf(FileKeyed(files[q]), k)|
    decreases |files|
  {
    var init := files[..|files| - 1];
    assert AllKeyed(files) == AllKeyed(init) + FileKeyed(files[|files| - 1]);
    OccurrencesAppend(AllKeyed(init), FileKeyed(files[|files| - 1]), k);
    if q < |files| - 1 {
      assert init[q] == files[q];
      FileOccurrencesWithin(init, q, k);
    }
  }

  /** defaultdict(list) filled in insertion order: the keys in the order
      they were first seen, and the list under each. */
  datatype Groups = Groups(keys: seq<string>, members: map<string, seq<Occurrence>>)

  function AddKeyed(g: Groups, e: Keyed): Groups {
    if e.key in g.members then Groups(g.keys, g.members[e.key := g.members[e.key] + [e.occ]])
    else Groups(g.keys + [e.key], g.members[e.key := [e.occ]])
  }

  function GroupAll(es: seq<Keyed>): Groups
    decreases |es|
  {
    if |es| == 0 then Groups([], map[]) else AddKeyed(GroupAll(es[..|es| - 1]), es[|es| - 1])
  }

  ghost predicate GroupsWellFormed(g: Groups) {
    NoDup(g.keys) && forall k :: k in g.keys <==> k in g.members
  }

  /** The keys are distinct and are exactly the keys holding a list, and
      the list under every key is the occurrences filed under it. */
  lemma {:induction false} GroupAllSpec(es: seq<Keyed>)
    ensures GroupsWellFormed(GroupAll(es))
    ensures forall k :: k in GroupAll(es).members ==> GroupAll(es).members[k] == OccurrencesOf(es, k)
    ensures forall k :: k !in GroupAll(es).members ==> OccurrencesOf(es, k) == []
    decreases |es|
  {
    if |es| > 0 {
      var init := es[..|es| - 1];
      var e := es[|es| - 1];
      GroupAllSpec(init);
      var g := GroupAll(init);
      assert GroupAll(es) == AddKeyed(g, e);
      assert forall k :: OccurrencesOf(es, k) == OccurrencesOf(init, k) + (if e.key == k then [e.occ] else []);
      if e.key !in g.members {
        assert forall i :: 0 <= i < |g.keys| ==> g.keys[i] != e.key;
      }
    }
  }

  /** A reported duplicate: the signature text, the occurrences and their
      number. */
  datatype Duplicate = Duplicate(signature: string, occurrences: seq<Occurrence>, count: nat)

  function DuplicateOf(k: string, occurrences: seq<Occurrence>): Duplicate {
    Duplicate(FirstPiece(k, '_'), occurrences, |occurrences|)
  }

  /** The groups of more than one occurrence, in key order. */
  function DupsIn(keys: seq<string>, members: map<string, seq<Occurrence>>): seq<Duplicate>
    requires forall k :: k in keys ==> k in members
    decreases |keys|
  {
    if |keys| == 0 then []
    else
      var k := keys[|keys| - 1];
      DupsIn(keys[..|keys| - 1], members) + (if |members[k]| > 1 then [DuplicateOf(k, members[k])] else [])
  }

  /** detect_duplicates: the groups, by key, of more than one occurrence
      over all files. */
  function Duplicates(files: seq<ParseResult>): seq<Duplicate> {
    var g := GroupAll(AllKeyed(files));
    GroupAllSpec(AllKeyed(files));
    DupsIn(g.keys, g.members)
  }

  lemma {:induction false} DupsInMember(keys: seq<string>, members: map<string, seq<Occurrence>>, d: Duplicate)
    requires forall k :: k in keys ==> k in members
    ensures d in DupsIn(keys, members) <==> exists k :: k in keys && |members[k]| > 1 && d == DuplicateOf(k, members[k])
    decreases |keys|
  {
    if |keys| > 0 {
      var init := keys[..|keys| - 1];
      var last := keys[|keys| - 1];
      assert forall k :: k in keys <==> k in init || k == last;
      DupsInMember(init, members, d);
    }
  }

  /** Every reported duplicate is the group of some key with at least two
      occurrences, its count is their number, and all of them are records
      of one function name with one parameter count. */
  lemma DuplicateSound(files: seq<ParseResult>, d: Duplicate) returns (name: string, paramCount: nat)
    requires d in Duplicates(files)
    ensures var occ := OccurrencesOf(AllKeyed(files), KeyText(name, paramCount));
      |occ| >= 2 && d == DuplicateOf(KeyText(name, paramCount), occ)
    ensures d.count == |d.occurrences| >= 2
    ensures d.signature == FirstPiece(name, '_')
    ensures forall o :: o in d.occurrences ==> o.functionName == name
  {
    var es := AllKeyed(files);
    var g := GroupAll(es);
    GroupAllSpec(es);
    DupsInMember(g.keys, g.members, d);
    var k :| k in g.keys && |g.members[k]| > 1 && d == DuplicateOf(k, g.members[k]);
    OccurrencesOfMember(es, k, d.occurrences[0]);
    var i :| 0 <= i < |es| && es[i].key == k && es[i].occ == d.occurrences[0];
    var q, j := FlatMapIndex(files, i);
    name, paramCount := files[q].functions[j].name, |files[q].functions[j].parameters|;
    SignatureOfKey(name, paramCount);
    forall o | o in d.occurrences
      ensures o.functionName == name
    {
      OccurrencesOfMember(es, k, o);
      var i' :| 0 <= i' < |es| && es[i'].key == k && es[i'].occ == o;
      var q', j' := FlatMapIndex(files, i');
      KeyTextInjective(name, paramCount, files[q'].functions[j'].name, |files[q'].functions[j'].parameters|);
    }
  }

  /** Every record of the repository stems from one record of one file. */
  lemma {:induction false} FlatMapIndex(files: seq<ParseResult>, i: nat) returns (q: nat, j: nat)
    requires i < |AllKeyed(files)|
    ensures q < |files| && j < |files[q].functions|
    ensures AllKeyed(files)[i] == KeyedOf(files[q].filepath, files[q].functions[j])
    decreases |files|
  {
    var init := files[..|files| - 1];
    var last := files[|files| - 1];
    assert AllKeyed(files) == AllKeyed(init) + FileKeyed(last);
    if i < |AllKeyed(init)| {
      q, j := FlatMapIndex(init, i);
      assert init[q] == files[q];
    } else {
      q, j := |files| - 1, i - |AllKeyed(init)|;
    }
  }

  /** Every key with at least two occurrences is reported, with all of them. */
  lemma DuplicateComplete(files: seq<ParseResult>, k: string)
    requires |OccurrencesOf(AllKeyed(files), k)| >= 2
    ensures DuplicateOf(k, OccurrencesOf(AllKeyed(files), k)) in Duplicates(files)
  {
    var es := AllKeyed(files);
    var g := GroupAll(es);
    GroupAllSpec(es);
    DupsInMember(g.keys, g.members, DuplicateOf(k, OccurrencesOf(es, k)));
  }

  /** Because every method is recorded twice, every method of a parsed
      file forms a duplicate group (with itself) in any repository that
      contains that file. */
  lemma MethodFormsGroup(files: seq<ParseResult>, q: nat, filepath: string, body: seq<Node>, c: Node, k: nat)
    requires q < |files| && files[q] == ResultOf(filepath, Parsed(body))
    requires c in Walk(Module(body)) && c.ClassDef?
    requires k < |c.body| && c.body[k].FunctionDef?
    ensures var key := KeyText(c.body[k].fn.name, |c.body[k].fn.params|);
      DuplicateOf(key, OccurrencesOf(AllKeyed(files), key)) in Duplicates(files)
  {
    var key := KeyText(c.body[k].fn.name, |c.body[k].fn.params|);
    MethodTwiceInFile(filepath, body, c, k);
    FileOccurrencesWithin(files, q, key);
    DuplicateComplete(files, key);
  }

  /** The two records of a method give its key two occurrences in its file. */
  lemma MethodTwiceInFile(filepath: string, body: seq<Node>, c: Node, k: nat)
    requires c in Walk(Module(body)) && c.ClassDef?
    requires k < |c.body| && c.body[k].FunctionDef?
    ensures |OccurrencesOf(FileKeyed(ResultOf(filepath, Parsed(body))), KeyText(c.body[k].fn.name, |c.body[k].fn.params|))| >= 2
  {
    var key := KeyText(c.body[k].fn.name, |c.body[k].fn.params|);
    var pr := ResultOf(filepath, Parsed(body));
    var fs := pr.functions;
    MethodRecordedTwice(filepath, body, c, k);
    var plain := ExtractFunction(c.body[k], None);
    var asMethod := ExtractFunction(c.body[k], Some(c.cls.name));
    var a :| 0 <= a < |fs| && fs[a] == plain;
    var b :| 0 <= b < |fs| && fs[b] == asMethod;
    assert a != b;
    var es := FileKeyed(pr);
    assert es[a].key == key && es[b].key == key by {
      assert es[a] == KeyedOf(filepath, plain) && es[b] == KeyedOf(filepath, asMethod);
    }
    if a < b {
      TwoMakeAGroup(es, a, b, key);
    } else {
      TwoMakeAGroup(es, b, a, key);
    }
  }

  /** Filing record j of a file extends the groups of the records before it. */
  lemma GroupFileStep(before: seq<Keyed>, pr: ParseResult, j: nat)
    requires j < |pr.functions|
    ensures GroupAll(before + FileKeyed(pr)[..j + 1])
         == AddKeyed(GroupAll(before + FileKeyed(pr)[..j]), KeyedOf(pr.filepath, pr.functions[j]))
  {
    var done := before + FileKeyed(pr)[..j];
    var e := KeyedOf(pr.filepath, pr.functions[j]);
    assert before + FileKeyed(pr)[..j + 1] == done + [e];
    assert (done + [e])[..|done|] == done;
  }

  lemma AllKeyedSnoc(files: seq<ParseResult>, i: nat)
    requires i < |files|
    ensures AllKeyed(files[..i + 1]) == AllKeyed(files[..i]) + FileKeyed(files[i])
  {
    assert files[..i + 1][..i] == files[..i];
  }

  /** The reporting loop of detect_duplicates. */
  method CollectDuplicates(keys: seq<string>, members: map<string, seq<Occurrence>>) returns (duplicates: seq<Duplicate>)
    requires forall k :: k in keys ==> k in members
    ensures duplicates == DupsIn(keys, members)
  {
    duplicates := [];
    for t := 0 to |keys|
      invariant duplicates == DupsIn(keys[..t], members)
    {
      assert keys[..t + 1][..t] == keys[..t];
      var occurrences := members[keys[t]];
      if |occurrences| > 1 {
        duplicates := duplicates + [Duplicate(FirstPiece(keys[t], '_'), occurrences, |occurrences|)];
      }
    }
    assert keys[..|keys|] == keys;
  }

  /** detect_duplicates: file every record under its key, then report the
      keys with more than one occurrence. */
  method DetectDuplicates(files: seq<ParseResult>) returns (duplicates: seq<Duplicate>)
    ensures duplicates == Duplicates(files)
  {
    var keys: seq<string> := [];
    var members: map<string, seq<Occurrence>> := map[];
    for i := 0 to |files|
      invariant Groups(keys, members) == GroupAll(AllKeyed(files[..i]))
    {
      AllKeyedSnoc(files, i);
      ghost var before := AllKeyed(files[..i]);
      var fileData := files[i];
      var fs := fileData.functions;
      assert before + FileKeyed(fileData)[..0] == before;
      for j := 0 to |fs|
        invariant Groups(keys, members) == GroupAll(before + FileKeyed(fileData)[..j])
      {
        GroupFileStep(before, fileData, j);
        var signature := KeyText(fs[j].name, |fs[j].parameters|);
        var occurrence := Occurrence(fileData.filepath, fs[j].name, fs[j].lineStart);
        if signature in members {
          members := members[signature := members[signature] + [occurrence]];
        } else {
          keys := keys + [signature];
          members := members[signature := [occurrence]];
        }
      }
      assert FileKeyed(fileData)[..|fs|] == FileKeyed(fileData);
    }
    assert files[..|files|] == files;
    GroupAllSpec(AllKeyed(files));
    duplicates := CollectDuplicates(keys, members);
  }
}
