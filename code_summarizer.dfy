/** CodeSummarizer: the rule-based summaries of functions, classes and files,
    the two name-based purpose guesses, and the documentation record of one
    parsed file. A summary without a docstring is a list of phrases that is
    joined at the end; each list is modelled as its own function. */
module CodeSummarizer {
  import opened Seqs
  import opened Text
  import opened Ranking
  import opened AstParser
  import opened CodeSmellDetector

  // ---------------------------------------------------------------------
  // _infer_purpose_from_name
  // ---------------------------------------------------------------------

  /** The purposes _infer_purpose_from_name can give, in its order. */
  datatype NamePurpose =
    | Retrieves | Updates | Creates | Removes | Validates | Calculates | Processes
    | Saves | Loads | Handles | Manages | Controls | Utility

  function NamePurposeText(p: NamePurpose): (r: string)
    ensures |r| > 0 && r[0] != 't'
  {
    match p
    case Retrieves => "retrieves data"
    case Updates => "updates data"
    case Creates => "creates new data or objects"
    case Removes => "removes data"
    case Validates => "validates data or conditions"
    case Calculates => "performs calculations"
    case Processes => "processes data"
    case Saves => "saves or writes data"
    case Loads => "loads or reads data"
    case Handles => "handles events or requests"
    case Manages => "manages resources or operations"
    case Controls => "controls application logic"
    case Utility => "provides utility functions"
  }

  /** The test each rule makes of the lower-cased name. */
  predicate NameRuleMatches(p: NamePurpose, lower: string) {
    match p
    case Retrieves => StartsWith(lower, "get") || StartsWith(lower, "fetch")
    case Updates => StartsWith(lower, "set") || StartsWith(lower, "update")
    case Creates => StartsWith(lower, "create") || StartsWith(lower, "make")
    case Removes => StartsWith(lower, "delete") || StartsWith(lower, "remove")
    case Validates => StartsWith(lower, "validate") || StartsWith(lower, "check")
    case Calculates => StartsWith(lower, "calculate") || StartsWith(lower, "compute")
    case Processes => StartsWith(lower, "parse") || StartsWith(lower, "process")
    case Saves => StartsWith(lower, "save") || StartsWith(lower, "write")
    case Loads => StartsWith(lower, "load") || StartsWith(lower, "read")
    case Handles => Contains(lower, "handler") || Contains(lower, "handle")
    case Manages => Contains(lower, "manager")
    case Controls => Contains(lower, "controller")
    case Utility => Contains(lower, "helper") || Contains(lower, "util")
  }

  const NameRules: seq<NamePurpose> := [
    Retrieves, Updates, Creates, Removes, Validates, Calculates, Processes,
    Saves, Loads, Handles, Manages, Controls, Utility]

  /** The first rule of a list whose test holds. */
  function FirstRule(rules: seq<NamePurpose>, lower: string): Option<NamePurpose>
    decreases |rules|
  {
    if |rules| == 0 then None
    else if NameRuleMatches(rules[0], lower) then Some(rules[0])
    else FirstRule(rules[1..], lower)
  }

  /** FirstRule gives a matching rule with no matching rule before it, and
      None exactly when no rule matches. */
  lemma {:induction false} FirstRuleSpec(rules: seq<NamePurpose>, lower: string)
    ensures FirstRule(rules, lower).Some? ==>
      exists i :: 0 <= i < |rules| && rules[i] == FirstRule(rules, lower).value
        && NameRuleMatches(rules[i], lower)
        && forall j :: 0 <= j < i ==> !NameRuleMatches(rules[j], lower)
    ensures FirstRule(rules, lower).None? <==> forall i :: 0 <= i < |rules| ==> !NameRuleMatches(rules[i], lower)
    decreases |rules|
  {
    if |rules| > 0 {
      var rest := rules[1..];
      FirstRuleSpec(rest, lower);
      if !NameRuleMatches(rules[0], lower) {
        if FirstRule(rest, lower).Some? {
          var i :| 0 <= i < |rest| && rest[i] == FirstRule(rest, lower).value
            && NameRuleMatches(rest[i], lower) && forall j :: 0 <= j < i ==> !NameRuleMatches(rest[j], lower);
          assert rules[i + 1] == rest[i];
          assert forall j :: 0 <= j < i + 1 ==> !NameRuleMatches(rules[j], lower) by {
            forall j | 0 <= j < i + 1 ensures !NameRuleMatches(rules[j], lower) {
              if j > 0 { assert rules[j] == rest[j - 1]; }
            }
          }
        } else {
          forall i | 0 <= i < |rules| ensures !NameRuleMatches(rules[i], lower) {
            if i > 0 { assert rules[i] == rest[i - 1]; }
          }
        }
      } else {
        assert rules[0] == FirstRule(rules, lower).value;
      }
    }
  }

  /** _infer_purpose_from_name: the rules of the if/elif chain are tried
      in the table's order on the lower-cased name. */
  function InferPurpose(name: string): Option<NamePurpose> {
    FirstRule(NameRules, LowerAscii(name))
  }

  /** The purpose is a rule that matches with no earlier rule matching, and
      there is none exactly when no rule matches. */
  lemma InferPurposeSpec(name: string)
    ensures InferPurpose(name).Some? ==>
      exists i :: 0 <= i < |NameRules| && NameRules[i] == InferPurpose(name).value
        && NameRuleMatches(NameRules[i], LowerAscii(name))
        && forall j :: 0 <= j < i ==> !NameRuleMatches(NameRules[j], LowerAscii(name))
    ensures InferPurpose(name).None? <==>
      forall i :: 0 <= i < |NameRules| ==> !NameRuleMatches(NameRules[i], LowerAscii(name))
  {
    FirstRuleSpec(NameRules, LowerAscii(name));
  }

  // ---------------------------------------------------------------------
  // _infer_file_purpose
  // ---------------------------------------------------------------------

  datatype FilePurpose =
    | TestFile | ConfigFile | UtilityFile | ModelFile | ViewFile | ControllerFile
    | MainFile | ClassesOnly | FunctionsOnly

  function FilePurposeText(p: FilePurpose): string {
    match p
    case TestFile => "This appears to be a test file"
    case ConfigFile => "This file contains configuration settings"
    case UtilityFile => "This file provides utility functions"
    case ModelFile => "This file defines data models"
    case ViewFile => "This file handles view logic"
    case ControllerFile => "This file contains controller logic"
    case MainFile => "This is the main entry point"
    case ClassesOnly => "This file primarily defines classes"
    case FunctionsOnly => "This file primarily defines functions"
  }

  /** _infer_file_purpose: the if/elif chain on the lower-cased file name and
      on whether the class and function lists are empty. */
  function InferFilePurpose(filename: string, classes: seq<ClassInfo>, functions: seq<FunctionInfo>): Option<FilePurpose> {
    var lower := LowerAscii(filename);
    if Contains(lower, "test") then Some(TestFile)
    else if Contains(lower, "config") || Contains(lower, "settings") then Some(ConfigFile)
    else if Contains(lower, "util") || Contains(lower, "helper") then Some(UtilityFile)
    else if Contains(lower, "model") then Some(ModelFile)
    else if Contains(lower, "view") then Some(ViewFile)
    else if Contains(lower, "controller") then Some(ControllerFile)
    else if Contains(lower, "main") || Contains(lower, "__main__") then Some(MainFile)
    else if |classes| > 0 && |functions| == 0 then Some(ClassesOnly)
    else if |functions| > 0 && |classes| == 0 then Some(FunctionsOnly)
    else None
  }

  /** 'test' anywhere in the name decides the purpose ahead of every other
      rule; the two content rules apply only to names that match no word,
      and exactly when one of the two lists is empty and the other not. */
  lemma FilePurposeRules(filename: string, classes: seq<ClassInfo>, functions: seq<FunctionInfo>)
    ensures Contains(LowerAscii(filename), "test") ==> InferFilePurpose(filename, classes, functions) == Some(TestFile)
    ensures InferFilePurpose(filename, classes, functions) == Some(ClassesOnly) ==> |classes| > 0 && functions == []
    ensures InferFilePurpose(filename, classes, functions) == Some(FunctionsOnly) ==> |functions| > 0 && classes == []
    ensures InferFilePurpose(filename, classes, functions).None? ==>
      (|classes| == 0 <==> |functions| == 0) && !Contains(LowerAscii(filename), "test")
  {
  }

  /** The parser records every method a second time as a function, so the
      purpose "primarily defines classes" is never given for a parsed file
      with a class that has a method. */
  lemma ClassWithMethodIsNotClassesOnly(filepath: string, body: seq<Node>, c: Node, k: nat, filename: string)
    requires c in Walk(Module(body)) && c.ClassDef?
    requires k < |c.body| && c.body[k].FunctionDef?
    ensures InferFilePurpose(filename, ResultOf(filepath, Parsed(body)).classes, ResultOf(filepath, Parsed(body)).functions)
      != Some(ClassesOnly)
  {
    MethodRecordedTwice(filepath, body, c, k);
    var r := ResultOf(filepath, Parsed(body));
    assert |r.functions| > 0;
    FunctionsRuleOutClassesOnly(filename, r.classes, r.functions);
  }

  lemma FunctionsRuleOutClassesOnly(filename: string, classes: seq<ClassInfo>, functions: seq<FunctionInfo>)
    requires |functions| > 0
    ensures InferFilePurpose(filename, classes, functions) != Some(ClassesOnly)
  {
  }

  // ---------------------------------------------------------------------
  // summarize_function
  // ---------------------------------------------------------------------

  function OpeningParts(isAsync: bool): (r: seq<string>)
    ensures |r| == 1 && |r[0]| > 0 && r[0][0] == 'T'
  {
    if isAsync then ["This asynchronous function"] else ["This function"]
  }

  function PurposeParts(name: string): (r: seq<string>)
    ensures |r| <= 1
    ensures forall x :: x in r ==> |x| > 0 && x[0] != 't'
  {
    var p := InferPurpose(name);
    if p.Some? then [NamePurposeText(p.value)] else []
  }

  /** The parameter phrase: none for a list of only 'self' and 'cls'. */
  function ParameterParts(params: seq<string>): (r: seq<string>)
    ensures "takes no parameters" in r <==> params == []
  {
    if |params| > 0 then
      var ps := RealParams(params);
      if |ps| > 0 then
        var t := "takes " + NatToString(|ps|) + " parameter(s): " + Join(ps, ", ");
        assert t[6] == NatToString(|ps|)[0];
        [t]
      else []
    else ["takes no parameters"]
  }

  function ReturnParts(returnType: Option<string>): (r: seq<string>)
    ensures forall x :: x in r ==> |x| > 0 && x[0] == 'a'
  {
    if Truthy(returnType) then ["and returns " + returnType.value] else []
  }

  function CallParts(calls: seq<string>): (r: seq<string>)
    ensures forall x :: x in r ==> |x| > 0 && x[0] == 'I'
  {
    if |calls| > 0 && |calls| <= 5 then ["It calls: " + Join(Take(calls, 5), ", ")]
    else if |calls| > 0 then ["It makes " + NatToString(|calls|) + " function calls"]
    else []
  }

  /** The phrases summarize_function appends when there is no docstring. */
  function FunctionParts(f: FunctionInfo): (r: seq<string>)
    ensures |r| > 0 && r[0] == OpeningParts(f.isAsync)[0]
  {
    OpeningParts(f.isAsync) + PurposeParts(f.name) + ParameterParts(f.parameters)
    + ReturnParts(f.returnType) + CallParts(f.calls)
  }

  /** summarize_function. */
  function SummarizeFunction(f: FunctionInfo): string {
    if Truthy(f.docstring) then "Function '" + f.name + "': " + f.docstring.value
    else Join(FunctionParts(f), ". ") + "."
  }

  lemma {:induction false} JoinStartsWithFirst(parts: seq<string>, sep: string)
    requires |parts| > 0
    ensures StartsWith(Join(parts, sep), parts[0])
  {
    if |parts| > 1 {
      assert Join(parts, sep) == parts[0] + (sep + Join(parts[1..], sep));
    }
  }

  /** With a docstring the summary is the name and the docstring, and the
      docstring is exactly what follows the fixed header. Without one, the
      summary opens with "This asynchronous function" exactly for an async
      def and with "This function" otherwise, and ends with a full stop. */
  lemma FunctionSummaryShape(f: FunctionInfo)
    ensures Truthy(f.docstring) ==>
      var header := "Function '" + f.name + "': ";
      StartsWith(SummarizeFunction(f), header) && SummarizeFunction(f)[|header|..] == f.docstring.value
    ensures !Truthy(f.docstring) ==>
      (StartsWith(SummarizeFunction(f), "This asynchronous function") <==> f.isAsync)
      && (StartsWith(SummarizeFunction(f), "This function") <==> !f.isAsync)
      && EndsWith(SummarizeFunction(f), ".")
  {
    if !Truthy(f.docstring) {
      var parts := FunctionParts(f);
      JoinStartsWithFirst(parts, ". ");
      JoinedSentence(Join(parts, ". "), parts[0]);
      Openings(SummarizeFunction(f));
    }
  }

  /** A sentence keeps the start of its text and ends with a full stop. */
  lemma JoinedSentence(j: string, first: string)
    requires StartsWith(j, first)
    ensures StartsWith(j + ".", first) && EndsWith(j + ".", ".")
  {
    assert (j + ".")[..|first|] == j[..|first|];
  }

  /** No text opens both ways. */
  lemma Openings(s: string)
    ensures !(StartsWith(s, "This asynchronous function") && StartsWith(s, "This function"))
  {
    if StartsWith(s, "This asynchronous function") {
      assert s[5] == "This asynchronous function"[5];
    }
  }

  /** "takes no parameters" is a phrase of the summary exactly when the def
      has no parameters at all; the listed parameters are the real ones,
      never 'self' or 'cls'. */
  lemma ParameterPhrase(f: FunctionInfo)
    ensures "takes no parameters" in FunctionParts(f) <==> f.parameters == []
    ensures ParameterParts(f.parameters) == [] <==> |f.parameters| > 0 && RealParams(f.parameters) == []
    ensures |f.parameters| > 0 && RealParams(f.parameters) != [] ==>
      ParameterParts(f.parameters) ==
        ["takes " + NatToString(|RealParams(f.parameters)|) + " parameter(s): " + Join(RealParams(f.parameters), ", ")]
    ensures forall p :: p in RealParams(f.parameters) ==> p != "self" && p != "cls"
  {
    var o, u, q, t, c := OpeningParts(f.isAsync), PurposeParts(f.name), ParameterParts(f.parameters),
      ReturnParts(f.returnType), CallParts(f.calls);
    var x := "takes no parameters";
    assert x[0] == 't';
    assert x in o + u + q + t + c <==> x in o || x in u || x in q || x in t || x in c;
  }

  /** All calls are listed by name when there are one to five of them;
      beyond five only their number is given; no call gives no phrase. */
  lemma CallPhrase(calls: seq<string>)
    ensures 0 < |calls| <= 5 ==> CallParts(calls) == ["It calls: " + Join(calls, ", ")]
    ensures |calls| > 5 ==> CallParts(calls) == ["It makes " + NatToString(|calls|) + " function calls"]
    ensures calls == [] <==> CallParts(calls) == []
  {
  }

  // ---------------------------------------------------------------------
  // summarize_class
  // ---------------------------------------------------------------------

  /** The method names that do not start with '_', in order. */
  function KeyMethods(names: seq<string>): (r: seq<string>)
    ensures |r| <= |names|
    ensures forall m :: m in r <==> m in names && !StartsWith(m, "_")
    decreases |names|
  {
    if |names| == 0 then []
    else
      var init, m := names[..|names| - 1], names[|names| - 1];
      assert forall x :: x in names <==> x in init || x == m;
      KeyMethods(init) + (if !StartsWith(m, "_") then [m] else [])
  }

  /** The phrases summarize_class collects when there is no docstring. */
  function ClassParts(c: ClassInfo): (r: seq<string>)
    ensures |r| > 0 && r[0] == "Class '" + c.name + "'"
  {
    var ms := c.methodNames;
    var key := KeyMethods(ms);
    ["Class '" + c.name + "'"]
    + (if |c.bases| > 0 then ["inherits from " + Join(c.bases, ", ")] else [])
    + (if |ms| > 0 then
         ["and implements " + NatToString(|ms|) + " methods"]
         + (if |key| > 0 then ["including: " + Join(Take(key, 5), ", ")] else [])
       else [])
    + (match InferPurpose(c.name) case Some(p) => [". " + NamePurposeText(p)] case None => [])
  }

  /** summarize_class. */
  function SummarizeClass(c: ClassInfo): string {
    if Truthy(c.docstring) then "Class '" + c.name + "': " + c.docstring.value
    else Join(ClassParts(c), " ") + "."
  }

  /** The methods a class summary lists: the first names that do not
      start with '_'. */
  function ListedMethods(c: ClassInfo): seq<string> {
    Take(KeyMethods(c.methodNames), 5)
  }

  /** A class summary lists at most five methods, each one of the class's
      methods whose name does not start with '_', in the class's order and
      without skipping any such method before the last one listed. With a
      docstring the summary is the header and the docstring. */
  lemma ClassSummaryShape(c: ClassInfo)
    ensures |ListedMethods(c)| <= 5
    ensures forall m :: m in ListedMethods(c) ==> m in c.methodNames && !StartsWith(m, "_")
    ensures ListedMethods(c) == KeyMethods(c.methodNames)[..|ListedMethods(c)|]
    ensures |KeyMethods(c.methodNames)| <= 5 ==> ListedMethods(c) == KeyMethods(c.methodNames)
    ensures Truthy(c.docstring) ==>
      var header := "Class '" + c.name + "': ";
      StartsWith(SummarizeClass(c), header) && SummarizeClass(c)[|header|..] == c.docstring.value
    ensures !Truthy(c.docstring) ==> StartsWith(SummarizeClass(c), "Class '" + c.name + "'") && EndsWith(SummarizeClass(c), ".")
  {
    var key := KeyMethods(c.methodNames);
    assert forall m :: m in Take(key, 5) ==> m in key;
    if !Truthy(c.docstring) {
      var j := Join(ClassParts(c), " ");
      JoinStartsWithFirst(ClassParts(c), " ");
      var h := "Class '" + c.name + "'";
      assert (j + ".")[..|h|] == j[..|h|];
    }
  }

  /** A text that differs from a prefix at some position below the
      prefix's length does not start with it. */
  lemma DiffersFrom(s: string, prefix: string, k: nat)
    requires k < |prefix| && (k >= |s| || s[k] != prefix[k])
    ensures !StartsWith(s, prefix)
  {
    if |prefix| <= |s| {
      assert s[..|prefix|][k] == s[k];
    }
  }

  /** The parts of a class summary, by kind: the header, the bases, the
      method count with the listed methods, and the purpose. */
  lemma ClassPartsSplit(c: ClassInfo)
    ensures var key := KeyMethods(c.methodNames);
      ClassParts(c) ==
        ["Class '" + c.name + "'"]
        + (if |c.bases| > 0 then ["inherits from " + Join(c.bases, ", ")] else [])
        + (if |c.methodNames| > 0 then
             ["and implements " + NatToString(|c.methodNames|) + " methods"]
             + (if |key| > 0 then ["including: " + Join(ListedMethods(c), ", ")] else [])
           else [])
        + PurposePart(c.name)
  {
  }

  /** The purpose sentence of a class summary, if there is one. */
  function PurposePart(name: string): seq<string> {
    match InferPurpose(name) case Some(p) => [". " + NamePurposeText(p)] case None => []
  }

  /** No part of a class summary other than the method list opens with
      "including: ". */
  lemma OtherPartsNotIncluding(c: ClassInfo)
    ensures !StartsWith("Class '" + c.name + "'", "including: ")
    ensures !StartsWith("inherits from " + Join(c.bases, ", "), "including: ")
    ensures !StartsWith("and implements " + NatToString(|c.methodNames|) + " methods", "including: ")
    ensures forall p :: p in PurposePart(c.name) ==> !StartsWith(p, "including: ")
  {
    DiffersFrom("Class '" + c.name + "'", "including: ", 0);
    DiffersFrom("inherits from " + Join(c.bases, ", "), "including: ", 2);
    DiffersFrom("and implements " + NatToString(|c.methodNames|) + " methods", "including: ", 0);
    forall p | p in PurposePart(c.name) ensures !StartsWith(p, "including: ") {
      DiffersFrom(p, "including: ", 0);
    }
  }

  /** The listed methods are what the class summary's "including: " phrase
      names, and there is no such phrase when no method is listed. */
  lemma ClassSummaryIncluding(c: ClassInfo)
    ensures |ListedMethods(c)| > 0 ==> "including: " + Join(ListedMethods(c), ", ") in ClassParts(c)
    ensures |ListedMethods(c)| == 0 ==> forall p :: p in ClassParts(c) ==> !StartsWith(p, "including: ")
  {
    ClassPartsSplit(c);
    var key := KeyMethods(c.methodNames);
    if |ListedMethods(c)| > 0 {
      assert key[0] in c.methodNames;
    } else {
      assert key == [];
      OtherPartsNotIncluding(c);
    }
  }

  // ---------------------------------------------------------------------
  // summarize_file
  // ---------------------------------------------------------------------

  /** The records that have no parent class, in order. */
  function Standalone(fs: seq<FunctionInfo>): (r: seq<FunctionInfo>)
    ensures |r| <= |fs|
    decreases |fs|
  {
    if |fs| == 0 then []
    else Standalone(fs[..|fs| - 1]) + (if !Truthy(fs[|fs| - 1].parentClass) then [fs[|fs| - 1]] else [])
  }

  /** A record is kept exactly when it has no parent class. */
  lemma {:induction false} StandaloneMembers(fs: seq<FunctionInfo>)
    ensures forall f :: f in Standalone(fs) <==> f in fs && !Truthy(f.parentClass)
    decreases |fs|
  {
    if |fs| > 0 {
      var init := fs[..|fs| - 1];
      StandaloneMembers(init);
      assert forall x :: x in fs <==> x in init || x == fs[|fs| - 1];
    }
  }

  /** The kept records stay in their order. */
  lemma {:induction false} StandaloneAppend(fs: seq<FunctionInfo>, gs: seq<FunctionInfo>)
    ensures Standalone(fs + gs) == Standalone(fs) + Standalone(gs)
    decreases |gs|
  {
    if |gs| == 0 {
      assert fs + gs == fs;
    } else {
      var g0 := gs[..|gs| - 1];
      assert (fs + gs)[..|fs + gs| - 1] == fs + g0;
      assert (fs + gs)[|fs + gs| - 1] == gs[|gs| - 1];
      StandaloneAppend(fs, g0);
    }
  }

  /** Python's filepath.split('/')[-1]. */
  function FileName(filepath: string): (r: string)
    ensures '/' !in r && EndsWith(filepath, r)
  {
    LastPiece(filepath, '/')
  }

  function ClassNames(cs: seq<ClassInfo>): (r: seq<string>)
    ensures |r| == |cs| && forall i :: 0 <= i < |cs| ==> r[i] == cs[i].name
  {
    seq(|cs|, i requires 0 <= i < |cs| => cs[i].name)
  }

  /** The phrase naming the classes, when there are any. */
  function ClassListPhrase(p: ParseResult): (r: seq<string>)
    ensures forall x :: x in r ==> |x| > 0 && x[0] == 'd'
  {
    if |p.classes| > 0 then ["defines " + NatToString(|p.classes|) + " class(es): " + Join(ClassNames(p.classes), ", ")] else []
  }

  /** The phrase counting the standalone functions, when there are any. */
  function FunctionCountPhrase(p: ParseResult): seq<string> {
    var standalone := Standalone(p.functions);
    if |p.functions| > 0 && |standalone| > 0 then ["and " + NatToString(|standalone|) + " function(s)"] else []
  }

  function ImportPhrase(p: ParseResult): (r: seq<string>)
    ensures forall x :: x in r ==> |x| > 0 && x[0] == 'I'
  {
    if |p.imports| > 0 then ["It imports " + NatToString(|p.imports|) + " module(s)"] else []
  }

  function FilePurposePhrase(p: ParseResult): (r: seq<string>)
    ensures forall x :: x in r ==> |x| > 0 && x[0] == '.'
  {
    match InferFilePurpose(FileName(p.filepath), p.classes, p.functions)
    case Some(fp) => [". " + FilePurposeText(fp)]
    case None => []
  }

  /** The phrases after the opening one. */
  function FileRest(p: ParseResult): seq<string> {
    ClassListPhrase(p) + FunctionCountPhrase(p) + ImportPhrase(p) + FilePurposePhrase(p)
  }

  /** Without the function count, no phrase after the opening one starts
      with 'a'. */
  lemma FileRestNoA(p: ParseResult)
    requires FunctionCountPhrase(p) == []
    ensures forall x :: x in FileRest(p) ==> |x| > 0 && x[0] != 'a'
  {
    NoneOpensWithA(ClassListPhrase(p), FunctionCountPhrase(p), ImportPhrase(p), FilePurposePhrase(p));
  }

  lemma NoneOpensWithA(a: seq<string>, f: seq<string>, b: seq<string>, c: seq<string>)
    requires f == []
    requires forall x :: x in a ==> |x| > 0 && x[0] == 'd'
    requires forall x :: x in b ==> |x| > 0 && x[0] == 'I'
    requires forall x :: x in c ==> |x| > 0 && x[0] == '.'
    ensures forall x :: x in a + f + b + c ==> |x| > 0 && x[0] != 'a'
  {
  }

  /** The phrases summarize_file collects. */
  function FileParts(p: ParseResult): (r: seq<string>)
    ensures |r| > 0 && r[0] == "File '" + FileName(p.filepath) + "'"
  {
    ["File '" + FileName(p.filepath) + "'"] + FileRest(p)
  }

  /** summarize_file. */
  function SummarizeFile(p: ParseResult): string {
    Join(FileParts(p), " ") + "."
  }

  /** The function count a file summary gives is the number of standalone
      functions, and it is given exactly when there is one; the summary
      opens with the last component of the path. */
  lemma FileSummaryShape(p: ParseResult)
    ensures StartsWith(SummarizeFile(p), "File '" + FileName(p.filepath) + "'")
    ensures ("and " + NatToString(|Standalone(p.functions)|) + " function(s)" in FileParts(p)) <==> |Standalone(p.functions)| > 0
  {
    var parts := FileParts(p);
    JoinStartsWithFirst(parts, " ");
    JoinedSentence(Join(parts, " "), parts[0]);
    var n := |Standalone(p.functions)|;
    var phrase := "and " + NatToString(n) + " function(s)";
    if n == 0 {
      assert phrase[0] == 'a';
      assert parts[0][0] == 'F';
      FileRestNoA(p);
      assert phrase !in FileRest(p);
    } else {
      assert FunctionCountPhrase(p) == [phrase];
      assert phrase in FileRest(p);
    }
  }

  // ---------------------------------------------------------------------
  // generate_documentation
  // ---------------------------------------------------------------------

  datatype ClassDoc = ClassDoc(name: string, summary: string, methods: seq<string>)
  datatype FunctionDoc = FunctionDoc(name: string, summary: string, parameters: seq<string>, returnsText: Option<string>)
  datatype Documentation = Documentation(fileSummary: string, classes: seq<ClassDoc>, functions: seq<FunctionDoc>)

  function ClassDocOf(c: ClassInfo): ClassDoc {
    ClassDoc(c.name, SummarizeClass(c), c.methodNames)
  }

  function FunctionDocOf(f: FunctionInfo): FunctionDoc {
    FunctionDoc(f.name, SummarizeFunction(f), f.parameters, f.returnType)
  }

  /** The class entries: one per class, in order. */
  function ClassDocs(cs: seq<ClassInfo>): (r: seq<ClassDoc>)
    ensures |r| == |cs| && forall i :: 0 <= i < |cs| ==> r[i] == ClassDocOf(cs[i])
  {
    seq(|cs|, i requires 0 <= i < |cs| => ClassDocOf(cs[i]))
  }

  /** The function entries: one per standalone record, in order. */
  function FunctionDocs(fs: seq<FunctionInfo>): (r: seq<FunctionDoc>)
    ensures |r| == |Standalone(fs)| && forall i :: 0 <= i < |r| ==> r[i] == FunctionDocOf(Standalone(fs)[i])
  {
    var st := Standalone(fs);
    seq(|st|, i requires 0 <= i < |st| => FunctionDocOf(st[i]))
  }

  /** generate_documentation: the file summary, an entry per class, and an
      entry per standalone function. */
  function GenerateDocumentation(p: ParseResult): (d: Documentation)
    ensures d.classes == ClassDocs(p.classes) && d.functions == FunctionDocs(p.functions)
  {
    Documentation(SummarizeFile(p), ClassDocs(p.classes), FunctionDocs(p.functions))
  }

  /** Every record without a parent class has an entry, and every entry is
      that of such a record: a method never has one of its own. */
  lemma FunctionDocsExact(fs: seq<FunctionInfo>)
    ensures forall g :: g in fs && !Truthy(g.parentClass) ==> FunctionDocOf(g) in FunctionDocs(fs)
    ensures forall i :: 0 <= i < |FunctionDocs(fs)| ==>
      Standalone(fs)[i] in fs && !Truthy(Standalone(fs)[i].parentClass)
  {
    StandaloneMembers(fs);
    var st := Standalone(fs);
    var docs := FunctionDocs(fs);
    forall g | g in fs && !Truthy(g.parentClass) ensures FunctionDocOf(g) in docs {
      var i :| 0 <= i < |st| && st[i] == g;
      assert docs[i] == FunctionDocOf(g);
    }
    forall i | 0 <= i < |docs| ensures st[i] in fs && !Truthy(st[i].parentClass) {
      assert st[i] in st;
    }
  }
}
