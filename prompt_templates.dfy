/** PromptTemplates: the fixed prompts the analyser can hand to a language
    model. Each prompt is a lead-in, a fenced Python block and a trailer;
    the properties are what a reader of the prompt can rely on: the code
    block is the argument verbatim, the lists are cut to their limits, and
    the empty cases have their own wording. */
module PromptTemplates {
  import opened Text
  import opened Ranking

  const FenceOpen := "```python\n"
  const FenceClose := "\n```\n"

  /** A python code fence around a text. */
  function Fenced(code: string): (r: string)
    ensures |r| == |FenceOpen| + |code| + |FenceClose|
  {
    FenceOpen + code + FenceClose
  }

  /** What lies between a lead-in and a trailer around a fence is the
      fenced text itself. */
  lemma FencedRecovered(lead: string, code: string, trailer: string)
    ensures var p := lead + Fenced(code) + trailer;
      var k := |lead| + |FenceOpen|;
      k + |code| <= |p|
      && p[..k] == lead + FenceOpen
      && p[k..k + |code|] == code
      && p[k + |code|..] == FenceClose + trailer
  {
    var p := lead + Fenced(code) + trailer;
    assert p == (lead + FenceOpen) + code + (FenceClose + trailer);
  }

  /** True when a prompt is the lead-in, the fenced text and the trailer,
      and the text can be read back from between them. */
  predicate EmbedsVerbatim(p: string, lead: string, code: string, trailer: string) {
    var k := |lead| + |FenceOpen|;
    p == lead + Fenced(code) + trailer
    && k + |code| <= |p|
    && p[k..k + |code|] == code
  }

  lemma EmbedsVerbatimHolds(lead: string, code: string, trailer: string)
    ensures EmbedsVerbatim(lead + Fenced(code) + trailer, lead, code, trailer)
  {
    FencedRecovered(lead, code, trailer);
  }

  /** ", ".join(xs) if xs else the given wording. */
  function ListOr(xs: seq<string>, empty: string): string {
    if |xs| > 0 then Join(xs, ", ") else empty
  }

  /** Joining names that hold no comma on ", " puts one comma between each
      two: the list can be counted from the text. */
  lemma {:induction false} JoinCommaCount(xs: seq<string>)
    requires |xs| > 0
    requires forall i :: 0 <= i < |xs| ==> ',' !in xs[i]
    ensures CountChar(Join(xs, ", "), ',') == |xs| - 1
    decreases |xs|
  {
    CountCharAbsent(xs[0], ',');
    if |xs| > 1 {
      JoinCommaCount(xs[1..]);
      CountCharAppend(xs[0], ", " + Join(xs[1..], ", "), ',');
      assert (", " + Join(xs[1..], ", "))[1..] == " " + Join(xs[1..], ", ");
      assert (" " + Join(xs[1..], ", "))[1..] == Join(xs[1..], ", ");
      assert Join(xs, ", ") == xs[0] + (", " + Join(xs[1..], ", "));
    }
  }

  // ---------------------------------------------------------------------
  // function_summary_prompt and class_summary_prompt
  // ---------------------------------------------------------------------

  function FunctionSummaryLead(name: string, parameters: seq<string>): string {
    "Analyze this Python function and provide a concise summary:\n\nFunction Name: " + name
    + "\nParameters: " + ListOr(parameters, "no parameters") + "\n\nCode:\n"
  }

  const FunctionSummaryTrailer :=
    "\nProvide a one-sentence summary that explains:\n1. What the function does\n2. What it returns (if applicable)\n3. Any important side effects\n\nSummary:"

  function FunctionSummaryPrompt(code: string, name: string, parameters: seq<string>): string {
    FunctionSummaryLead(name, parameters) + Fenced(code) + FunctionSummaryTrailer
  }

  /** The function's code is the fenced block verbatim, and the parameter
      line lists the parameters joined by ", ", or says 'no parameters'. */
  lemma FunctionSummaryPromptSpec(code: string, name: string, parameters: seq<string>)
    ensures EmbedsVerbatim(FunctionSummaryPrompt(code, name, parameters), FunctionSummaryLead(name, parameters), code, FunctionSummaryTrailer)
    ensures parameters == [] ==> ListOr(parameters, "no parameters") == "no parameters"
    ensures |parameters| > 0 ==> ListOr(parameters, "no parameters") == Join(parameters, ", ")
  {
    EmbedsVerbatimHolds(FunctionSummaryLead(name, parameters), code, FunctionSummaryTrailer);
  }

  function ClassSummaryLead(name: string, methods: seq<string>): string {
    "Analyze this Python class and provide a concise summary:\n\nClass Name: " + name
    + "\nMethods: " + ListOr(methods, "no methods") + "\n\nCode:\n"
  }

  const ClassSummaryTrailer :=
    "\nProvide a one-sentence summary that explains:\n1. The purpose of this class\n2. What it represents or manages\n3. Key responsibilities\n\nSummary:"

  function ClassSummaryPrompt(code: string, name: string, methods: seq<string>): string {
    ClassSummaryLead(name, methods) + Fenced(code) + ClassSummaryTrailer
  }

  /** The class's code is the fenced block verbatim, and the method line
      lists the methods, or says 'no methods'. */
  lemma ClassSummaryPromptSpec(code: string, name: string, methods: seq<string>)
    ensures EmbedsVerbatim(ClassSummaryPrompt(code, name, methods), ClassSummaryLead(name, methods), code, ClassSummaryTrailer)
    ensures methods == [] ==> ListOr(methods, "no methods") == "no methods"
    ensures |methods| > 0 ==> ListOr(methods, "no methods") == Join(methods, ", ")
  {
    EmbedsVerbatimHolds(ClassSummaryLead(name, methods), code, ClassSummaryTrailer);
  }

  // ---------------------------------------------------------------------
  // file_summary_prompt
  // ---------------------------------------------------------------------

  /** ", ".join(xs[:5]) if xs else "none". */
  function FirstFiveOrNone(xs: seq<string>): string {
    if |xs| > 0 then Join(Take(xs, 5), ", ") else "none"
  }

  /** The preview: the first 500 characters followed by '...'. */
  function Preview(content: string): (r: string)
    ensures |r| == (if |content| < 500 then |content| else 500) + 3
    ensures r[..|r| - 3] == content[..|r| - 3] && r[|r| - 3..] == "..."
  {
    PrefixSlice(content, 500) + "..."
  }

  function FileSummaryLead(filename: string, functions: seq<string>, classes: seq<string>): string {
    "Analyze this Python file and provide a concise summary:\n\nFilename: " + filename
    + "\nFunctions: " + FirstFiveOrNone(functions) + "\nClasses: " + FirstFiveOrNone(classes)
    + "\n\nPreview:\n"
  }

  const FileSummaryTrailer :=
    "\nProvide a one-sentence summary that explains:\n1. The main purpose of this file\n2. What functionality it provides\n3. How it fits into a larger system\n\nSummary:"

  function FileSummaryPrompt(content: string, filename: string, functions: seq<string>, classes: seq<string>): string {
    FileSummaryLead(filename, functions, classes) + Fenced(Preview(content)) + FileSummaryTrailer
  }

  /** The fenced block is the preview, at most 500 leading characters of the
      content and '...'; an empty list reads 'none', and a list of names
      without commas shows at most five of them, the first ones. */
  lemma FileSummaryPromptSpec(content: string, filename: string, functions: seq<string>, classes: seq<string>)
    ensures EmbedsVerbatim(FileSummaryPrompt(content, filename, functions, classes),
      FileSummaryLead(filename, functions, classes), Preview(content), FileSummaryTrailer)
    ensures |Preview(content)| <= 503
    ensures functions == [] ==> FirstFiveOrNone(functions) == "none"
    ensures classes == [] ==> FirstFiveOrNone(classes) == "none"
  {
    EmbedsVerbatimHolds(FileSummaryLead(filename, functions, classes), Preview(content), FileSummaryTrailer);
  }

  /** At most five names are shown, and they are the first five. */
  lemma FirstFiveShown(xs: seq<string>)
    requires |xs| > 0 && forall i :: 0 <= i < |xs| ==> ',' !in xs[i]
    ensures CountChar(FirstFiveOrNone(xs), ',') + 1 == (if |xs| < 5 then |xs| else 5)
    ensures FirstFiveOrNone(xs) == Join(xs[..(if |xs| < 5 then |xs| else 5)], ", ")
  {
    JoinCommaCount(Take(xs, 5));
  }

  // ---------------------------------------------------------------------
  // code_smell_explanation_prompt and refactoring_suggestion_prompt
  // ---------------------------------------------------------------------

  function SmellLead(smellType: string, location: string): string {
    "Explain this code smell and suggest improvements:\n\nCode Smell Type: " + smellType
    + "\nLocation: " + location + "\n\nCode:\n"
  }

  const SmellTrailer :=
    "\nProvide:\n1. Why this is considered a code smell\n2. Potential problems it could cause\n3. A specific refactoring suggestion\n\nExplanation:"

  function CodeSmellExplanationPrompt(smellType: string, snippet: string, location: string): string {
    SmellLead(smellType, location) + Fenced(snippet) + SmellTrailer
  }

  lemma CodeSmellExplanationPromptSpec(smellType: string, snippet: string, location: string)
    ensures EmbedsVerbatim(CodeSmellExplanationPrompt(smellType, snippet, location), SmellLead(smellType, location), snippet, SmellTrailer)
  {
    EmbedsVerbatimHolds(SmellLead(smellType, location), snippet, SmellTrailer);
  }

  const RefactoringHead := "This function has high cyclomatic complexity ("
  const RefactoringAfterNumber := "). \nSuggest how to refactor it:\n\n"

  function RefactoringLead(complexity: int): string {
    RefactoringHead + IntToString(complexity) + RefactoringAfterNumber
  }

  const RefactoringTrailer :=
    "\nProvide:\n1. Main issues causing high complexity\n2. Step-by-step refactoring approach\n3. Expected complexity after refactoring\n\nSuggestions:"

  function RefactoringSuggestionPrompt(code: string, complexity: int): string {
    RefactoringLead(complexity) + Fenced(code) + RefactoringTrailer
  }

  /** The code is the fenced block verbatim, and the complexity is written
      in decimal right after the opening parenthesis. */
  lemma RefactoringSuggestionPromptSpec(code: string, complexity: int)
    ensures EmbedsVerbatim(RefactoringSuggestionPrompt(code, complexity), RefactoringLead(complexity), code, RefactoringTrailer)
    ensures var p := RefactoringSuggestionPrompt(code, complexity);
      var n := IntToString(complexity);
      |RefactoringHead| + |n| <= |p| && p[|RefactoringHead|..|RefactoringHead| + |n|] == n
  {
    EmbedsVerbatimHolds(RefactoringLead(complexity), code, RefactoringTrailer);
    PieceRecovered(RefactoringHead, IntToString(complexity), RefactoringAfterNumber + Fenced(code) + RefactoringTrailer);
  }

  lemma PieceRecovered(a: string, b: string, c: string)
    ensures |a| + |b| <= |a + b + c| && (a + b + c)[|a|..|a| + |b|] == b
  {
  }

  // ---------------------------------------------------------------------
  // dependency_analysis_prompt
  // ---------------------------------------------------------------------

  /** The items, each as a '- ' line. */
  function BulletLines(items: seq<string>): (r: seq<string>)
    ensures |r| == |items| && forall i :: 0 <= i < |items| ==> r[i] == "- " + items[i]
  {
    seq(|items|, i requires 0 <= i < |items| => "- " + items[i])
  }

  /** "\n".join(f"- {x}" for x in items). */
  function Bullets(items: seq<string>): string {
    Join(BulletLines(items), "\n")
  }

  const DependencyLead := "Analyze these file dependencies:\n\nThis file imports:\n"
  const DependencyMiddle := "\n\nFiles that depend on this file:\n"
  const DependencyTrailer := "\n\nProvide:\n1. Assessment of coupling (tight/loose)\n2. Potential circular dependency risks\n3. Suggestions for improving modularity\n\nAnalysis:"

  function DependencyAnalysisPrompt(imports: seq<string>, dependents: seq<string>): string {
    DependencyLead + Bullets(Take(imports, 10)) + DependencyMiddle + Bullets(Take(dependents, 5)) + DependencyTrailer
  }

  /** For items on one line each, the bullet block splits back into its
      lines: one '- ' line per item, at most n of them, the first n items. */
  lemma BulletBlock(items: seq<string>, n: nat)
    requires 0 < |items| && 0 < n
    requires forall i :: 0 <= i < |items| ==> '\n' !in items[i]
    ensures var lines := Split(Bullets(Take(items, n)), '\n');
      |lines| == (if |items| < n then |items| else n)
      && |lines| <= n
      && forall i :: 0 <= i < |lines| ==> StartsWith(lines[i], "- ") && lines[i][2..] == items[i]
  {
    var t := Take(items, n);
    var ls := BulletLines(t);
    forall i | 0 <= i < |ls| ensures '\n' !in ls[i] {
      assert t[i] == items[i];
      assert ls[i] == "- " + items[i];
    }
    SplitJoin(ls, '\n');
    forall i | 0 <= i < |ls| ensures StartsWith(ls[i], "- ") && ls[i][2..] == items[i] {
      assert t[i] == items[i];
      assert ls[i] == "- " + items[i];
    }
  }

  /** The bullet block of no items is empty; it splits into one empty line. */
  lemma NoBullets(n: nat)
    ensures Bullets(Take([], n)) == "" && Split(Bullets(Take([], n)), '\n') == [""]
  {
  }

  /** The bullet block between two fixed texts: one '- ' line for each of
      the first n items, nothing for no items, never more than n lines. */
  predicate ShowsFirst(block: string, items: seq<string>, n: nat) {
    var lines := Split(block, '\n');
    |lines| <= n
    && (|items| == 0 ==> block == "")
    && (|items| > 0 ==>
          |lines| == (if |items| < n then |items| else n)
          && forall i :: 0 <= i < |lines| ==> StartsWith(lines[i], "- ") && lines[i][2..] == items[i])
  }

  /** The dependency prompt is the fixed lead, the bullet block of the first
      ten imports, the fixed middle, the bullet block of the first five
      dependents and the fixed trailer; an empty list leaves its block empty. */
  lemma DependencyAnalysisPromptSpec(imports: seq<string>, dependents: seq<string>)
    requires forall i :: 0 <= i < |imports| ==> '\n' !in imports[i]
    requires forall i :: 0 <= i < |dependents| ==> '\n' !in dependents[i]
    ensures DependencyAnalysisPrompt(imports, dependents)
      == DependencyLead + Bullets(Take(imports, 10)) + DependencyMiddle + Bullets(Take(dependents, 5)) + DependencyTrailer
    ensures ShowsFirst(Bullets(Take(imports, 10)), imports, 10)
    ensures ShowsFirst(Bullets(Take(dependents, 5)), dependents, 5)
  {
    if |imports| == 0 { NoBullets(10); } else { BulletBlock(imports, 10); }
    if |dependents| == 0 { NoBullets(5); } else { BulletBlock(dependents, 5); }
  }

  // ---------------------------------------------------------------------
  // documentation_generation_prompt, bug_detection_prompt, test_generation_prompt
  // ---------------------------------------------------------------------

  function ExistingDocsLine(existingDocs: string): string {
    if |existingDocs| > 0 then "Existing: " + existingDocs else "No existing documentation"
  }

  function DocumentationLead(existingDocs: string): string {
    "Generate comprehensive documentation for this code:\n\n" + ExistingDocsLine(existingDocs) + "\n\nCode:\n"
  }

  const DocumentationTrailer :=
    "\nGenerate:\n1. Docstring in Google style format\n2. Parameter descriptions with types\n3. Return value description\n4. Example usage\n\nDocumentation:"

  function DocumentationGenerationPrompt(code: string, existingDocs: string): string {
    DocumentationLead(existingDocs) + Fenced(code) + DocumentationTrailer
  }

  /** 'No existing documentation' exactly when there are none; otherwise the
      existing text follows 'Existing: '. The code is the fenced block
      verbatim. */
  lemma DocumentationGenerationPromptSpec(code: string, existingDocs: string)
    ensures EmbedsVerbatim(DocumentationGenerationPrompt(code, existingDocs), DocumentationLead(existingDocs), code, DocumentationTrailer)
    ensures ExistingDocsLine(existingDocs) == "No existing documentation" <==> existingDocs == ""
    ensures existingDocs != "" ==>
      StartsWith(ExistingDocsLine(existingDocs), "Existing: ") && ExistingDocsLine(existingDocs)[10..] == existingDocs
  {
    EmbedsVerbatimHolds(DocumentationLead(existingDocs), code, DocumentationTrailer);
    if existingDocs != "" {
      assert ExistingDocsLine(existingDocs)[0] == 'E';
    }
  }

  function BugLead(context: string): string {
    "Analyze this code for potential bugs:\n\nContext: " + context + "\n\nCode:\n"
  }

  const BugTrailer :=
    "\nIdentify:\n1. Potential runtime errors\n2. Logic errors\n3. Edge cases not handled\n4. Security concerns\n\nFindings:"

  function BugDetectionPrompt(code: string, context: string): string {
    BugLead(context) + Fenced(code) + BugTrailer
  }

  lemma BugDetectionPromptSpec(code: string, context: string)
    ensures EmbedsVerbatim(BugDetectionPrompt(code, context), BugLead(context), code, BugTrailer)
  {
    EmbedsVerbatimHolds(BugLead(context), code, BugTrailer);
  }

  function TestLead(name: string): string {
    "Generate unit test cases for this function:\n\nFunction: " + name + "\n\nCode:\n"
  }

  const TestTrailer :=
    "\nGenerate pytest test cases covering:\n1. Normal cases\n2. Edge cases\n3. Error cases\n4. Boundary conditions\n\nTests:"

  function TestGenerationPrompt(code: string, name: string): string {
    TestLead(name) + Fenced(code) + TestTrailer
  }

  lemma TestGenerationPromptSpec(code: string, name: string)
    ensures EmbedsVerbatim(TestGenerationPrompt(code, name), TestLead(name), code, TestTrailer)
  {
    EmbedsVerbatimHolds(TestLead(name), code, TestTrailer);
  }
}
