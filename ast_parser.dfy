/** The structural extractor of the code archaeologist: it walks the syntax
    tree of one Python file and records its functions, classes, imports and
    module-level assignments.

    The tree is the parser's output, taken as given; only the shapes the
    extractor looks at are distinguished, and every other node is `Other`.
    Texts that the extractor obtains by printing a sub-tree back to source
    (return annotations, decorators, base classes, attribute callees) and
    docstrings are carried in the nodes as strings. */
module AstParser {
  import opened Seqs

  /** What a call calls: a bare name, an attribute access (with its source
      text), or any other expression. */
  datatype Callee = NameCallee(id: string) | AttributeCallee(text: string) | OtherCallee

  /** One `name as asname` item of an import statement. */
  datatype Alias = Alias(name: string, asname: Option<string>)

  /** The attributes of a def statement that the extractor reads. */
  datatype FuncData = FuncData(
    name: string,
    params: seq<string>,
    returnType: Option<string>,
    docstring: Option<string>,
    lineno: nat,
    endLineno: Option<nat>,
    decorators: seq<string>)

  /** The attributes of a class statement that the extractor reads. */
  datatype ClassData = ClassData(
    name: string,
    bases: seq<string>,
    docstring: Option<string>,
    lineno: nat,
    endLineno: Option<nat>,
    decorators: seq<string>)

  /** A syntax-tree node. The child sequences list the node's direct children
      in the order the tree library yields them; for a class, `head` holds
      the children before the body (bases, keywords) and `tail` those after
      it (decorators). A call's `args` holds every child of the call node:
      first the subtrees of the called expression (the inner `foo()` of
      `foo().bar()`), then the arguments and keywords, as `ast.walk` enters
      them; `callee` only records what is called, for `_extract_calls`. */
  datatype Node =
    | Module(body: seq<Node>)
    | FunctionDef(fn: FuncData, inner: seq<Node>)
    | AsyncFunctionDef(fn: FuncData, inner: seq<Node>)
    | ClassDef(cls: ClassData, head: seq<Node>, body: seq<Node>, tail: seq<Node>)
    | Import(aliases: seq<Alias>)
    | ImportFrom(moduleName: Option<string>, aliases: seq<Alias>, level: nat)
    | Assign(targets: seq<Node>, lineno: nat, value: seq<Node>)
    | Name(id: string)
    | Call(callee: Callee, args: seq<Node>)
    | Other(inner: seq<Node>)

  function Children(n: Node): seq<Node> {
    match n
    case Module(body) => body
    case FunctionDef(_, inner) => inner
    case AsyncFunctionDef(_, inner) => inner
    case ClassDef(_, head, body, tail) => head + body + tail
    case Import(_) => []
    case ImportFrom(_, _, _) => []
    case Assign(targets, _, value) => targets + value
    case Name(_) => []
    case Call(_, args) => args
    case Other(inner) => inner
  }

  /** Number of nodes in a tree. */
  function Size(n: Node): nat {
    match n
    case Module(body) => 1 + SizeSum(body)
    case FunctionDef(_, inner) => 1 + SizeSum(inner)
    case AsyncFunctionDef(_, inner) => 1 + SizeSum(inner)
    case ClassDef(_, head, body, tail) => 1 + SizeSum(head) + SizeSum(body) + SizeSum(tail)
    case Import(_) => 1
    case ImportFrom(_, _, _) => 1
    case Assign(targets, _, value) => 1 + SizeSum(targets) + SizeSum(value)
    case Name(_) => 1
    case Call(_, args) => 1 + SizeSum(args)
    case Other(inner) => 1 + SizeSum(inner)
  }

  function SizeSum(q: seq<Node>): nat {
    if |q| == 0 then 0 else Size(q[0]) + SizeSum(q[1..])
  }

  lemma {:induction false} SizeSumAppend(a: seq<Node>, b: seq<Node>)
    ensures SizeSum(a + b) == SizeSum(a) + SizeSum(b)
    decreases |a|
  {
    if |a| > 0 {
      assert (a + b)[1..] == a[1..] + b;
      SizeSumAppend(a[1..], b);
    } else {
      assert a + b == b;
    }
  }

  lemma SizeChildren(n: Node)
    ensures Size(n) == 1 + SizeSum(Children(n))
  {
    match n
    case ClassDef(_, head, body, tail) =>
      SizeSumAppend(head, body);
      SizeSumAppend(head + body, tail);
    case Assign(targets, _, value) =>
      SizeSumAppend(targets, value);
    case _ =>
  }

  /** Breadth-first traversal of a queue of nodes: take the first node, queue
      its children at the back, and go on until the queue is empty. */
  function WalkQueue(q: seq<Node>): (r: seq<Node>)
    decreases SizeSum(q)
  {
    if |q| == 0 then []
    else
      SizeChildren(q[0]);
      SizeSumAppend(q[1..], Children(q[0]));
      [q[0]] + WalkQueue(q[1..] + Children(q[0]))
  }

  /** Every node of the tree in breadth-first order, the root first. */
  function Walk(n: Node): (r: seq<Node>)
    ensures |r| > 0 && r[0] == n
  {
    SizeChildren(n);
    WalkQueue([n])
  }

  /** Every queued node is visited. */
  lemma {:induction false} QueueInWalk(q: seq<Node>, x: Node)
    requires x in q
    ensures x in WalkQueue(q)
    decreases SizeSum(q)
  {
    SizeChildren(q[0]);
    SizeSumAppend(q[1..], Children(q[0]));
    if x != q[0] {
      QueueInWalk(q[1..] + Children(q[0]), x);
    }
  }

  /** The children of a visited node are visited too. */
  lemma {:induction false} ChildInWalk(q: seq<Node>, n: Node, c: Node)
    requires n in WalkQueue(q) && c in Children(n)
    ensures c in WalkQueue(q)
    decreases SizeSum(q)
  {
    SizeChildren(q[0]);
    SizeSumAppend(q[1..], Children(q[0]));
    var rest := q[1..] + Children(q[0]);
    if n == q[0] {
      QueueInWalk(rest, c);
    } else {
      ChildInWalk(rest, n, c);
    }
  }

  /** Python truthiness of an optional string. */
  predicate Truthy(o: Option<string>) {
    o.Some? && o.value != ""
  }

  /** end - start + 1 when an end line is known (and non-zero), else 0. */
  function NumLines(lineno: nat, endLineno: Option<nat>): int {
    if endLineno.Some? && endLineno.value != 0 then endLineno.value - lineno + 1 else 0
  }

  /** The record's 'type' entry: "method" or "function". */
  datatype FunctionKind = MethodKind | FunctionKind

  function KindText(k: FunctionKind): string {
    match k
    case MethodKind => "method"
    case FunctionKind => "function"
  }

  datatype FunctionInfo = FunctionInfo(
    name: string,
    kind: FunctionKind,
    parentClass: Option<string>,
    parameters: seq<string>,
    returnType: Option<string>,
    docstring: Option<string>,
    lineStart: nat,
    lineEnd: Option<nat>,
    numLines: int,
    calls: seq<string>,
    decorators: seq<string>,
    isAsync: bool)

  datatype ClassInfo = ClassInfo(
    name: string,
    bases: seq<string>,
    docstring: Option<string>,
    lineStart: nat,
    lineEnd: Option<nat>,
    numLines: int,
    numMethods: nat,
    methodNames: seq<string>,
    decorators: seq<string>)

  datatype ImportInfo =
    | ImportRecord(modules: seq<string>, aliasMap: map<string, string>)
    | FromImportRecord(moduleName: Option<string>, names: seq<string>, level: nat)

  datatype VariableInfo = VariableInfo(name: string, line: nat)

  /** The text a call contributes to a call list: the identifier of a
      bare-name callee, the dotted text of an attribute callee, or nothing. */
  function CallText(n: Node): (r: seq<string>)
    ensures |r| <= 1
    ensures |r| == 1 <==> n.Call? && !n.callee.OtherCallee?
  {
    match n
    case Call(NameCallee(id), _) => [id]
    case Call(AttributeCallee(text), _) => [text]
    case _ => []
  }

  /** The calls of a function: each distinct callee text found anywhere in
      its tree, once. */
  function CallsOf(n: Node): (r: seq<string>)
    ensures NoDup(r)
  {
    Dedup(FlatMap(Walk(n), CallText))
  }

  /** A name is in the call list exactly when some call in the tree has it
      as bare-name or attribute callee. */
  lemma CallsOfMeaning(n: Node, x: string)
    ensures x in CallsOf(n) <==>
      exists k :: 0 <= k < |Walk(n)| && Walk(n)[k].Call?
        && (Walk(n)[k].callee == NameCallee(x) || Walk(n)[k].callee == AttributeCallee(x))
  {
    FlatMapIn(Walk(n), CallText, x);
  }

  /** Collects the callee texts of every call in the tree, then drops the
      repeats. */
  method ExtractCalls(n: Node) returns (calls: seq<string>)
    ensures calls == CallsOf(n)
  {
    var w := Walk(n);
    var found: seq<string> := [];
    var i := 0;
    while i < |w|
      invariant 0 <= i <= |w|
      invariant found == FlatMap(w[..i], CallText)
    {
      assert w[..i + 1][..i] == w[..i];
      var child := w[i];
      if child.Call? && child.callee.NameCallee? {
        found := found + [child.callee.id];
      } else if child.Call? && child.callee.AttributeCallee? {
        found := found + [child.callee.text];
      }
      i := i + 1;
    }
    assert w[..i] == w;
    calls := Dedup(found);
  }

  /** The record of a def statement; `parentClass` is the name of the class
      it was found in, if the caller says so. */
  function ExtractFunction(n: Node, parentClass: Option<string>): (r: FunctionInfo)
    requires n.FunctionDef? || n.AsyncFunctionDef?
    ensures r.name == n.fn.name && r.parentClass == parentClass && r.parameters == n.fn.params
    ensures r.kind == MethodKind <==> Truthy(parentClass)
    ensures r.isAsync <==> n.AsyncFunctionDef?
    ensures r.lineStart == n.fn.lineno && r.lineEnd == n.fn.endLineno
    ensures r.lineEnd.Some? && r.lineEnd.value > 0 ==> r.numLines == r.lineEnd.value - r.lineStart + 1
    ensures r.lineEnd.None? ==> r.numLines == 0
    ensures r.calls == CallsOf(n) && NoDup(r.calls)
  {
    FunctionInfo(
      n.fn.name,
      if Truthy(parentClass) then MethodKind else FunctionKind,
      parentClass,
      n.fn.params,
      n.fn.returnType,
      n.fn.docstring,
      n.fn.lineno,
      n.fn.endLineno,
      NumLines(n.fn.lineno, n.fn.endLineno),
      CallsOf(n),
      n.fn.decorators,
      n.AsyncFunctionDef?)
  }

  /** The plain def statements among a class body's items, in order. */
  function PlainDefs(items: seq<Node>): (r: seq<Node>)
    ensures |r| <= |items|
    ensures forall k :: 0 <= k < |r| ==> r[k].FunctionDef?
    decreases |items|
  {
    if |items| == 0 then []
    else
      var t := items[..|items| - 1];
      var last := items[|items| - 1];
      PlainDefs(t) + (if last.FunctionDef? then [last] else [])
  }

  /** Filtering distributes over concatenation. */
  lemma {:induction false} PlainDefsAppend(a: seq<Node>, b: seq<Node>)
    ensures PlainDefs(a + b) == PlainDefs(a) + PlainDefs(b)
    decreases |b|
  {
    if |b| > 0 {
      var t := b[..|b| - 1];
      assert (a + b)[..|a + b| - 1] == a + t;
      assert (a + b)[|a + b| - 1] == b[|b| - 1];
      PlainDefsAppend(a, t);
    } else {
      assert a + b == a;
    }
  }

  /** Names of the plain def statements among a class body's items: one
      name per plain def, in body order, repeats kept. */
  function MethodNames(items: seq<Node>): (r: seq<string>)
    ensures |r| == |PlainDefs(items)| <= |items|
    ensures forall i :: 0 <= i < |r| ==> r[i] == PlainDefs(items)[i].fn.name
    ensures forall x :: x in r <==> exists k :: 0 <= k < |items| && items[k].FunctionDef? && items[k].fn.name == x
    decreases |items|
  {
    if |items| == 0 then []
    else
      var t := items[..|items| - 1];
      var last := items[|items| - 1];
      var r := MethodNames(t) + (if last.FunctionDef? then [last.fn.name] else []);
      assert forall k :: 0 <= k < |t| ==> t[k] == items[k];
      r
  }

  function ExtractClass(n: Node): (r: ClassInfo)
    requires n.ClassDef?
    ensures r.name == n.cls.name && r.bases == n.cls.bases && r.docstring == n.cls.docstring
    ensures r.numMethods == |r.methodNames| == |PlainDefs(n.body)| <= |n.body|
    ensures forall i :: 0 <= i < |r.methodNames| ==> r.methodNames[i] == PlainDefs(n.body)[i].fn.name
    ensures forall x :: x in r.methodNames <==>
      exists k :: 0 <= k < |n.body| && n.body[k].FunctionDef? && n.body[k].fn.name == x
    ensures r.lineStart == n.cls.lineno && r.lineEnd == n.cls.endLineno
    ensures r.lineEnd.Some? && r.lineEnd.value > 0 ==> r.numLines == r.lineEnd.value - r.lineStart + 1
    ensures r.lineEnd.None? ==> r.numLines == 0
  {
    var names := MethodNames(n.body);
    ClassInfo(
      n.cls.name,
      n.cls.bases,
      n.cls.docstring,
      n.cls.lineno,
      n.cls.endLineno,
      NumLines(n.cls.lineno, n.cls.endLineno),
      |names|,
      names,
      n.cls.decorators)
  }

  /** The alias map of an `import` statement: each name that has a non-empty
      `as` name, mapped to the `as` name of the last item with that name
      that has one. */
  function AliasMap(aliases: seq<Alias>): (m: map<string, string>)
    ensures forall x :: x in m <==> exists k :: 0 <= k < |aliases| && aliases[k].name == x && Truthy(aliases[k].asname)
    decreases |aliases|
  {
    if |aliases| == 0 then map[]
    else
      var t := aliases[..|aliases| - 1];
      var last := aliases[|aliases| - 1];
      assert forall k :: 0 <= k < |t| ==> t[k] == aliases[k];
      if Truthy(last.asname) then AliasMap(t)[last.name := last.asname.value] else AliasMap(t)
  }

  /** Item k is the last item named x with a non-empty `as` name, and that
      name is v. */
  predicate LastAlias(aliases: seq<Alias>, x: string, k: int, v: string) {
    0 <= k < |aliases| && aliases[k].name == x && aliases[k].asname == Some(v) && v != ""
    && forall j :: k < j < |aliases| && aliases[j].name == x ==> !Truthy(aliases[j].asname)
  }

  /** The value of a name in the alias map is the non-empty `as` name of
      the last item with that name that has one. */
  lemma {:induction false} AliasMapLast(aliases: seq<Alias>, x: string)
    requires x in AliasMap(aliases)
    ensures exists k :: LastAlias(aliases, x, k, AliasMap(aliases)[x])
    decreases |aliases|
  {
    assert |aliases| > 0;
    var t := aliases[..|aliases| - 1];
    var last := aliases[|aliases| - 1];
    if Truthy(last.asname) && x == last.name {
      assert LastAlias(aliases, x, |aliases| - 1, AliasMap(aliases)[x]);
    } else {
      assert AliasMap(aliases)[x] == AliasMap(t)[x];
      AliasMapLast(t, x);
      var k :| LastAlias(t, x, k, AliasMap(t)[x]);
      assert aliases[k] == t[k];
      assert forall j :: k < j < |t| ==> aliases[j] == t[j];
      assert LastAlias(aliases, x, k, AliasMap(aliases)[x]);
    }
  }

  function AliasNames(aliases: seq<Alias>): (r: seq<string>)
    ensures |r| == |aliases| && forall k :: 0 <= k < |r| ==> r[k] == aliases[k].name
  {
    seq(|aliases|, k requires 0 <= k < |aliases| => aliases[k].name)
  }

  function ExtractImport(n: Node): (r: ImportInfo)
    requires n.Import? || n.ImportFrom?
    ensures r.ImportRecord? <==> n.Import?
    ensures r.ImportRecord? ==> r.modules == AliasNames(n.aliases) && r.aliasMap == AliasMap(n.aliases)
    ensures r.FromImportRecord? ==> r.moduleName == n.moduleName && r.names == AliasNames(n.aliases) && r.level == n.level
  {
    if n.Import? then ImportRecord(AliasNames(n.aliases), AliasMap(n.aliases))
    else FromImportRecord(n.moduleName, AliasNames(n.aliases), n.level)
  }

  /** An assignment yields a variable record exactly when its first target
      is a plain name. */
  function ExtractVariable(n: Node): (r: Option<VariableInfo>)
    requires n.Assign?
    ensures r.Some? <==> |n.targets| > 0 && n.targets[0].Name?
    ensures r.Some? ==> r.value == VariableInfo(n.targets[0].id, n.lineno)
  {
    if |n.targets| > 0 && n.targets[0].Name? then Some(VariableInfo(n.targets[0].id, n.lineno))
    else None
  }

  /** The function records one visited node contributes: a plain def gives
      its own record with the walk's parent class; a class gives one record
      per plain def directly in its body, with the class as parent. */
  function NodeFunctions(n: Node, parentClass: Option<string>): seq<FunctionInfo> {
    if n.FunctionDef? then [ExtractFunction(n, parentClass)]
    else if n.ClassDef? then MethodRecords(n.body, n.cls.name)
    else []
  }

  function MethodRecord(item: Node, className: string): seq<FunctionInfo> {
    if item.FunctionDef? then [ExtractFunction(item, Some(className))] else []
  }

  function MethodRecords(items: seq<Node>, className: string): seq<FunctionInfo> {
    FlatMap(items, (item: Node) => MethodRecord(item, className))
  }

  function NodeClasses(n: Node): seq<ClassInfo> {
    if n.ClassDef? then [ExtractClass(n)] else []
  }

  function NodeImports(n: Node): seq<ImportInfo> {
    if n.Import? || n.ImportFrom? then [ExtractImport(n)] else []
  }

  /** An assignment contributes a variable when the walk started at a module. */
  function NodeGlobals(n: Node, rootIsModule: bool): seq<VariableInfo> {
    if n.Assign? && rootIsModule then
      (match ExtractVariable(n) case Some(v) => [v] case None => [])
    else []
  }

  function FunctionsIn(w: seq<Node>, parentClass: Option<string>): seq<FunctionInfo> {
    FlatMap(w, (n: Node) => NodeFunctions(n, parentClass))
  }

  function ClassesIn(w: seq<Node>): seq<ClassInfo> { FlatMap(w, NodeClasses) }

  function ImportsIn(w: seq<Node>): seq<ImportInfo> { FlatMap(w, NodeImports) }

  function GlobalsIn(w: seq<Node>, rootIsModule: bool): seq<VariableInfo> {
    FlatMap(w, (n: Node) => NodeGlobals(n, rootIsModule))
  }

  /** The four lists the extractor fills. */
  datatype Lists = Lists(
    functions: seq<FunctionInfo>,
    classes: seq<ClassInfo>,
    imports: seq<ImportInfo>,
    globalVars: seq<VariableInfo>)

  /** The lists after visiting one more node. */
  function VisitNode(l: Lists, n: Node, parentClass: Option<string>, rootIsModule: bool): Lists {
    Lists(l.functions + NodeFunctions(n, parentClass), l.classes + NodeClasses(n),
          l.imports + NodeImports(n), l.globalVars + NodeGlobals(n, rootIsModule))
  }

  /** The lists after visiting the nodes of w in order. */
  function VisitAll(l: Lists, w: seq<Node>, parentClass: Option<string>, rootIsModule: bool): Lists
    decreases |w|
  {
    if |w| == 0 then l else VisitNode(VisitAll(l, w[..|w| - 1], parentClass, rootIsModule), w[|w| - 1], parentClass, rootIsModule)
  }

  /** Visiting one more node of w extends the lists by that node's part. */
  lemma VisitAllNext(l: Lists, w: seq<Node>, i: int, parentClass: Option<string>, rootIsModule: bool)
    requires 0 <= i < |w|
    ensures VisitAll(l, w[..i + 1], parentClass, rootIsModule)
         == VisitNode(VisitAll(l, w[..i], parentClass, rootIsModule), w[i], parentClass, rootIsModule)
  {
    assert w[..i + 1][..i] == w[..i];
  }

  lemma FunctionsInSnoc(w: seq<Node>, parentClass: Option<string>)
    requires |w| > 0
    ensures FunctionsIn(w, parentClass) == FunctionsIn(w[..|w| - 1], parentClass) + NodeFunctions(w[|w| - 1], parentClass)
  {
  }

  lemma {:induction false} VisitAllFunctions(l: Lists, w: seq<Node>, parentClass: Option<string>, rootIsModule: bool)
    ensures VisitAll(l, w, parentClass, rootIsModule).functions == l.functions + FunctionsIn(w, parentClass)
    decreases |w|
  {
    if |w| > 0 {
      VisitAllFunctions(l, w[..|w| - 1], parentClass, rootIsModule);
      FunctionsInSnoc(w, parentClass);
    }
  }

  lemma {:induction false} VisitAllClasses(l: Lists, w: seq<Node>, parentClass: Option<string>, rootIsModule: bool)
    ensures VisitAll(l, w, parentClass, rootIsModule).classes == l.classes + ClassesIn(w)
    decreases |w|
  {
    if |w| > 0 {
      VisitAllClasses(l, w[..|w| - 1], parentClass, rootIsModule);
    }
  }

  lemma {:induction false} VisitAllImports(l: Lists, w: seq<Node>, parentClass: Option<string>, rootIsModule: bool)
    ensures VisitAll(l, w, parentClass, rootIsModule).imports == l.imports + ImportsIn(w)
    decreases |w|
  {
    if |w| > 0 {
      VisitAllImports(l, w[..|w| - 1], parentClass, rootIsModule);
    }
  }

  lemma {:induction false} VisitAllGlobals(l: Lists, w: seq<Node>, parentClass: Option<string>, rootIsModule: bool)
    ensures VisitAll(l, w, parentClass, rootIsModule).globalVars == l.globalVars + GlobalsIn(w, rootIsModule)
    decreases |w|
  {
    if |w| > 0 {
      VisitAllGlobals(l, w[..|w| - 1], parentClass, rootIsModule);
    }
  }

  lemma MethodRecordsStep(items: seq<Node>, j: nat, className: string)
    requires j < |items|
    ensures MethodRecords(items[..j + 1], className) == MethodRecords(items[..j], className) + MethodRecord(items[j], className)
  {
    assert items[..j + 1][..j] == items[..j];
  }

  /** What parsing one file returns. */
  datatype ParseResult = ParseResult(
    filepath: string,
    functions: seq<FunctionInfo>,
    classes: seq<ClassInfo>,
    imports: seq<ImportInfo>,
    globalVariables: seq<VariableInfo>,
    totalFunctions: nat,
    totalClasses: nat)

  /** How the parser library's call ended: a module, a syntax error, or any
      other exception. */
  datatype ParseOutcome = Parsed(body: seq<Node>) | SyntaxError | ParseFailure

  function EmptyResult(filepath: string): (r: ParseResult)
    ensures r.filepath == filepath
    ensures r.functions == [] && r.classes == [] && r.imports == [] && r.globalVariables == []
    ensures r.totalFunctions == 0 && r.totalClasses == 0
  {
    ParseResult(filepath, [], [], [], [], 0, 0)
  }

  /** The result of parsing a file whose parse ended with `outcome`. */
  function ResultOf(filepath: string, outcome: ParseOutcome): (r: ParseResult)
    ensures r.filepath == filepath
    ensures r.totalFunctions == |r.functions| && r.totalClasses == |r.classes|
    ensures !outcome.Parsed? ==> r == EmptyResult(filepath)
  {
    match outcome
    case Parsed(body) =>
      var w := Walk(Module(body));
      var fs := FunctionsIn(w, None);
      var cs := ClassesIn(w);
      ParseResult(filepath, fs, cs, ImportsIn(w), GlobalsIn(w, true), |fs|, |cs|)
    case _ => EmptyResult(filepath)
  }

  /** Each def statement directly in a class body is recorded twice: once
      from the walk with no parent class, once from its class. */
  lemma MethodRecordedTwice(filepath: string, body: seq<Node>, c: Node, k: nat)
    requires c in Walk(Module(body)) && c.ClassDef?
    requires k < |c.body| && c.body[k].FunctionDef?
    ensures ExtractFunction(c.body[k], None) in ResultOf(filepath, Parsed(body)).functions
    ensures ExtractFunction(c.body[k], Some(c.cls.name)) in ResultOf(filepath, Parsed(body)).functions
  {
    var w := Walk(Module(body));
    var m := c.body[k];
    assert m in Children(c);
    ChildInWalk([Module(body)], c, m);
    var i :| 0 <= i < |w| && w[i] == m;
    var j :| 0 <= j < |w| && w[j] == c;
    var f := (n: Node) => NodeFunctions(n, None);
    FlatMapIn(w, f, ExtractFunction(m, None));
    FlatMapIn(c.body, (item: Node) => MethodRecord(item, c.cls.name), ExtractFunction(m, Some(c.cls.name)));
    assert ExtractFunction(m, Some(c.cls.name)) in f(w[j]);
    FlatMapIn(w, f, ExtractFunction(m, Some(c.cls.name)));
  }

  /** Only plain def statements are extracted, so no record is asynchronous. */
  lemma NeverAsync(filepath: string, body: seq<Node>, r: FunctionInfo)
    requires r in ResultOf(filepath, Parsed(body)).functions
    ensures !r.isAsync
  {
    var w := Walk(Module(body));
    FlatMapIn(w, (n: Node) => NodeFunctions(n, None), r);
    var k :| 0 <= k < |w| && r in NodeFunctions(w[k], None);
    if w[k].ClassDef? {
      FlatMapIn(w[k].body, (item: Node) => MethodRecord(item, w[k].cls.name), r);
    }
  }

  /** A function record with a parent class is a method record of a class
      that was visited. */
  lemma MethodRecordOrigin(filepath: string, body: seq<Node>, r: FunctionInfo)
    requires r in ResultOf(filepath, Parsed(body)).functions && r.parentClass.Some?
    ensures exists c :: c in Walk(Module(body)) && c.ClassDef? && c.cls.name == r.parentClass.value
  {
    var w := Walk(Module(body));
    FlatMapIn(w, (n: Node) => NodeFunctions(n, None), r);
    var k :| 0 <= k < |w| && r in NodeFunctions(w[k], None);
    if w[k].ClassDef? {
      FlatMapIn(w[k].body, (item: Node) => MethodRecord(item, w[k].cls.name), r);
    }
    assert w[k] in w;
  }

  /** Every assignment anywhere in the module whose first target is a plain
      name is a global-variable record, and every record comes from one. */
  lemma GlobalsAreAssignments(filepath: string, body: seq<Node>, v: VariableInfo)
    ensures v in ResultOf(filepath, Parsed(body)).globalVariables <==>
      exists a :: a in Walk(Module(body)) && a.Assign? && |a.targets| > 0
        && a.targets[0] == Name(v.name) && a.lineno == v.line
  {
    var w := Walk(Module(body));
    var g := (n: Node) => NodeGlobals(n, true);
    FlatMapIn(w, g, v);
    if exists a :: a in w && a.Assign? && |a.targets| > 0 && a.targets[0] == Name(v.name) && a.lineno == v.line {
      var a :| a in w && a.Assign? && |a.targets| > 0 && a.targets[0] == Name(v.name) && a.lineno == v.line;
      var k :| 0 <= k < |w| && w[k] == a;
      assert v in g(w[k]);
    }
  }

  /** The extractor's lists; they are reset by every successful parse. */
  class Parser {
    var functions: seq<FunctionInfo>
    var classes: seq<ClassInfo>
    var imports: seq<ImportInfo>
    var globalVars: seq<VariableInfo>

    constructor()
      ensures functions == [] && classes == [] && imports == [] && globalVars == []
    {
      functions, classes, imports, globalVars := [], [], [], [];
    }

    /** Visits every node under `node` breadth first and appends what each
        contributes to the four lists. */
    method AnalyzeNode(node: Node, parentClass: Option<string>)
      modifies this
      ensures Lists(functions, classes, imports, globalVars)
           == VisitAll(old(Lists(functions, classes, imports, globalVars)), Walk(node), parentClass, node.Module?)
    {
      var w := Walk(node);
      ghost var start := Lists(functions, classes, imports, globalVars);
      var i := 0;
      while i < |w|
        invariant 0 <= i <= |w|
        invariant Lists(functions, classes, imports, globalVars) == VisitAll(start, w[..i], parentClass, node.Module?)
      {
        VisitAllNext(start, w, i, parentClass, node.Module?);
        Visit(w[i], parentClass, node.Module?);
        i := i + 1;
      }
      assert w[..i] == w;
    }

    /** Appends what one visited node contributes to the lists. */
    method Visit(child: Node, parentClass: Option<string>, rootIsModule: bool)
      modifies this
      ensures Lists(functions, classes, imports, globalVars)
           == VisitNode(old(Lists(functions, classes, imports, globalVars)), child, parentClass, rootIsModule)
    {
      if child.FunctionDef? {
        assert NodeClasses(child) == [] && NodeImports(child) == [] && NodeGlobals(child, rootIsModule) == [];
        assert NodeFunctions(child, parentClass) == [ExtractFunction(child, parentClass)];
        functions := functions + [ExtractFunction(child, parentClass)];
      } else if child.ClassDef? {
        assert NodeImports(child) == [] && NodeGlobals(child, rootIsModule) == [];
        assert NodeFunctions(child, parentClass) == MethodRecords(child.body, child.cls.name);
        assert NodeClasses(child) == [ExtractClass(child)];
        classes := classes + [ExtractClass(child)];
        RecordMethods(child);
      } else if child.Import? || child.ImportFrom? {
        assert NodeFunctions(child, parentClass) == [] && NodeClasses(child) == [] && NodeGlobals(child, rootIsModule) == [];
        assert NodeImports(child) == [ExtractImport(child)];
        imports := imports + [ExtractImport(child)];
      } else {
        assert NodeFunctions(child, parentClass) == [] && NodeClasses(child) == [] && NodeImports(child) == [];
        if child.Assign? && rootIsModule {
          var v := ExtractVariable(child);
          if v.Some? {
            globalVars := globalVars + [v.value];
          }
        }
      }
    }

    /** Appends a record for each plain def directly in a class body, with
        the class as parent. */
    method RecordMethods(c: Node)
      requires c.ClassDef?
      modifies this
      ensures functions == old(functions) + MethodRecords(c.body, c.cls.name)
      ensures classes == old(classes) && imports == old(imports) && globalVars == old(globalVars)
    {
      var j := 0;
      while j < |c.body|
        invariant 0 <= j <= |c.body|
        invariant functions == old(functions) + MethodRecords(c.body[..j], c.cls.name)
        invariant classes == old(classes) && imports == old(imports) && globalVars == old(globalVars)
      {
        MethodRecordsStep(c.body, j, c.cls.name);
        var item := c.body[j];
        if item.FunctionDef? {
          functions := functions + [ExtractFunction(item, Some(c.cls.name))];
        }
        j := j + 1;
      }
      assert c.body[..j] == c.body;
    }

    /** Parses one file. On success the lists are reset and refilled from
        the module; on any failure of the parser the lists keep their old
        contents and the empty result is returned. */
    method ParseFile(filepath: string, outcome: ParseOutcome) returns (r: ParseResult)
      modifies this
      ensures r == ResultOf(filepath, outcome)
      ensures outcome.Parsed? ==>
                functions == r.functions && classes == r.classes
                && imports == r.imports && globalVars == r.globalVariables
      ensures !outcome.Parsed? ==> unchanged(this)
    {
      match outcome
      case Parsed(body) =>
        functions, classes, imports, globalVars := [], [], [], [];
        ghost var empty := Lists([], [], [], []);
        AnalyzeNode(Module(body), None);
        ghost var w := Walk(Module(body));
        VisitAllFunctions(empty, w, None, true);
        VisitAllClasses(empty, w, None, true);
        VisitAllImports(empty, w, None, true);
        VisitAllGlobals(empty, w, None, true);
        r := ParseResult(filepath, functions, classes, imports, globalVars, |functions|, |classes|);
      case SyntaxError =>
        r := EmptyResult(filepath);
      case ParseFailure =>
        r := EmptyResult(filepath);
    }
  }
}
