/** The function call graph. A first pass registers every function record as
    a node named "file::Class.name" (methods) or "file::name"; a second pass
    resolves every call of every function, local definitions first and a
    repository-wide name search otherwise, and adds an edge to each resolved
    callee that is a node. The builder keeps its graph, its call sets and its
    definitions across calls. The analysis ranks functions by in- and
    out-degree, lists functions on short cycles and counts dead ends; call
    chains are enumerated by a bounded depth-first search that never
    revisits a node. */
module CallGraphBuilder {
  import opened Seqs
  import opened Text
  import opened AstParser
  import opened Digraph
  import opened Ranking

  // ---------------------------------------------------------------------
  // Identifiers and definitions
  // ---------------------------------------------------------------------

  /** "file::Class.name" for a record with a (non-empty) parent class,
      "file::name" otherwise. */
  function FuncId(filepath: string, f: FunctionInfo): string {
    if Truthy(f.parentClass) then filepath + "::" + f.parentClass.value + "." + f.name
    else filepath + "::" + f.name
  }

  /** The id a call to `name` from `filepath` would have inside class c. */
  function ClassId(filepath: string, c: string, name: string): string {
    filepath + "::" + c + "." + name
  }

  /** The id of a free function `name` of `filepath`. */
  function LocalId(filepath: string, name: string): string {
    filepath + "::" + name
  }

  /** Every id ends with "::name" or ".name" for its function's name, so the
      repository-wide search can find it. */
  lemma FuncIdSuffix(filepath: string, f: FunctionInfo)
    ensures EndsWith(FuncId(filepath, f), "::" + f.name) || EndsWith(FuncId(filepath, f), "." + f.name)
    ensures FuncId(filepath, f) == if Truthy(f.parentClass) then ClassId(filepath, f.parentClass.value, f.name)
                                   else LocalId(filepath, f.name)
  {
    var id := FuncId(filepath, f);
    if Truthy(f.parentClass) {
      assert id == (filepath + "::" + f.parentClass.value) + ("." + f.name);
      assert id[|id| - |"." + f.name|..] == "." + f.name;
    } else {
      assert id == filepath + ("::" + f.name);
      assert id[|id| - |"::" + f.name|..] == "::" + f.name;
    }
  }

  /** What the builder records about a function. The record type of the
      parser has no 'complexity' entry, so the stored complexity is always
      the default 0. */
  datatype Definition = Definition(
    name: string, file: string, className: Option<string>, line: nat, complexity: int)

  function DefOf(filepath: string, f: FunctionInfo): Definition {
    Definition(f.name, filepath, f.parentClass, f.lineStart, 0)
  }

  /** An insertion-ordered dictionary from id to definition: the keys in the
      order they were first inserted, and the entries. */
  datatype Defs = Defs(order: seq<string>, entries: map<string, Definition>)

  ghost predicate DefsValid(d: Defs) {
    NoDup(d.order) && forall k :: k in d.order <==> k in d.entries
  }

  /** d[k] = v: a new key goes to the end, an existing one keeps its place. */
  function Put(d: Defs, k: string, v: Definition): (r: Defs)
    ensures r.entries == d.entries[k := v]
    ensures DefsValid(d) ==> DefsValid(r)
  {
    Defs(if k in d.entries then d.order else d.order + [k], d.entries[k := v])
  }

  /** dict.get(id, {}).get('name', 'unknown'). */
  function NameOf(d: Defs, id: string): string {
    if id in d.entries then d.entries[id].name else "unknown"
  }

  // ---------------------------------------------------------------------
  // The builder's state and the first pass (_collect_functions)
  // ---------------------------------------------------------------------

  datatype CgState = CgState(graph: Graph, functionCalls: map<string, set<string>>, definitions: Defs)

  /** The graph is valid and its nodes are the definitions' keys in the same
      order; the call sets hold exactly the edges, and none is empty. */
  ghost predicate CgValid(st: CgState) {
    && Digraph.Valid(st.graph)
    && DefsValid(st.definitions)
    && st.graph.nodes == st.definitions.order
    && (forall u, v :: (u, v) in st.graph.edges <==> u in st.functionCalls && v in st.functionCalls[u])
    && (forall u :: u in st.functionCalls ==> st.functionCalls[u] != {})
  }

  /** One function record: its definition is stored and its node added. */
  function Register(st: CgState, filepath: string, f: FunctionInfo): (r: CgState)
    requires Digraph.Valid(st.graph)
    ensures Digraph.Valid(r.graph)
  {
    var id := FuncId(filepath, f);
    CgState(AddNode(st.graph, id), st.functionCalls, Put(st.definitions, id, DefOf(filepath, f)))
  }

  function RegisterAll(st: CgState, filepath: string, fs: seq<FunctionInfo>): (r: CgState)
    requires Digraph.Valid(st.graph)
    ensures Digraph.Valid(r.graph)
    decreases |fs|
  {
    if |fs| == 0 then st
    else Register(RegisterAll(st, filepath, fs[..|fs| - 1]), filepath, fs[|fs| - 1])
  }

  function CollectFiles(st: CgState, files: seq<ParseResult>): (r: CgState)
    requires Digraph.Valid(st.graph)
    ensures Digraph.Valid(r.graph)
    decreases |files|
  {
    if |files| == 0 then st
    else
      var last := files[|files| - 1];
      RegisterAll(CollectFiles(st, files[..|files| - 1]), last.filepath, last.functions)
  }

  // ---------------------------------------------------------------------
  // _resolve_call
  // ---------------------------------------------------------------------

  /** A dotted call is looked up by the text after its last '.'. */
  function MethodName(call: string): (r: string)
    ensures '.' !in r
    ensures EndsWith(call, r)
    ensures '.' !in call ==> r == call
  {
    if '.' in call then LastPiece(call, '.') else call
  }

  /** The class-context candidates: "file::C.name" for the parent class C of
      each method record of the file, in record order, when defined. */
  function ClassCandidates(filepath: string, name: string, fs: seq<FunctionInfo>, d: Defs): seq<string>
    decreases |fs|
  {
    if |fs| == 0 then []
    else
      var last := fs[|fs| - 1];
      ClassCandidates(filepath, name, fs[..|fs| - 1], d)
        + (if Truthy(last.parentClass) && ClassId(filepath, last.parentClass.value, name) in d.entries
           then [ClassId(filepath, last.parentClass.value, name)] else [])
  }

  /** The repository-wide search: every id ending in "::name" or ".name", in
      dictionary order. */
  function SuffixMatches(name: string, ids: seq<string>): seq<string>
    decreases |ids|
  {
    if |ids| == 0 then []
    else
      var last := ids[|ids| - 1];
      SuffixMatches(name, ids[..|ids| - 1])
        + (if EndsWith(last, "::" + name) || EndsWith(last, "." + name) then [last] else [])
  }

  /** The local file's function, then the class-context candidates, and only
      when neither exists the repository-wide search. */
  function Resolution(call: string, filepath: string, fs: seq<FunctionInfo>, d: Defs): seq<string> {
    var name := MethodName(call);
    var found := (if LocalId(filepath, name) in d.entries then [LocalId(filepath, name)] else [])
                 + ClassCandidates(filepath, name, fs, d);
    if |found| > 0 then found else SuffixMatches(name, d.order)
  }

  // ---------------------------------------------------------------------
  // The second pass (_build_calls)
  // ---------------------------------------------------------------------

  /** An edge and a call-set entry, for a callee that is a node. */
  function AddCall(st: CgState, caller: string, callee: string): (r: CgState)
    requires Digraph.Valid(st.graph)
    ensures Digraph.Valid(r.graph)
    ensures r.definitions == st.definitions
  {
    if callee in st.graph.nodes then
      CgState(AddEdge(st.graph, caller, callee),
              st.functionCalls[caller := SetAt(st.functionCalls, caller) + {callee}],
              st.definitions)
    else st
  }

  function AddCalls(st: CgState, caller: string, callees: seq<string>): (r: CgState)
    requires Digraph.Valid(st.graph)
    ensures Digraph.Valid(r.graph)
    ensures r.definitions == st.definitions
    decreases |callees|
  {
    if |callees| == 0 then st
    else AddCall(AddCalls(st, caller, callees[..|callees| - 1]), caller, callees[|callees| - 1])
  }

  /** The calls of one function, each resolved against the definitions `d`. */
  function AddFunctionCalls(st: CgState, caller: string, calls: seq<string>,
                            filepath: string, fs: seq<FunctionInfo>, d: Defs): (r: CgState)
    requires Digraph.Valid(st.graph)
    ensures Digraph.Valid(r.graph)
    ensures r.definitions == st.definitions
    decreases |calls|
  {
    if |calls| == 0 then st
    else
      AddCalls(AddFunctionCalls(st, caller, calls[..|calls| - 1], filepath, fs, d), caller,
               Resolution(calls[|calls| - 1], filepath, fs, d))
  }

  /** The functions `todo` of a file whose records are `fs`. */
  function AddFileCalls(st: CgState, filepath: string, todo: seq<FunctionInfo>,
                        fs: seq<FunctionInfo>, d: Defs): (r: CgState)
    requires Digraph.Valid(st.graph)
    ensures Digraph.Valid(r.graph)
    ensures r.definitions == st.definitions
    decreases |todo|
  {
    if |todo| == 0 then st
    else
      var f := todo[|todo| - 1];
      AddFunctionCalls(AddFileCalls(st, filepath, todo[..|todo| - 1], fs, d), FuncId(filepath, f),
                       f.calls, filepath, fs, d)
  }

  function BuildFiles(st: CgState, files: seq<ParseResult>, d: Defs): (r: CgState)
    requires Digraph.Valid(st.graph)
    ensures Digraph.Valid(r.graph)
    ensures r.definitions == st.definitions
    decreases |files|
  {
    if |files| == 0 then st
    else
      var last := files[|files| - 1];
      AddFileCalls(BuildFiles(st, files[..|files| - 1], d), last.filepath, last.functions, last.functions, d)
  }

  /** Both passes, the second resolving against the definitions the first
      left. */
  function BuildAll(st: CgState, files: seq<ParseResult>): (r: CgState)
    requires Digraph.Valid(st.graph)
    ensures Digraph.Valid(r.graph)
  {
    var collected := CollectFiles(st, files);
    BuildFiles(collected, files, collected.definitions)
  }

  // ---------------------------------------------------------------------
  // What resolution finds
  // ---------------------------------------------------------------------

  /** x is "file::C.name" for the parent class C of some method record. */
  predicate ClassCandidate(filepath: string, name: string, fs: seq<FunctionInfo>, x: string) {
    exists f :: f in fs && Truthy(f.parentClass) && x == ClassId(filepath, f.parentClass.value, name)
  }

  /** The local lookups find something: the free function, or a method of
      one of the file's classes. */
  predicate LocalFound(filepath: string, name: string, fs: seq<FunctionInfo>, d: Defs) {
    || LocalId(filepath, name) in d.entries
    || exists f :: f in fs && Truthy(f.parentClass) && ClassId(filepath, f.parentClass.value, name) in d.entries
  }

  lemma {:induction false} ClassCandidatesIff(filepath: string, name: string, fs: seq<FunctionInfo>, d: Defs, x: string)
    ensures x in ClassCandidates(filepath, name, fs, d) <==> x in d.entries && ClassCandidate(filepath, name, fs, x)
    decreases |fs|
  {
    if |fs| > 0 {
      var init := fs[..|fs| - 1];
      ClassCandidatesIff(filepath, name, init, d, x);
      assert forall f :: f in fs <==> f in init || f == fs[|fs| - 1];
    }
  }

  lemma {:induction false} SuffixMatchesIff(name: string, ids: seq<string>, x: string)
    ensures x in SuffixMatches(name, ids) <==> x in ids && (EndsWith(x, "::" + name) || EndsWith(x, "." + name))
    decreases |ids|
  {
    if |ids| > 0 {
      SuffixMatchesIff(name, ids[..|ids| - 1], x);
      assert forall y :: y in ids <==> y in ids[..|ids| - 1] || y == ids[|ids| - 1];
    }
  }

  /** The class-context lookup is empty exactly when no method record's
      class has the name defined. */
  lemma ClassCandidatesEmpty(filepath: string, name: string, fs: seq<FunctionInfo>, d: Defs)
    ensures |ClassCandidates(filepath, name, fs, d)| > 0 <==>
      exists f :: f in fs && Truthy(f.parentClass) && ClassId(filepath, f.parentClass.value, name) in d.entries
  {
    var cs := ClassCandidates(filepath, name, fs, d);
    if |cs| > 0 {
      ClassCandidatesIff(filepath, name, fs, d, cs[0]);
    }
    if exists f :: f in fs && Truthy(f.parentClass) && ClassId(filepath, f.parentClass.value, name) in d.entries {
      var f :| f in fs && Truthy(f.parentClass) && ClassId(filepath, f.parentClass.value, name) in d.entries;
      ClassCandidatesIff(filepath, name, fs, d, ClassId(filepath, f.parentClass.value, name));
    }
  }

  /** Resolution of a call to (the last dotted piece) `name`: when either
      local lookup succeeds, the result is the defined local candidates,
      the free function first; only otherwise is it every defined id ending
      in "::name" or ".name". */
  lemma ResolutionIff(call: string, filepath: string, fs: seq<FunctionInfo>, d: Defs, x: string)
    requires DefsValid(d)
    ensures x in Resolution(call, filepath, fs, d) <==>
      x in d.entries &&
      if LocalFound(filepath, MethodName(call), fs, d)
      then x == LocalId(filepath, MethodName(call)) || ClassCandidate(filepath, MethodName(call), fs, x)
      else EndsWith(x, "::" + MethodName(call)) || EndsWith(x, "." + MethodName(call))
    ensures LocalId(filepath, MethodName(call)) in d.entries ==>
      Resolution(call, filepath, fs, d)[0] == LocalId(filepath, MethodName(call))
  {
    var name := MethodName(call);
    ClassCandidatesIff(filepath, name, fs, d, x);
    ClassCandidatesEmpty(filepath, name, fs, d);
    SuffixMatchesIff(name, d.order, x);
  }

  /** When the local lookups fail, the repository-wide search finds every
      registered function with the called name. */
  lemma FallbackFindsNamed(call: string, filepath: string, fs: seq<FunctionInfo>, d: Defs,
                           otherFile: string, g: FunctionInfo)
    requires DefsValid(d)
    requires !LocalFound(filepath, MethodName(call), fs, d)
    requires FuncId(otherFile, g) in d.entries && g.name == MethodName(call)
    ensures FuncId(otherFile, g) in Resolution(call, filepath, fs, d)
  {
    FuncIdSuffix(otherFile, g);
    ResolutionIff(call, filepath, fs, d, FuncId(otherFile, g));
  }

  lemma ResolutionWithin(call: string, filepath: string, fs: seq<FunctionInfo>, d: Defs, x: string)
    requires DefsValid(d) && x in Resolution(call, filepath, fs, d)
    ensures x in d.entries
  {
    ResolutionIff(call, filepath, fs, d, x);
  }

  // ---------------------------------------------------------------------
  // What the passes do to the state
  // ---------------------------------------------------------------------

  /** The ids of a file's function records, in record order. */
  function Ids(filepath: string, fs: seq<FunctionInfo>): (r: seq<string>)
    ensures |r| == |fs|
    ensures forall j :: 0 <= j < |fs| ==> r[j] == FuncId(filepath, fs[j])
  {
    seq(|fs|, j requires 0 <= j < |fs| => FuncId(filepath, fs[j]))
  }

  function FileIds(file: ParseResult): seq<string> { Ids(file.filepath, file.functions) }

  /** Every id the files' records produce. */
  function AllIds(files: seq<ParseResult>): seq<string> { FlatMap(files, FileIds) }

  lemma RegisterValid(st: CgState, filepath: string, f: FunctionInfo)
    requires CgValid(st)
    ensures CgValid(Register(st, filepath, f))
  {
  }

  lemma {:induction false} RegisterAllValid(st: CgState, filepath: string, fs: seq<FunctionInfo>)
    requires CgValid(st)
    ensures CgValid(RegisterAll(st, filepath, fs))
    decreases |fs|
  {
    if |fs| > 0 {
      RegisterAllValid(st, filepath, fs[..|fs| - 1]);
      RegisterValid(RegisterAll(st, filepath, fs[..|fs| - 1]), filepath, fs[|fs| - 1]);
    }
  }

  /** The first pass keeps the state consistent. */
  lemma {:induction false} CollectValid(st: CgState, files: seq<ParseResult>)
    requires CgValid(st)
    ensures CgValid(CollectFiles(st, files))
    decreases |files|
  {
    if |files| > 0 {
      CollectValid(st, files[..|files| - 1]);
      var last := files[|files| - 1];
      RegisterAllValid(CollectFiles(st, files[..|files| - 1]), last.filepath, last.functions);
    }
  }

  /** The ids of one more record end with its id. */
  lemma IdsSnoc(filepath: string, fs: seq<FunctionInfo>)
    requires |fs| > 0
    ensures forall n :: n in Ids(filepath, fs) <==> n in Ids(filepath, fs[..|fs| - 1]) || n == FuncId(filepath, fs[|fs| - 1])
  {
    assert Ids(filepath, fs) == Ids(filepath, fs[..|fs| - 1]) + [FuncId(filepath, fs[|fs| - 1])];
  }

  lemma {:induction false} RegisterAllNodes(st: CgState, filepath: string, fs: seq<FunctionInfo>)
    requires Digraph.Valid(st.graph)
    ensures st.graph.nodes <= RegisterAll(st, filepath, fs).graph.nodes
    ensures forall n :: n in RegisterAll(st, filepath, fs).graph.nodes <==> n in st.graph.nodes || n in Ids(filepath, fs)
    ensures RegisterAll(st, filepath, fs).graph.edges == st.graph.edges
    ensures RegisterAll(st, filepath, fs).functionCalls == st.functionCalls
    decreases |fs|
  {
    if |fs| > 0 {
      var init := fs[..|fs| - 1];
      var mid := RegisterAll(st, filepath, init);
      var id := FuncId(filepath, fs[|fs| - 1]);
      var g := AddNode(mid.graph, id);
      assert RegisterAll(st, filepath, fs).graph == g;
      assert RegisterAll(st, filepath, fs).functionCalls == mid.functionCalls;
      RegisterAllNodes(st, filepath, init);
      assert mid.graph.nodes <= g.nodes by {
        assert mid.graph.nodes <= mid.graph.nodes + [id];
      }
      PrefixTrans(st.graph.nodes, mid.graph.nodes, g.nodes);
      IdsSnoc(filepath, fs);
      assert forall n :: n in g.nodes <==> n in mid.graph.nodes || n == id;
    }
  }

  /** The first pass: the old nodes stay first, in order; the new nodes are
      exactly the ids of the records; edges and call sets are untouched. */
  lemma {:induction false} CollectNodes(st: CgState, files: seq<ParseResult>)
    requires Digraph.Valid(st.graph)
    ensures st.graph.nodes <= CollectFiles(st, files).graph.nodes
    ensures forall n :: n in CollectFiles(st, files).graph.nodes <==> n in st.graph.nodes || n in AllIds(files)
    ensures CollectFiles(st, files).graph.edges == st.graph.edges
    ensures CollectFiles(st, files).functionCalls == st.functionCalls
    decreases |files|
  {
    if |files| > 0 {
      var init := files[..|files| - 1];
      var last := files[|files| - 1];
      var mid := CollectFiles(st, init);
      CollectNodes(st, init);
      RegisterAllNodes(mid, last.filepath, last.functions);
      assert CollectFiles(st, files) == RegisterAll(mid, last.filepath, last.functions);
      assert forall n :: n in AllIds(files) <==> n in AllIds(init) || n in FileIds(last) by {
        assert files == init + [last];
        FlatMapSnoc(init, last, FileIds);
      }
    }
  }

  /** The resolutions of a function's calls, in call order. */
  function ResolvedCalls(calls: seq<string>, filepath: string, fs: seq<FunctionInfo>, d: Defs): seq<string>
    decreases |calls|
  {
    if |calls| == 0 then []
    else ResolvedCalls(calls[..|calls| - 1], filepath, fs, d) + Resolution(calls[|calls| - 1], filepath, fs, d)
  }

  /** One of the functions `todo` of the file is u and calls v, as
      resolved against d. */
  predicate CalledFrom(filepath: string, todo: seq<FunctionInfo>, fs: seq<FunctionInfo>, d: Defs,
                       u: string, v: string)
    decreases |todo|
  {
    && |todo| > 0
    && (|| CalledFrom(filepath, todo[..|todo| - 1], fs, d, u, v)
        || (u == FuncId(filepath, todo[|todo| - 1]) && v in ResolvedCalls(todo[|todo| - 1].calls, filepath, fs, d)))
  }

  /** Some function of one of the files is u and calls v. */
  predicate Calls(files: seq<ParseResult>, d: Defs, u: string, v: string)
    decreases |files|
  {
    && |files| > 0
    && (|| Calls(files[..|files| - 1], d, u, v)
        || CalledFrom(files[|files| - 1].filepath, files[|files| - 1].functions, files[|files| - 1].functions, d, u, v))
  }

  lemma {:induction false} CalledFromIff(filepath: string, todo: seq<FunctionInfo>, fs: seq<FunctionInfo>, d: Defs,
                                         u: string, v: string)
    ensures CalledFrom(filepath, todo, fs, d, u, v) ==>
      exists j :: 0 <= j < |todo| && u == FuncId(filepath, todo[j]) && v in ResolvedCalls(todo[j].calls, filepath, fs, d)
    ensures (exists j :: 0 <= j < |todo| && u == FuncId(filepath, todo[j]) && v in ResolvedCalls(todo[j].calls, filepath, fs, d))
      ==> CalledFrom(filepath, todo, fs, d, u, v)
    decreases |todo|
  {
    if |todo| > 0 {
      var init := todo[..|todo| - 1];
      var last := todo[|todo| - 1];
      CalledFromIff(filepath, init, fs, d, u, v);
      if CalledFrom(filepath, todo, fs, d, u, v) {
        if CalledFrom(filepath, init, fs, d, u, v) {
          var j :| 0 <= j < |init| && u == FuncId(filepath, init[j]) && v in ResolvedCalls(init[j].calls, filepath, fs, d);
          assert todo[j] == init[j];
        } else {
          var j := |todo| - 1;
          assert 0 <= j < |todo| && u == FuncId(filepath, todo[j]) && v in ResolvedCalls(todo[j].calls, filepath, fs, d);
        }
      }
      forall j | 0 <= j < |todo| && u == FuncId(filepath, todo[j]) && v in ResolvedCalls(todo[j].calls, filepath, fs, d)
        ensures CalledFrom(filepath, todo, fs, d, u, v)
      {
        if j < |init| {
          assert todo[j] == init[j];
          assert CalledFrom(filepath, init, fs, d, u, v);
        } else {
          assert j == |todo| - 1;
        }
      }
    }
  }

  /** Some function record j of file i has id u, and one of its calls
      resolves to v. */
  ghost predicate CallsAt(files: seq<ParseResult>, d: Defs, u: string, v: string) {
    exists i, j :: 0 <= i < |files| && 0 <= j < |files[i].functions| &&
      u == FuncId(files[i].filepath, files[i].functions[j]) &&
      v in ResolvedCalls(files[i].functions[j].calls, files[i].filepath, files[i].functions, d)
  }

  lemma {:induction false} CallsSound(files: seq<ParseResult>, d: Defs, u: string, v: string)
    requires Calls(files, d, u, v)
    ensures CallsAt(files, d, u, v)
    decreases |files|
  {
    var init := files[..|files| - 1];
    var last := files[|files| - 1];
    if Calls(init, d, u, v) {
      CallsSound(init, d, u, v);
      var i, j :| 0 <= i < |init| && 0 <= j < |init[i].functions| &&
        u == FuncId(init[i].filepath, init[i].functions[j]) &&
        v in ResolvedCalls(init[i].functions[j].calls, init[i].filepath, init[i].functions, d);
      assert files[i] == init[i];
      assert 0 <= i < |files| && 0 <= j < |files[i].functions| &&
        u == FuncId(files[i].filepath, files[i].functions[j]) &&
        v in ResolvedCalls(files[i].functions[j].calls, files[i].filepath, files[i].functions, d);
    } else {
      CalledFromIff(last.filepath, last.functions, last.functions, d, u, v);
      var i := |files| - 1;
      var j :| 0 <= j < |last.functions| && u == FuncId(last.filepath, last.functions[j]) &&
        v in ResolvedCalls(last.functions[j].calls, last.filepath, last.functions, d);
      assert files[i] == last;
      assert 0 <= i < |files| && 0 <= j < |files[i].functions| &&
        u == FuncId(files[i].filepath, files[i].functions[j]) &&
        v in ResolvedCalls(files[i].functions[j].calls, files[i].filepath, files[i].functions, d);
    }
  }

  lemma {:induction false} CallsComplete(files: seq<ParseResult>, d: Defs, u: string, v: string, i: nat, j: nat)
    requires i < |files| && j < |files[i].functions|
    requires u == FuncId(files[i].filepath, files[i].functions[j])
    requires v in ResolvedCalls(files[i].functions[j].calls, files[i].filepath, files[i].functions, d)
    ensures Calls(files, d, u, v)
    decreases |files|
  {
    var init := files[..|files| - 1];
    var last := files[|files| - 1];
    if i < |init| {
      assert files[i] == init[i];
      CallsComplete(init, d, u, v, i, j);
    } else {
      assert i == |files| - 1;
      CalledFromIff(last.filepath, last.functions, last.functions, d, u, v);
    }
  }

  /** The call relation the second pass records, read as an existential. */
  lemma CallsIff(files: seq<ParseResult>, d: Defs, u: string, v: string)
    ensures Calls(files, d, u, v) <==> CallsAt(files, d, u, v)
  {
    if Calls(files, d, u, v) {
      CallsSound(files, d, u, v);
    }
    if CallsAt(files, d, u, v) {
      var i, j :| 0 <= i < |files| && 0 <= j < |files[i].functions| &&
        u == FuncId(files[i].filepath, files[i].functions[j]) &&
        v in ResolvedCalls(files[i].functions[j].calls, files[i].filepath, files[i].functions, d);
      CallsComplete(files, d, u, v, i, j);
    }
  }

  /** Every function record of the files has its node. */
  ghost predicate AllRegistered(files: seq<ParseResult>, g: Graph) {
    forall i, j :: 0 <= i < |files| && 0 <= j < |files[i].functions| ==>
      FuncId(files[i].filepath, files[i].functions[j]) in g.nodes
  }

  lemma AddCallFacts(st: CgState, caller: string, callee: string)
    requires CgValid(st) && caller in st.graph.nodes
    ensures CgValid(AddCall(st, caller, callee))
    ensures AddCall(st, caller, callee).graph.nodes == st.graph.nodes
    ensures forall u, v :: (u, v) in AddCall(st, caller, callee).graph.edges <==>
      (u, v) in st.graph.edges || (u == caller && v == callee && callee in st.graph.nodes)
  {
    if callee in st.graph.nodes {
      var g := st.graph;
      var r := AddCall(st, caller, callee);
      EdgeBetweenNodes(g, caller, callee);
      CallMapAdd(st.functionCalls, caller, callee);
      assert forall u, v :: (u, v) in r.graph.edges <==> u in r.functionCalls && v in r.functionCalls[u];
      assert r.definitions == st.definitions && r.graph.nodes == st.definitions.order;
    }
  }

  /** An edge between two nodes already present adds no node. */
  lemma EdgeBetweenNodes(g: Graph, u: string, v: string)
    requires Digraph.Valid(g) && u in g.nodes && v in g.nodes
    ensures AddEdge(g, u, v).nodes == g.nodes
    ensures forall x, y :: (x, y) in AddEdge(g, u, v).edges <==> (x, y) in g.edges || (x == u && y == v)
  {
    assert AddNode(g, u) == g;
    assert AddNode(AddNode(g, u), v) == g;
  }

  /** Adding a callee to a caller's set of the call map. */
  lemma CallMapAdd(fc: map<string, set<string>>, caller: string, callee: string)
    requires forall u :: u in fc ==> fc[u] != {}
    ensures var fc' := fc[caller := SetAt(fc, caller) + {callee}];
      && (forall u, v :: u in fc' && v in fc'[u] <==> (u in fc && v in fc[u]) || (u == caller && v == callee))
      && (forall u :: u in fc' ==> fc'[u] != {})
  {
    var fc' := fc[caller := SetAt(fc, caller) + {callee}];
    assert callee in fc'[caller];
  }

  lemma {:induction false} AddCallsFacts(st: CgState, caller: string, callees: seq<string>)
    requires CgValid(st) && caller in st.graph.nodes
    ensures CgValid(AddCalls(st, caller, callees))
    ensures AddCalls(st, caller, callees).graph.nodes == st.graph.nodes
    ensures forall u, v :: (u, v) in AddCalls(st, caller, callees).graph.edges <==>
      (u, v) in st.graph.edges || (u == caller && v in callees && v in st.graph.nodes)
    decreases |callees|
  {
    if |callees| > 0 {
      var init := callees[..|callees| - 1];
      var last := callees[|callees| - 1];
      AddCallsFacts(st, caller, init);
      var mid := AddCalls(st, caller, init);
      AddCallFacts(mid, caller, last);
      assert forall v :: v in callees <==> v in init || v == last by {
        assert callees == init + [last];
      }
    }
  }

  lemma {:induction false} AddFunctionCallsFacts(st: CgState, caller: string, calls: seq<string>,
                                                 filepath: string, fs: seq<FunctionInfo>, d: Defs)
    requires CgValid(st) && caller in st.graph.nodes
    ensures CgValid(AddFunctionCalls(st, caller, calls, filepath, fs, d))
    ensures AddFunctionCalls(st, caller, calls, filepath, fs, d).graph.nodes == st.graph.nodes
    ensures forall u, v :: (u, v) in AddFunctionCalls(st, caller, calls, filepath, fs, d).graph.edges <==>
      (u, v) in st.graph.edges || (u == caller && v in ResolvedCalls(calls, filepath, fs, d) && v in st.graph.nodes)
    decreases |calls|
  {
    if |calls| > 0 {
      var init := calls[..|calls| - 1];
      AddFunctionCallsFacts(st, caller, init, filepath, fs, d);
      var mid := AddFunctionCalls(st, caller, init, filepath, fs, d);
      AddCallsFacts(mid, caller, Resolution(calls[|calls| - 1], filepath, fs, d));
    }
  }

  lemma {:induction false} AddFileCallsFacts(st: CgState, filepath: string, todo: seq<FunctionInfo>,
                                             fs: seq<FunctionInfo>, d: Defs)
    requires CgValid(st)
    requires forall j :: 0 <= j < |todo| ==> FuncId(filepath, todo[j]) in st.graph.nodes
    ensures CgValid(AddFileCalls(st, filepath, todo, fs, d))
    ensures AddFileCalls(st, filepath, todo, fs, d).graph.nodes == st.graph.nodes
    ensures forall u, v :: (u, v) in AddFileCalls(st, filepath, todo, fs, d).graph.edges <==>
      (u, v) in st.graph.edges || (v in st.graph.nodes && CalledFrom(filepath, todo, fs, d, u, v))
    decreases |todo|
  {
    if |todo| > 0 {
      var init := todo[..|todo| - 1];
      var f := todo[|todo| - 1];
      assert forall j :: 0 <= j < |init| ==> init[j] == todo[j];
      AddFileCallsFacts(st, filepath, init, fs, d);
      var mid := AddFileCalls(st, filepath, init, fs, d);
      AddFunctionCallsFacts(mid, FuncId(filepath, f), f.calls, filepath, fs, d);
    }
  }

  /** The second pass over registered files adds no node and exactly one
      edge per resolved call whose callee is a node. */
  lemma {:induction false} BuildFilesFacts(st: CgState, files: seq<ParseResult>, d: Defs)
    requires CgValid(st) && AllRegistered(files, st.graph)
    ensures CgValid(BuildFiles(st, files, d))
    ensures BuildFiles(st, files, d).graph.nodes == st.graph.nodes
    ensures forall u, v :: (u, v) in BuildFiles(st, files, d).graph.edges <==>
      (u, v) in st.graph.edges || (v in st.graph.nodes && Calls(files, d, u, v))
    decreases |files|
  {
    if |files| > 0 {
      var init := files[..|files| - 1];
      var last := files[|files| - 1];
      assert forall i :: 0 <= i < |init| ==> init[i] == files[i];
      BuildFilesFacts(st, init, d);
      var mid := BuildFiles(st, init, d);
      AddFileCallsFacts(mid, last.filepath, last.functions, last.functions, d);
    }
  }

  // ---------------------------------------------------------------------
  // Both passes together
  // ---------------------------------------------------------------------

  lemma {:induction false} ResolvedCallsWithin(calls: seq<string>, filepath: string, fs: seq<FunctionInfo>,
                                               d: Defs, v: string)
    requires DefsValid(d) && v in ResolvedCalls(calls, filepath, fs, d)
    ensures v in d.entries
    decreases |calls|
  {
    var init := calls[..|calls| - 1];
    if v in ResolvedCalls(init, filepath, fs, d) {
      ResolvedCallsWithin(init, filepath, fs, d, v);
    } else {
      ResolutionWithin(calls[|calls| - 1], filepath, fs, d, v);
    }
  }

  /** Every resolved callee is a defined function. */
  lemma CallsWithin(files: seq<ParseResult>, d: Defs, u: string, v: string)
    requires DefsValid(d) && Calls(files, d, u, v)
    ensures v in d.entries
  {
    CallsSound(files, d, u, v);
    var i, j :| 0 <= i < |files| && 0 <= j < |files[i].functions| &&
      u == FuncId(files[i].filepath, files[i].functions[j]) &&
      v in ResolvedCalls(files[i].functions[j].calls, files[i].filepath, files[i].functions, d);
    ResolvedCallsWithin(files[i].functions[j].calls, files[i].filepath, files[i].functions, d, v);
  }

  /** After the first pass every record of the files has its node. */
  lemma CollectRegistersAll(st: CgState, files: seq<ParseResult>)
    requires Digraph.Valid(st.graph)
    ensures AllRegistered(files, CollectFiles(st, files).graph)
  {
    CollectNodes(st, files);
    forall i, j | 0 <= i < |files| && 0 <= j < |files[i].functions|
      ensures FuncId(files[i].filepath, files[i].functions[j]) in CollectFiles(st, files).graph.nodes
    {
      var id := FuncId(files[i].filepath, files[i].functions[j]);
      assert FileIds(files[i])[j] == id;
      FlatMapIn(files, FileIds, id);
    }
  }

  /** build_call_graph: the old nodes stay first; the new nodes are the ids
      of the records; an edge is added exactly for each resolved call (every
      resolved callee is a node by then, so none is dropped); and the state
      stays consistent. */
  lemma BuildAllFacts(st: CgState, files: seq<ParseResult>)
    requires CgValid(st)
    ensures CgValid(BuildAll(st, files))
    ensures BuildAll(st, files).definitions == CollectFiles(st, files).definitions
    ensures st.graph.nodes <= BuildAll(st, files).graph.nodes
    ensures forall n :: n in BuildAll(st, files).graph.nodes <==> n in st.graph.nodes || n in AllIds(files)
    ensures forall u, v :: (u, v) in BuildAll(st, files).graph.edges <==>
      (u, v) in st.graph.edges || Calls(files, CollectFiles(st, files).definitions, u, v)
  {
    var mid := CollectFiles(st, files);
    CollectValid(st, files);
    CollectNodes(st, files);
    CollectRegistersAll(st, files);
    BuildFilesFacts(mid, files, mid.definitions);
    forall u, v | Calls(files, mid.definitions, u, v) ensures v in mid.graph.nodes {
      CallsWithin(files, mid.definitions, u, v);
    }
  }

  /** A fresh builder: the nodes are exactly the records' ids, no id twice,
      and the edges exactly the resolved calls. */
  lemma FreshCallGraph(files: seq<ParseResult>)
    ensures CgValid(BuildAll(CgState(Empty, map[], Defs([], map[])), files))
    ensures NoDup(BuildAll(CgState(Empty, map[], Defs([], map[])), files).graph.nodes)
    ensures forall n :: n in BuildAll(CgState(Empty, map[], Defs([], map[])), files).graph.nodes <==> n in AllIds(files)
    ensures forall u, v :: (u, v) in BuildAll(CgState(Empty, map[], Defs([], map[])), files).graph.edges <==>
      Calls(files, CollectFiles(CgState(Empty, map[], Defs([], map[])), files).definitions, u, v)
  {
    BuildAllFacts(CgState(Empty, map[], Defs([], map[])), files);
  }

  // ---------------------------------------------------------------------
  // The builder
  // ---------------------------------------------------------------------

  datatype CallGraphReport = CallGraphReport(
    callGraph: Graph,
    functionCalls: map<string, set<string>>,
    functionDefinitions: map<string, Definition>,
    analysis: CallAnalysis)

  class CallGraphBuilder {
    var callGraph: Graph
    var functionCalls: map<string, set<string>>
    var functionDefinitions: Defs

    function State(): CgState
      reads this
    {
      CgState(callGraph, functionCalls, functionDefinitions)
    }

    ghost predicate Valid()
      reads this
    {
      CgValid(State())
    }

    constructor()
      ensures Valid()
      ensures State() == CgState(Empty, map[], Defs([], map[]))
    {
      callGraph := Empty;
      functionCalls := map[];
      functionDefinitions := Defs([], map[]);
    }

    /** _collect_functions: registers each function record of one file. */
    method CollectFunctions(fileData: ParseResult)
      requires Digraph.Valid(callGraph)
      modifies this
      ensures Digraph.Valid(callGraph)
      ensures State() == RegisterAll(old(State()), fileData.filepath, fileData.functions)
    {
      ghost var start := State();
      var filepath := fileData.filepath;
      var fs := fileData.functions;
      for j := 0 to |fs|
        invariant Digraph.Valid(callGraph)
        invariant State() == RegisterAll(start, filepath, fs[..j])
      {
        var f := fs[j];
        var funcId := FuncId(filepath, f);
        functionDefinitions := Put(functionDefinitions, funcId, DefOf(filepath, f));
        callGraph := AddNode(callGraph, funcId);
        assert fs[..j + 1][..j] == fs[..j];
      }
      assert fs[..|fs|] == fs;
    }

    /** _resolve_call: the candidate ids of a call made in `currentFile`. */
    method ResolveCall(callName: string, currentFile: string, fileData: ParseResult) returns (possibleIds: seq<string>)
      ensures possibleIds == Resolution(callName, currentFile, fileData.functions, functionDefinitions)
    {
      var name := callName;
      if '.' in callName {
        name := LastPiece(callName, '.');
      }
      assert name == MethodName(callName);
      possibleIds := [];
      var localId := currentFile + "::" + name;
      assert localId == LocalId(currentFile, name);
      if localId in functionDefinitions.entries {
        possibleIds := possibleIds + [localId];
      }
      var classIds := ClassContext(currentFile, name, fileData.functions);
      possibleIds := possibleIds + classIds;
      if |possibleIds| == 0 {
        possibleIds := SearchAll(name);
      }
    }

    /** The class-context loop of _resolve_call. */
    method ClassContext(currentFile: string, name: string, fs: seq<FunctionInfo>) returns (ids: seq<string>)
      ensures ids == ClassCandidates(currentFile, name, fs, functionDefinitions)
    {
      ids := [];
      for j := 0 to |fs|
        invariant ids == ClassCandidates(currentFile, name, fs[..j], functionDefinitions)
      {
        if Truthy(fs[j].parentClass) {
          var classId := currentFile + "::" + fs[j].parentClass.value + "." + name;
          if classId in functionDefinitions.entries {
            ids := ids + [classId];
          }
        }
        assert fs[..j + 1][..j] == fs[..j];
      }
      assert fs[..|fs|] == fs;
    }

    /** The repository-wide loop of _resolve_call, in dictionary order. */
    method SearchAll(name: string) returns (ids: seq<string>)
      ensures ids == SuffixMatches(name, functionDefinitions.order)
    {
      ids := [];
      var order := functionDefinitions.order;
      for k := 0 to |order|
        invariant ids == SuffixMatches(name, order[..k])
      {
        var funcId := order[k];
        if EndsWith(funcId, "::" + name) || EndsWith(funcId, "." + name) {
          ids := ids + [funcId];
        }
        assert order[..k + 1][..k] == order[..k];
      }
      assert order[..|order|] == order;
    }

    /** The innermost loop of _build_calls: an edge to each candidate that is
        a node. */
    method AddCallees(callerId: string, calleeIds: seq<string>)
      requires Digraph.Valid(callGraph)
      modifies this
      ensures Digraph.Valid(callGraph)
      ensures State() == AddCalls(old(State()), callerId, calleeIds)
    {
      ghost var start := State();
      for m := 0 to |calleeIds|
        invariant Digraph.Valid(callGraph)
        invariant State() == AddCalls(start, callerId, calleeIds[..m])
      {
        var calleeId := calleeIds[m];
        if calleeId in callGraph.nodes {
          callGraph := AddEdge(callGraph, callerId, calleeId);
          functionCalls := functionCalls[callerId := SetAt(functionCalls, callerId) + {calleeId}];
        }
        assert calleeIds[..m + 1][..m] == calleeIds[..m];
      }
      assert calleeIds[..|calleeIds|] == calleeIds;
    }

    /** The middle loop of _build_calls: every call of one function. */
    method AddCallsOf(callerId: string, calls: seq<string>, fileData: ParseResult)
      requires Digraph.Valid(callGraph)
      modifies this
      ensures Digraph.Valid(callGraph)
      ensures State() == AddFunctionCalls(old(State()), callerId, calls, fileData.filepath, fileData.functions,
                                          old(functionDefinitions))
    {
      ghost var start := State();
      for k := 0 to |calls|
        invariant Digraph.Valid(callGraph)
        invariant State() == AddFunctionCalls(start, callerId, calls[..k], fileData.filepath, fileData.functions,
                                              start.definitions)
      {
        var calleeIds := ResolveCall(calls[k], fileData.filepath, fileData);
        AddCallees(callerId, calleeIds);
        assert calls[..k + 1][..k] == calls[..k];
      }
      assert calls[..|calls|] == calls;
    }

    /** _build_calls: every call of every function of one file. */
    method BuildCalls(fileData: ParseResult)
      requires Digraph.Valid(callGraph)
      modifies this
      ensures Digraph.Valid(callGraph)
      ensures State() == AddFileCalls(old(State()), fileData.filepath, fileData.functions, fileData.functions,
                                      old(functionDefinitions))
    {
      ghost var start := State();
      var fs := fileData.functions;
      for j := 0 to |fs|
        invariant Digraph.Valid(callGraph)
        invariant State() == AddFileCalls(start, fileData.filepath, fs[..j], fs, start.definitions)
      {
        var callerId := FuncId(fileData.filepath, fs[j]);
        AddCallsOf(callerId, fs[j].calls, fileData);
        assert fs[..j + 1][..j] == fs[..j];
      }
      assert fs[..|fs|] == fs;
    }

    /** build_call_graph: both passes over the files, then the analysis. */
    method BuildCallGraph(parsedFiles: seq<ParseResult>) returns (r: CallGraphReport)
      requires Valid()
      modifies this
      ensures Valid()
      ensures State() == BuildAll(old(State()), parsedFiles)
      ensures r == CallGraphReport(callGraph, functionCalls, functionDefinitions.entries,
                                   Analyze(callGraph, functionDefinitions))
    {
      ghost var start := State();
      for i := 0 to |parsedFiles|
        invariant Digraph.Valid(callGraph)
        invariant State() == CollectFiles(start, parsedFiles[..i])
      {
        CollectFunctions(parsedFiles[i]);
        assert parsedFiles[..i + 1][..i] == parsedFiles[..i];
      }
      assert parsedFiles[..|parsedFiles|] == parsedFiles;
      ghost var collected := State();
      for i := 0 to |parsedFiles|
        invariant Digraph.Valid(callGraph)
        invariant State() == BuildFiles(collected, parsedFiles[..i], collected.definitions)
      {
        BuildCalls(parsedFiles[i]);
        assert parsedFiles[..i + 1][..i] == parsedFiles[..i];
      }
      assert parsedFiles[..|parsedFiles|] == parsedFiles;
      BuildAllFacts(start, parsedFiles);
      var analysis := AnalyzeCallGraph();
      r := CallGraphReport(callGraph, functionCalls, functionDefinitions.entries, analysis);
    }

    /** The inner dfs of get_call_chain: the chains found from `node`, in
        the order they are appended. */
    method Dfs(node: string, chain: seq<string>, depth: nat, maxDepth: int) returns (found: seq<seq<string>>)
      ensures found == ChainsFrom(callGraph, node, chain, depth, maxDepth)
      decreases Budget(depth, maxDepth), 1
    {
      if depth >= maxDepth {
        return [chain];
      }
      var successors := Successors(callGraph, node);
      if |successors| == 0 {
        return [chain];
      }
      found := [];
      for k := 0 to |successors|
        invariant found == ChainsVia(callGraph, successors[..k], chain, depth, maxDepth)
      {
        var successor := successors[k];
        if successor !in chain {
          var more := Dfs(successor, chain + [successor], depth + 1, maxDepth);
          found := found + more;
        }
        assert successors[..k + 1][..k] == successors[..k];
      }
      assert successors[..|successors|] == successors;
    }

    /** get_call_chain: at most ten chains from a known function. */
    method GetCallChain(functionId: string, maxDepth: int := 5) returns (chains: seq<seq<string>>)
      ensures chains == CallChains(callGraph, functionId, maxDepth)
    {
      if functionId !in callGraph.nodes {
        return [];
      }
      var found := Dfs(functionId, [functionId], 0, maxDepth);
      chains := Take(found, 10);
    }

    /** _analyze_call_graph, with its loop over the nodes for the functions
        on short cycles. */
    method AnalyzeCallGraph() returns (a: CallAnalysis)
      requires Digraph.Valid(callGraph)
      ensures a == Analyze(callGraph, functionDefinitions)
    {
      var g := callGraph;
      if |g.nodes| == 0 {
        return EmptyAnalysis;
      }
      var recursive := [];
      for i := 0 to |g.nodes|
        invariant recursive == RecursiveNodes(g, g.nodes[..i])
      {
        var node := g.nodes[i];
        var onCycle := OnCycleWithin(g, node, 5);
        assert RecursiveNodes(g, g.nodes[..i + 1])
            == RecursiveNodes(g, g.nodes[..i]) + (if onCycle then [node] else []) by {
          assert g.nodes[..i + 1][..i] == g.nodes[..i];
          assert g.nodes[..i + 1][i] == node;
        }
        if onCycle {
          recursive := recursive + [node];
        }
      }
      assert g.nodes[..|g.nodes|] == g.nodes;
      var deadEnds := DeadEnds(g, g.nodes);
      a := CallAnalysis(
        |g.nodes|, |g.edges|,
        Ranked(InDegrees(g), functionDefinitions), Ranked(OutDegrees(g), functionDefinitions),
        RecursiveEntries(Take(recursive, 10), functionDefinitions),
        |deadEnds|, |g.edges| as real / |g.nodes| as real);
    }
  }

  // ---------------------------------------------------------------------
  // _analyze_call_graph
  // ---------------------------------------------------------------------

  datatype CallRank = CallRank(functionId: string, calls: nat, name: string)

  datatype RecursiveEntry = RecursiveEntry(functionId: string, name: string)

  /** The empty graph has its own, shorter result. */
  datatype CallAnalysis =
    | EmptyAnalysis
    | CallAnalysis(
        totalFunctions: nat,
        totalCalls: nat,
        mostCalled: seq<CallRank>,
        mostCalls: seq<CallRank>,
        recursiveFunctions: seq<RecursiveEntry>,
        deadEndFunctions: nat,
        averageCallsPerFunction: real)

  function RankEntries(xs: seq<NodeCount>, d: Defs): (r: seq<CallRank>)
    ensures |r| == |xs|
    ensures forall i :: 0 <= i < |xs| ==> r[i] == CallRank(xs[i].node, xs[i].count, NameOf(d, xs[i].node))
  {
    seq(|xs|, i requires 0 <= i < |xs| => CallRank(xs[i].node, xs[i].count, NameOf(d, xs[i].node)))
  }

  /** The ten highest degrees, the positive ones, at most five. */
  function TopCalls(degrees: seq<NodeCount>): seq<NodeCount> {
    Take(Positive(Take(SortDesc(degrees, CountKey), 10), CountKey), 5)
  }

  function Ranked(degrees: seq<NodeCount>, d: Defs): seq<CallRank> {
    RankEntries(TopCalls(degrees), d)
  }

  /** The nodes that lie on a cycle of at most five edges, in node order. */
  function RecursiveNodes(g: Graph, nodes: seq<string>): (r: seq<string>)
    ensures |r| <= |nodes|
    decreases |nodes|
  {
    if |nodes| == 0 then []
    else
      var last := nodes[|nodes| - 1];
      RecursiveNodes(g, nodes[..|nodes| - 1]) + (if OnCycleWithin(g, last, 5) then [last] else [])
  }

  function RecursiveEntries(ids: seq<string>, d: Defs): (r: seq<RecursiveEntry>)
    ensures |r| == |ids|
    ensures forall i :: 0 <= i < |ids| ==> r[i] == RecursiveEntry(ids[i], NameOf(d, ids[i]))
  {
    seq(|ids|, i requires 0 <= i < |ids| => RecursiveEntry(ids[i], NameOf(d, ids[i])))
  }

  /** The nodes without outgoing calls, in node order. */
  function DeadEnds(g: Graph, nodes: seq<string>): (r: seq<string>)
    ensures |r| <= |nodes|
    decreases |nodes|
  {
    if |nodes| == 0 then []
    else
      var last := nodes[|nodes| - 1];
      DeadEnds(g, nodes[..|nodes| - 1]) + (if OutDegree(g, last) == 0 then [last] else [])
  }

  /** most_called: ranked by in-degree. */
  function MostCalled(g: Graph, d: Defs): seq<CallRank> { Ranked(InDegrees(g), d) }

  /** most_calls: ranked by out-degree. */
  function MostCalls(g: Graph, d: Defs): seq<CallRank> { Ranked(OutDegrees(g), d) }

  /** recursive_functions: the first ten nodes on short cycles. */
  function RecursiveFunctions(g: Graph, d: Defs): seq<RecursiveEntry> {
    RecursiveEntries(Take(RecursiveNodes(g, g.nodes), 10), d)
  }

  /** average_calls_per_function, for a graph with nodes. */
  function Average(g: Graph): real
    requires |g.nodes| > 0
  {
    |g.edges| as real / |g.nodes| as real
  }

  function Analyze(g: Graph, d: Defs): CallAnalysis {
    if |g.nodes| == 0 then EmptyAnalysis
    else
      CallAnalysis(
        |g.nodes|, |g.edges|, MostCalled(g, d), MostCalls(g, d), RecursiveFunctions(g, d),
        |DeadEnds(g, g.nodes)|, Average(g))
  }

  /** sorted(..., reverse=True)[:10] without the zero counts, then [:5], is
      the selection of the five highest positive counts: best first, equal
      counts in listing order, and complete when at most five qualify. */
  lemma TopCallsSpec(degrees: seq<NodeCount>)
    ensures TopCalls(degrees) == TopPositive(degrees, CountKey, 5)
    ensures NonIncreasing(TopCalls(degrees), CountKey)
    ensures |Positive(degrees, CountKey)| <= 5 ==>
      forall x :: x in degrees && x.count > 0 ==> x in TopCalls(degrees)
    ensures forall v: real :: v > 0.0 ==> WithKey(TopCalls(degrees), CountKey, v) <= WithKey(degrees, CountKey, v)
  {
    var sorted := SortDesc(degrees, CountKey);
    SortDescSorted(degrees, CountKey);
    TakeThenPositive(sorted, 10, CountKey);
    TopPositiveOrdered(degrees, CountKey, 5);
    var top10 := Positive(Take(sorted, 10), CountKey);
    forall v: real | v > 0.0 ensures WithKey(TopCalls(degrees), CountKey, v) <= WithKey(degrees, CountKey, v) {
      RankedTiesInOrder(degrees, CountKey, 10, v);
      WithKeyTake(top10, 5, CountKey, v);
    }
  }

  /** A ranking lists at most five entries, each a listed node with its
      positive count and its recorded name, in non-increasing count; when
      at most five counts are positive, every such node is listed. */
  lemma RankedSpec(degrees: seq<NodeCount>, d: Defs)
    ensures |Ranked(degrees, d)| <= 5
    ensures forall i :: 0 <= i < |Ranked(degrees, d)| ==>
      && Ranked(degrees, d)[i].calls > 0
      && NodeCount(Ranked(degrees, d)[i].functionId, Ranked(degrees, d)[i].calls) in degrees
      && Ranked(degrees, d)[i].name == NameOf(d, Ranked(degrees, d)[i].functionId)
    ensures forall i, j :: 0 <= i < j < |Ranked(degrees, d)| ==> Ranked(degrees, d)[i].calls >= Ranked(degrees, d)[j].calls
    ensures |Positive(degrees, CountKey)| <= 5 ==>
      forall x :: x in degrees && x.count > 0 ==> CallRank(x.node, x.count, NameOf(d, x.node)) in Ranked(degrees, d)
  {
    TopCallsSpec(degrees);
    var top := TopCalls(degrees);
    assert forall i :: 0 <= i < |top| ==> CountKey(top[i]) > 0.0 && top[i] in degrees;
    forall x | x in degrees && x.count > 0 && |Positive(degrees, CountKey)| <= 5
      ensures CallRank(x.node, x.count, NameOf(d, x.node)) in Ranked(degrees, d)
    {
      var i :| 0 <= i < |top| && top[i] == x;
      assert Ranked(degrees, d)[i] == CallRank(x.node, x.count, NameOf(d, x.node));
    }
  }

  lemma {:induction false} RecursiveNodesIn(g: Graph, nodes: seq<string>, x: string)
    ensures x in RecursiveNodes(g, nodes) <==> x in nodes && OnCycleWithin(g, x, 5)
    decreases |nodes|
  {
    if |nodes| > 0 {
      RecursiveNodesIn(g, nodes[..|nodes| - 1], x);
      assert nodes == nodes[..|nodes| - 1] + [nodes[|nodes| - 1]];
    }
  }

  lemma {:induction false} RecursiveNodesNoDup(g: Graph, nodes: seq<string>)
    requires NoDup(nodes)
    ensures NoDup(RecursiveNodes(g, nodes))
    decreases |nodes|
  {
    if |nodes| > 0 {
      var init, last := nodes[..|nodes| - 1], nodes[|nodes| - 1];
      assert NoDup(init);
      RecursiveNodesNoDup(g, init);
      RecursiveNodesIn(g, init, last);
      assert last !in init;
    }
  }

  lemma {:induction false} DeadEndsIn(g: Graph, nodes: seq<string>, x: string)
    ensures x in DeadEnds(g, nodes) <==> x in nodes && OutDegree(g, x) == 0
    decreases |nodes|
  {
    if |nodes| > 0 {
      DeadEndsIn(g, nodes[..|nodes| - 1], x);
      assert nodes == nodes[..|nodes| - 1] + [nodes[|nodes| - 1]];
    }
  }

  /** The dead ends are the nodes without an outgoing edge, each once. */
  lemma DeadEndsSpec(g: Graph, x: string)
    requires Digraph.Valid(g)
    ensures x in DeadEnds(g, g.nodes) <==> x in g.nodes && forall y :: (x, y) !in g.edges
  {
    DeadEndsIn(g, g.nodes, x);
    DegreeZero(g, x);
  }

  /** The average is calls per function. */
  lemma AverageSpec(g: Graph)
    requires |g.nodes| > 0
    ensures Average(g) * (|g.nodes| as real) == |g.edges| as real
  {
    DivTimes(|g.edges| as real, |g.nodes| as real);
  }

  lemma DivTimes(a: real, b: real)
    requires b > 0.0
    ensures (a / b) * b == a
  {
  }

  /** Most called by in-degree, most calling by out-degree: each entry is a
      node with that positive degree and its recorded name; at most five;
      when at most five nodes have a positive degree, all are listed. */
  lemma AnalyzeRankings(g: Graph, d: Defs)
    ensures forall e :: e in MostCalled(g, d) ==>
      e.functionId in g.nodes && e.calls == InDegree(g, e.functionId) && e.calls > 0 && e.name == NameOf(d, e.functionId)
    ensures forall e :: e in MostCalls(g, d) ==>
      e.functionId in g.nodes && e.calls == OutDegree(g, e.functionId) && e.calls > 0 && e.name == NameOf(d, e.functionId)
    ensures |MostCalled(g, d)| <= 5 && |MostCalls(g, d)| <= 5
    ensures |Positive(InDegrees(g), CountKey)| <= 5 ==>
      forall n :: n in g.nodes && InDegree(g, n) > 0 ==> CallRank(n, InDegree(g, n), NameOf(d, n)) in MostCalled(g, d)
    ensures |Positive(OutDegrees(g), CountKey)| <= 5 ==>
      forall n :: n in g.nodes && OutDegree(g, n) > 0 ==> CallRank(n, OutDegree(g, n), NameOf(d, n)) in MostCalls(g, d)
  {
    RankedSpec(InDegrees(g), d);
    RankedSpec(OutDegrees(g), d);
    forall x: NodeCount {
      DegreeCounts(g, x);
    }
    forall n | n in g.nodes && InDegree(g, n) > 0 && |Positive(InDegrees(g), CountKey)| <= 5
      ensures CallRank(n, InDegree(g, n), NameOf(d, n)) in MostCalled(g, d)
    {
      DegreeCounts(g, NodeCount(n, InDegree(g, n)));
    }
    forall n | n in g.nodes && OutDegree(g, n) > 0 && |Positive(OutDegrees(g), CountKey)| <= 5
      ensures CallRank(n, OutDegree(g, n), NameOf(d, n)) in MostCalls(g, d)
    {
      DegreeCounts(g, NodeCount(n, OutDegree(g, n)));
    }
  }

  /** The functions reported as recursive: at most ten distinct nodes, each
      the start of a simple cycle of at most five calls (a self-call
      included), with its recorded name; when at most ten nodes qualify,
      all of them are reported. */
  lemma AnalyzeRecursive(g: Graph, d: Defs)
    requires Digraph.Valid(g)
    ensures |RecursiveFunctions(g, d)| <= 10
    ensures forall i :: 0 <= i < |RecursiveFunctions(g, d)| ==>
      && RecursiveFunctions(g, d)[i].functionId in g.nodes
      && OnSimpleCycleWithin(g, RecursiveFunctions(g, d)[i].functionId, 5)
      && RecursiveFunctions(g, d)[i].name == NameOf(d, RecursiveFunctions(g, d)[i].functionId)
    ensures forall i, j :: 0 <= i < j < |RecursiveFunctions(g, d)| ==>
      RecursiveFunctions(g, d)[i].functionId != RecursiveFunctions(g, d)[j].functionId
    ensures |RecursiveNodes(g, g.nodes)| <= 10 ==>
      forall n :: n in g.nodes && OnSimpleCycleWithin(g, n, 5) ==> RecursiveEntry(n, NameOf(d, n)) in RecursiveFunctions(g, d)
    ensures |RecursiveNodes(g, g.nodes)| <= 10 ==>
      forall n :: (n, n) in g.edges ==> RecursiveEntry(n, NameOf(d, n)) in RecursiveFunctions(g, d)
  {
    var rec := RecursiveNodes(g, g.nodes);
    var ids := Take(rec, 10);
    var rf := RecursiveFunctions(g, d);
    RecursiveNodesNoDup(g, g.nodes);
    forall i | 0 <= i < |rf|
      ensures rf[i].functionId in g.nodes && OnSimpleCycleWithin(g, rf[i].functionId, 5)
    {
      assert ids[i] == rec[i];
      RecursiveNodesIn(g, g.nodes, rec[i]);
      OnCycleWithinIff(g, rec[i], 5);
    }
    forall n | n in g.nodes && OnSimpleCycleWithin(g, n, 5) && |rec| <= 10
      ensures RecursiveEntry(n, NameOf(d, n)) in rf
    {
      OnCycleWithinIff(g, n, 5);
      RecursiveNodesIn(g, g.nodes, n);
      var i :| 0 <= i < |rec| && rec[i] == n;
      assert rf[i] == RecursiveEntry(n, NameOf(d, n));
    }
    forall n | (n, n) in g.edges && |rec| <= 10
      ensures RecursiveEntry(n, NameOf(d, n)) in rf
    {
      SelfLoopOnCycle(g, n, 5);
      RecursiveNodesIn(g, g.nodes, n);
      var i :| 0 <= i < |rec| && rec[i] == n;
      assert rf[i] == RecursiveEntry(n, NameOf(d, n));
    }
  }

  // ---------------------------------------------------------------------
  // get_call_chain
  // ---------------------------------------------------------------------

  /** The depth still available to the search. */
  function Budget(depth: int, maxDepth: int): nat {
    if depth < maxDepth then maxDepth - depth else 0
  }

  /** dfs(node, chain, depth): the chain itself once the depth is used up or
      when node calls nothing; otherwise the chains through each successor
      not yet on the chain, in successor order. */
  function ChainsFrom(g: Graph, node: string, chain: seq<string>, depth: nat, maxDepth: int): seq<seq<string>>
    decreases Budget(depth, maxDepth), 1, 0
  {
    if depth >= maxDepth then [chain]
    else if |Successors(g, node)| == 0 then [chain]
    else ChainsVia(g, Successors(g, node), chain, depth, maxDepth)
  }

  function ChainsVia(g: Graph, succ: seq<string>, chain: seq<string>, depth: nat, maxDepth: int): seq<seq<string>>
    requires depth < maxDepth
    decreases Budget(depth, maxDepth), 0, |succ|
  {
    if |succ| == 0 then []
    else
      var s := succ[|succ| - 1];
      ChainsVia(g, succ[..|succ| - 1], chain, depth, maxDepth)
        + (if s !in chain then ChainsFrom(g, s, chain + [s], depth + 1, maxDepth) else [])
  }

  function CallChains(g: Graph, functionId: string, maxDepth: int): seq<seq<string>> {
    if functionId !in g.nodes then [] else Take(ChainsFrom(g, functionId, [functionId], 0, maxDepth), 10)
  }

  function Max(a: int, b: int): int { if a < b then b else a }

  /** A chain the search reports when started from `prefix`: a walk along
      call edges that extends prefix, visits no function twice, has at most
      maxDepth calls (or none beyond prefix when prefix is already that
      long), and stops only when it has maxDepth calls or its last function
      calls nothing. */
  predicate IsChain(g: Graph, prefix: seq<string>, c: seq<string>, maxDepth: int) {
    && prefix <= c
    && IsWalk(g, c)
    && NoDup(c)
    && |c| - 1 <= Max(|prefix| - 1, maxDepth)
    && (|c| - 1 >= maxDepth || OutDegree(g, c[|c| - 1]) == 0)
  }

  /** The search's arguments: a duplicate-free walk of depth + 1 functions
      that ends in node. */
  predicate SearchAt(g: Graph, node: string, chain: seq<string>, depth: nat) {
    IsWalk(g, chain) && NoDup(chain) && |chain| == depth + 1 && chain[depth] == node
  }

  /** One step of the search: through a successor not on the chain. */
  lemma ExtendSearch(g: Graph, node: string, chain: seq<string>, depth: nat, s: string)
    requires Digraph.Valid(g) && SearchAt(g, node, chain, depth) && (node, s) in g.edges && s !in chain
    ensures SearchAt(g, s, chain + [s], depth + 1)
  {
    var c := chain + [s];
    assert forall i :: 0 <= i < |chain| ==> c[i] == chain[i];
  }

  /** With depth to spare and successors to try, the chains reported from
      `chain` are those reported from its extension by one successor. */
  lemma ChainStep(g: Graph, node: string, chain: seq<string>, depth: nat, maxDepth: int, c: seq<string>)
    requires Digraph.Valid(g) && SearchAt(g, node, chain, depth) && depth < maxDepth
    requires |Successors(g, node)| > 0
    ensures IsChain(g, chain, c, maxDepth) <==>
      exists s :: s in Successors(g, node) && s !in chain && IsChain(g, chain + [s], c, maxDepth)
  {
    if IsChain(g, chain, c, maxDepth) {
      DegreeZero(g, node);
      if |c| > |chain| {
        var s := c[|chain|];
        assert (c[depth], c[depth + 1]) in g.edges;
        assert s in Successors(g, node);
        assert c[..|chain|] == chain;
        assert s !in chain by {
          forall i | 0 <= i < |chain| ensures chain[i] != s {
            assert chain[i] == c[i];
          }
        }
        assert c[..|chain| + 1] == chain + [s];
        assert IsChain(g, chain + [s], c, maxDepth);
      }
    }
  }

  /** A reported chain longer than the search's chain goes on to a
      successor of its last function. */
  lemma ChainNext(g: Graph, node: string, chain: seq<string>, depth: nat, maxDepth: int, c: seq<string>)
    requires SearchAt(g, node, chain, depth) && IsChain(g, chain, c, maxDepth) && |c| > |chain|
    ensures c[depth + 1] in Successors(g, node)
  {
    assert c[depth] == chain[depth];
    assert (c[depth], c[depth + 1]) in g.edges;
  }

  lemma {:induction false} ChainsFromIff(g: Graph, node: string, chain: seq<string>, depth: nat, maxDepth: int,
                                         c: seq<string>)
    requires Digraph.Valid(g) && SearchAt(g, node, chain, depth)
    ensures c in ChainsFrom(g, node, chain, depth, maxDepth) <==> IsChain(g, chain, c, maxDepth)
    decreases Budget(depth, maxDepth), 1, 0
  {
    if depth >= maxDepth {
      if IsChain(g, chain, c, maxDepth) {
        assert c == chain;
      }
    } else if |Successors(g, node)| == 0 {
      assert IsChain(g, chain, chain, maxDepth);
      if IsChain(g, chain, c, maxDepth) {
        if |c| > |chain| {
          ChainNext(g, node, chain, depth, maxDepth, c);
        }
        assert c[..|chain|] == chain;
        assert c == chain;
      }
      assert ChainsFrom(g, node, chain, depth, maxDepth) == [chain];
    } else {
      ChainsViaIff(g, node, Successors(g, node), chain, depth, maxDepth, c);
      ChainStep(g, node, chain, depth, maxDepth, c);
    }
  }

  lemma {:induction false} ChainsViaIff(g: Graph, node: string, succ: seq<string>, chain: seq<string>,
                                        depth: nat, maxDepth: int, c: seq<string>)
    requires Digraph.Valid(g) && SearchAt(g, node, chain, depth) && depth < maxDepth
    requires forall s :: s in succ ==> (node, s) in g.edges
    ensures c in ChainsVia(g, succ, chain, depth, maxDepth) <==>
      exists s :: s in succ && s !in chain && IsChain(g, chain + [s], c, maxDepth)
    decreases Budget(depth, maxDepth), 0, |succ|
  {
    if |succ| > 0 {
      var init, s := succ[..|succ| - 1], succ[|succ| - 1];
      assert forall x :: x in succ <==> x in init || x == s by {
        assert succ == init + [s];
      }
      ChainsViaIff(g, node, init, chain, depth, maxDepth, c);
      if s !in chain {
        ExtendSearch(g, node, chain, depth, s);
        ChainsFromIff(g, s, chain + [s], depth + 1, maxDepth, c);
      }
    }
  }

  /** get_call_chain: nothing for an unknown function; otherwise at most ten
      chains, each one the search reports (starting at the function, no
      function twice, stopping only at the depth limit or at a function that
      calls nothing), and all of them when there are at most ten. */
  lemma CallChainsSpec(g: Graph, functionId: string, maxDepth: int, c: seq<string>)
    requires Digraph.Valid(g)
    ensures functionId !in g.nodes ==> CallChains(g, functionId, maxDepth) == []
    ensures |CallChains(g, functionId, maxDepth)| <= 10
    ensures c in CallChains(g, functionId, maxDepth) ==> IsChain(g, [functionId], c, maxDepth)
    ensures |ChainsFrom(g, functionId, [functionId], 0, maxDepth)| <= 10 && IsChain(g, [functionId], c, maxDepth) ==>
      c in CallChains(g, functionId, maxDepth)
  {
    if IsChain(g, [functionId], c, maxDepth) {
      assert c[..1] == [functionId];
      assert c[0] == functionId && functionId in g.nodes;
    }
    if functionId in g.nodes {
      ChainsFromIff(g, functionId, [functionId], 0, maxDepth, c);
    }
  }

  /** A chain is a path: it starts at the function, follows call edges,
      repeats no function and has at most max(maxDepth, 0) calls. */
  lemma ChainShape(g: Graph, functionId: string, maxDepth: int, c: seq<string>)
    requires IsChain(g, [functionId], c, maxDepth)
    ensures c[0] == functionId && NoDup(c)
    ensures forall i :: 0 <= i < |c| - 1 ==> (c[i], c[i + 1]) in g.edges
    ensures |c| - 1 <= Max(0, maxDepth)
  {
    assert c[..1] == [functionId];
  }

  /** A function whose only callee is itself has no chain at all: the
      search never reports a chain that stops at a function whose callees
      are all on it already. */
  lemma SelfCallerHasNoChain(g: Graph, f: string, maxDepth: int)
    requires Digraph.Valid(g) && f in g.nodes && maxDepth > 0
    requires Successors(g, f) == [f]
    ensures CallChains(g, f, maxDepth) == []
  {
    assert ChainsVia(g, [f], [f], 0, maxDepth) == [] by {
      assert [f][..0] == [];
    }
  }
}
