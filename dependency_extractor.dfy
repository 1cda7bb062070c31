/** File-level dependencies. Every analysed file becomes a graph node; every
    import is matched, by substring containment of its module path, against
    the known file paths, and every match becomes an edge and an entry of the
    per-file dependency sets. The extractor keeps its graph and its sets
    across calls. The analysis ranks files by in- and out-degree, lists the
    isolated files and says whether the graph has a cycle; the export lists
    the nodes with their degrees and the edges. */
module DependencyExtractor {
  import opened Seqs
  import opened Text
  import opened AstParser
  import opened Digraph
  import opened Ranking

  // ---------------------------------------------------------------------
  // _resolve_import
  // ---------------------------------------------------------------------

  /** A dotted module name as the path fragment it is looked up by. */
  function ModulePath(moduleName: string): (r: string)
    ensures |r| == |moduleName|
    ensures '.' !in r
    ensures forall i :: 0 <= i < |r| && moduleName[i] != '.' ==> r[i] == moduleName[i]
  {
    ReplaceChar(moduleName, '.', '/')
  }

  /** The known paths that contain `fragment`, in the order of `paths`. */
  function Matching(fragment: string, paths: seq<string>): (r: seq<string>)
    ensures forall p :: p in r <==> p in paths && Contains(p, fragment)
    decreases |paths|
  {
    if |paths| == 0 then []
    else
      var last := paths[|paths| - 1];
      var rest := Matching(fragment, paths[..|paths| - 1]);
      assert forall p :: p in paths <==> p in paths[..|paths| - 1] || p == last;
      rest + (if Contains(last, fragment) then [last] else [])
  }

  /** The matches of every module of a plain import, module by module. */
  function ModuleMatches(modules: seq<string>, paths: seq<string>): seq<string>
    decreases |modules|
  {
    if |modules| == 0 then []
    else ModuleMatches(modules[..|modules| - 1], paths) + Matching(ModulePath(modules[|modules| - 1]), paths)
  }

  /** The files an import statement refers to. */
  function Resolved(imp: ImportInfo, paths: seq<string>): seq<string> {
    match imp
    case ImportRecord(modules, _) => ModuleMatches(modules, paths)
    case FromImportRecord(moduleName, _, _) =>
      if Truthy(moduleName) then Matching(ModulePath(moduleName.value), paths) else []
  }

  /** The path p is what the import names: for a plain import, some module's
      path is a substring of p; for a from-import, its module is neither
      missing nor empty and its path is a substring of p. */
  predicate ResolvesTo(imp: ImportInfo, p: string) {
    match imp
    case ImportRecord(modules, _) => exists m :: m in modules && Contains(p, ModulePath(m))
    case FromImportRecord(moduleName, _, _) =>
      Truthy(moduleName) && Contains(p, ModulePath(moduleName.value))
  }

  lemma {:induction false} ModuleMatchesIff(modules: seq<string>, paths: seq<string>, p: string)
    ensures p in ModuleMatches(modules, paths) <==>
      p in paths && exists m :: m in modules && Contains(p, ModulePath(m))
    decreases |modules|
  {
    if |modules| > 0 {
      var init := modules[..|modules| - 1];
      var last := modules[|modules| - 1];
      ModuleMatchesIff(init, paths, p);
      assert forall m :: m in modules <==> m in init || m == last;
    }
  }

  /** An import resolves exactly to the known paths it names; in particular a
      from-import whose module is missing or empty resolves to nothing. */
  lemma ResolvedIff(imp: ImportInfo, paths: seq<string>, p: string)
    ensures p in Resolved(imp, paths) <==> p in paths && ResolvesTo(imp, p)
  {
    if imp.ImportRecord? {
      ModuleMatchesIff(imp.modules, paths, p);
    }
  }

  /** The loop over the known paths that collects those containing the fragment. */
  method MatchPaths(fragment: string, paths: seq<string>) returns (found: seq<string>)
    ensures found == Matching(fragment, paths)
  {
    found := [];
    for j := 0 to |paths|
      invariant found == Matching(fragment, paths[..j])
    {
      assert paths[..j + 1][..j] == paths[..j];
      if Contains(paths[j], fragment) {
        found := found + [paths[j]];
      }
    }
    assert paths[..|paths|] == paths;
  }

  /** _resolve_import. */
  method ResolveImport(imp: ImportInfo, paths: seq<string>) returns (deps: seq<string>)
    ensures deps == Resolved(imp, paths)
  {
    deps := [];
    match imp
    case ImportRecord(modules, _) =>
      for i := 0 to |modules|
        invariant deps == ModuleMatches(modules[..i], paths)
      {
        assert modules[..i + 1][..i] == modules[..i];
        var found := MatchPaths(ModulePath(modules[i]), paths);
        deps := deps + found;
      }
      assert modules[..|modules|] == modules;
    case FromImportRecord(moduleName, _, _) =>
      if Truthy(moduleName) {
        deps := MatchPaths(ModulePath(moduleName.value), paths);
      }
  }

  /** Everything the imports of one file resolve to, import by import. */
  function AllResolved(imports: seq<ImportInfo>, paths: seq<string>): seq<string>
    decreases |imports|
  {
    if |imports| == 0 then []
    else AllResolved(imports[..|imports| - 1], paths) + Resolved(imports[|imports| - 1], paths)
  }

  lemma {:induction false} AllResolvedIff(imports: seq<ImportInfo>, paths: seq<string>, p: string)
    ensures p in AllResolved(imports, paths) <==>
      p in paths && exists imp :: imp in imports && ResolvesTo(imp, p)
    decreases |imports|
  {
    if |imports| > 0 {
      var init := imports[..|imports| - 1];
      var last := imports[|imports| - 1];
      AllResolvedIff(init, paths, p);
      ResolvedIff(last, paths, p);
      assert forall imp :: imp in imports <==> imp in init || imp == last;
    }
  }

  // ---------------------------------------------------------------------
  // The extractor's state and extract_dependencies
  // ---------------------------------------------------------------------

  /** The file paths of the parsed files, in input order. */
  function FilePaths(files: seq<ParseResult>): (r: seq<string>)
    ensures |r| == |files|
    ensures forall i :: 0 <= i < |files| ==> r[i] == files[i].filepath
  {
    seq(|files|, i requires 0 <= i < |files| => files[i].filepath)
  }

  /** The keys of the mapping from file path to parsed data: each path once,
      in the order of its first occurrence. */
  function FileKeys(files: seq<ParseResult>): (r: seq<string>)
    ensures NoDup(r)
    ensures forall p :: p in r <==> exists i :: 0 <= i < |files| && files[i].filepath == p
  {
    var ps := FilePaths(files);
    assert forall p :: p in ps <==> exists i :: 0 <= i < |files| && files[i].filepath == p by {
      forall p | p in ps ensures exists i :: 0 <= i < |files| && files[i].filepath == p {
        var i :| 0 <= i < |ps| && ps[i] == p;
        assert files[i].filepath == p;
      }
    }
    Dedup(ps)
  }

  datatype DepState = DepState(graph: Graph, fileDeps: map<string, set<string>>)

  /** The graph is a valid graph, the dependency sets hold exactly the edges,
      and a file has a dependency set only once it has a dependency. */
  ghost predicate StateValid(st: DepState) {
    && Digraph.Valid(st.graph)
    && (forall u, v :: (u, v) in st.graph.edges <==> u in st.fileDeps && v in st.fileDeps[u])
    && (forall u :: u in st.fileDeps ==> st.fileDeps[u] != {})
  }

  /** Recording one dependency: into the file's set and as an edge. */
  function AddDep(st: DepState, source: string, dep: string): (r: DepState)
    requires Digraph.Valid(st.graph)
    ensures Digraph.Valid(r.graph)
  {
    DepState(AddEdge(st.graph, source, dep), st.fileDeps[source := SetAt(st.fileDeps, source) + {dep}])
  }

  function AddDeps(st: DepState, source: string, deps: seq<string>): (r: DepState)
    requires Digraph.Valid(st.graph)
    ensures Digraph.Valid(r.graph)
    decreases |deps|
  {
    if |deps| == 0 then st
    else AddDep(AddDeps(st, source, deps[..|deps| - 1]), source, deps[|deps| - 1])
  }

  function AddImports(st: DepState, source: string, imports: seq<ImportInfo>, paths: seq<string>): (r: DepState)
    requires Digraph.Valid(st.graph)
    ensures Digraph.Valid(r.graph)
    decreases |imports|
  {
    if |imports| == 0 then st
    else
      AddDeps(AddImports(st, source, imports[..|imports| - 1], paths), source,
              Resolved(imports[|imports| - 1], paths))
  }

  /** One file: its node, then the dependencies of each of its imports. */
  function AddFile(st: DepState, f: ParseResult, paths: seq<string>): (r: DepState)
    requires Digraph.Valid(st.graph)
    ensures Digraph.Valid(r.graph)
  {
    AddImports(DepState(AddNode(st.graph, f.filepath), st.fileDeps), f.filepath, f.imports, paths)
  }

  function AddFiles(st: DepState, files: seq<ParseResult>, paths: seq<string>): (r: DepState)
    requires Digraph.Valid(st.graph)
    ensures Digraph.Valid(r.graph)
    decreases |files|
  {
    if |files| == 0 then st
    else AddFile(AddFiles(st, files[..|files| - 1], paths), files[|files| - 1], paths)
  }

  lemma AddDepValid(st: DepState, source: string, dep: string)
    requires StateValid(st)
    ensures StateValid(AddDep(st, source, dep))
  {
    var r := AddDep(st, source, dep);
    forall u, v ensures (u, v) in r.graph.edges <==> u in r.fileDeps && v in r.fileDeps[u] {
      if u == source {
        assert (u, v) in r.graph.edges <==> (u, v) in st.graph.edges || v == dep;
      }
    }
  }

  lemma {:induction false} AddDepsValid(st: DepState, source: string, deps: seq<string>)
    requires StateValid(st)
    ensures StateValid(AddDeps(st, source, deps))
    decreases |deps|
  {
    if |deps| > 0 {
      AddDepsValid(st, source, deps[..|deps| - 1]);
      AddDepValid(AddDeps(st, source, deps[..|deps| - 1]), source, deps[|deps| - 1]);
    }
  }

  lemma {:induction false} AddImportsValid(st: DepState, source: string, imports: seq<ImportInfo>, paths: seq<string>)
    requires StateValid(st)
    ensures StateValid(AddImports(st, source, imports, paths))
    decreases |imports|
  {
    if |imports| > 0 {
      AddImportsValid(st, source, imports[..|imports| - 1], paths);
      AddDepsValid(AddImports(st, source, imports[..|imports| - 1], paths), source,
                   Resolved(imports[|imports| - 1], paths));
    }
  }

  /** Extracting keeps the state consistent: the dependency sets mirror the
      edges, and no file has an empty set. */
  lemma {:induction false} AddFilesValid(st: DepState, files: seq<ParseResult>, paths: seq<string>)
    requires StateValid(st)
    ensures StateValid(AddFiles(st, files, paths))
    decreases |files|
  {
    if |files| > 0 {
      var before := AddFiles(st, files[..|files| - 1], paths);
      AddFilesValid(st, files[..|files| - 1], paths);
      var f := files[|files| - 1];
      AddImportsValid(DepState(AddNode(before.graph, f.filepath), before.fileDeps), f.filepath, f.imports, paths);
    }
  }

  lemma {:induction false} AddDepsGraph(st: DepState, source: string, deps: seq<string>)
    requires Digraph.Valid(st.graph) && source in st.graph.nodes
    ensures st.graph.nodes <= AddDeps(st, source, deps).graph.nodes
    ensures st.graph.edges <= AddDeps(st, source, deps).graph.edges
    ensures forall n :: n in AddDeps(st, source, deps).graph.nodes <==> n in st.graph.nodes || n in deps
    ensures forall e :: e in AddDeps(st, source, deps).graph.edges <==>
      e in st.graph.edges || (e.0 == source && e.1 in deps)
    decreases |deps|
  {
    if |deps| > 0 {
      var init := deps[..|deps| - 1];
      AddDepsGraph(st, source, init);
      assert forall x :: x in deps <==> x in init || x == deps[|deps| - 1];
    }
  }

  lemma {:induction false} AddImportsGraph(st: DepState, source: string, imports: seq<ImportInfo>, paths: seq<string>)
    requires Digraph.Valid(st.graph) && source in st.graph.nodes
    ensures st.graph.nodes <= AddImports(st, source, imports, paths).graph.nodes
    ensures st.graph.edges <= AddImports(st, source, imports, paths).graph.edges
    ensures forall n :: n in AddImports(st, source, imports, paths).graph.nodes <==>
      n in st.graph.nodes || n in AllResolved(imports, paths)
    ensures forall e :: e in AddImports(st, source, imports, paths).graph.edges <==>
      e in st.graph.edges || (e.0 == source && e.1 in AllResolved(imports, paths))
    decreases |imports|
  {
    if |imports| > 0 {
      var init := imports[..|imports| - 1];
      var before := AddImports(st, source, init, paths);
      AddImportsGraph(st, source, init, paths);
      AddDepsGraph(before, source, Resolved(imports[|imports| - 1], paths));
    }
  }

  /** The file `u` has an import that resolves to `v`. */
  ghost predicate Declares(files: seq<ParseResult>, paths: seq<string>, u: string, v: string) {
    exists i :: 0 <= i < |files| && files[i].filepath == u && v in AllResolved(files[i].imports, paths)
  }

  lemma {:induction false} AllResolvedWithin(imports: seq<ImportInfo>, paths: seq<string>, p: string)
    requires p in AllResolved(imports, paths)
    ensures p in paths
  {
    AllResolvedIff(imports, paths, p);
  }

  /** One file: its node is added, then the paths and edges of its imports. */
  lemma AddFileGraph(st: DepState, f: ParseResult, paths: seq<string>)
    requires Digraph.Valid(st.graph)
    ensures st.graph.nodes <= AddFile(st, f, paths).graph.nodes
    ensures st.graph.edges <= AddFile(st, f, paths).graph.edges
    ensures forall n :: n in AddFile(st, f, paths).graph.nodes <==>
      n in st.graph.nodes || n == f.filepath || n in AllResolved(f.imports, paths)
    ensures forall e :: e in AddFile(st, f, paths).graph.edges <==>
      e in st.graph.edges || (e.0 == f.filepath && e.1 in AllResolved(f.imports, paths))
  {
    var mid := DepState(AddNode(st.graph, f.filepath), st.fileDeps);
    AddImportsGraph(mid, f.filepath, f.imports, paths);
  }

  /** The step of AddFilesNodes, on the node lists alone. */
  lemma NodesStep(old0: seq<string>, before: seq<string>, after: seq<string>,
                  files: seq<ParseResult>, paths: seq<string>, resolved: seq<string>)
    requires |files| > 0
    requires old0 <= before <= after
    requires forall i :: 0 <= i < |files| - 1 ==> files[i].filepath in before
    requires forall n :: n in before ==> n in old0 || n in FilePaths(files[..|files| - 1]) || n in paths
    requires forall n :: n in after <==> n in before || n == files[|files| - 1].filepath || n in resolved
    requires forall n :: n in resolved ==> n in paths
    ensures old0 <= after
    ensures forall i :: 0 <= i < |files| ==> files[i].filepath in after
    ensures forall n :: n in after ==> n in old0 || n in FilePaths(files) || n in paths
  {
    var init := files[..|files| - 1];
    forall n | n in after ensures n in old0 || n in FilePaths(files) || n in paths {
      if n == files[|files| - 1].filepath {
        assert n == FilePaths(files)[|files| - 1];
      } else if n in FilePaths(init) {
        var i :| 0 <= i < |init| && FilePaths(init)[i] == n;
        assert FilePaths(files)[i] == n;
      }
    }
  }

  /** What one call does to the nodes: the old nodes stay first, in their
      order; every file becomes a node; a new node is a file or a path one of
      the imports resolves to. */
  lemma {:induction false} AddFilesNodes(st: DepState, files: seq<ParseResult>, paths: seq<string>)
    requires Digraph.Valid(st.graph)
    ensures st.graph.nodes <= AddFiles(st, files, paths).graph.nodes
    ensures forall i :: 0 <= i < |files| ==> files[i].filepath in AddFiles(st, files, paths).graph.nodes
    ensures forall n :: n in AddFiles(st, files, paths).graph.nodes ==>
      n in st.graph.nodes || n in FilePaths(files) || n in paths
    decreases |files|
  {
    if |files| > 0 {
      var init := files[..|files| - 1];
      var f := files[|files| - 1];
      var before := AddFiles(st, init, paths);
      AddFilesNodes(st, init, paths);
      AddFileGraph(before, f, paths);
      forall n | n in AllResolved(f.imports, paths) ensures n in paths {
        AllResolvedWithin(f.imports, paths, n);
      }
      assert forall i :: 0 <= i < |files| - 1 ==> files[i].filepath in before.graph.nodes by {
        forall i | 0 <= i < |files| - 1 ensures files[i].filepath in before.graph.nodes {
          assert init[i] == files[i];
        }
      }
      NodesStep(st.graph.nodes, before.graph.nodes, AddFile(before, f, paths).graph.nodes,
                files, paths, AllResolved(f.imports, paths));
    }
  }

  lemma DeclaresSnoc(files: seq<ParseResult>, paths: seq<string>, u: string, v: string)
    requires |files| > 0
    ensures Declares(files, paths, u, v) <==>
      Declares(files[..|files| - 1], paths, u, v) ||
      (files[|files| - 1].filepath == u && v in AllResolved(files[|files| - 1].imports, paths))
  {
    var init := files[..|files| - 1];
    if Declares(files, paths, u, v) {
      var i :| 0 <= i < |files| && files[i].filepath == u && v in AllResolved(files[i].imports, paths);
      if i < |init| {
        assert init[i] == files[i];
      }
    }
    if Declares(init, paths, u, v) {
      var i :| 0 <= i < |init| && init[i].filepath == u && v in AllResolved(init[i].imports, paths);
      assert files[i] == init[i];
    }
  }

  /** What one call does to the edges: the old edges stay first, in their
      order, and an edge is new exactly when a file has an import that
      resolves to its target. */
  lemma {:induction false} AddFilesEdges(st: DepState, files: seq<ParseResult>, paths: seq<string>)
    requires Digraph.Valid(st.graph)
    ensures st.graph.edges <= AddFiles(st, files, paths).graph.edges
    ensures forall u, v :: (u, v) in AddFiles(st, files, paths).graph.edges <==>
      (u, v) in st.graph.edges || Declares(files, paths, u, v)
    decreases |files|
  {
    if |files| > 0 {
      var init := files[..|files| - 1];
      var f := files[|files| - 1];
      var before := AddFiles(st, init, paths);
      AddFilesEdges(st, init, paths);
      AddFileGraph(before, f, paths);
      var r := AddFile(before, f, paths);
      assert r == AddFiles(st, files, paths);
      forall u, v ensures (u, v) in r.graph.edges <==> (u, v) in st.graph.edges || Declares(files, paths, u, v) {
        DeclaresSnoc(files, paths, u, v);
      }
    }
  }

  /** On files read from scratch, the nodes are exactly the analysed files
      and the edges are exactly the resolved imports. */
  lemma FreshGraph(files: seq<ParseResult>)
    ensures forall n :: n in AddFiles(DepState(Empty, map[]), files, FileKeys(files)).graph.nodes <==>
      n in FilePaths(files)
    ensures forall u, v :: (u, v) in AddFiles(DepState(Empty, map[]), files, FileKeys(files)).graph.edges <==>
      Declares(files, FileKeys(files), u, v)
  {
    var keys := FileKeys(files);
    AddFilesNodes(DepState(Empty, map[]), files, keys);
    AddFilesEdges(DepState(Empty, map[]), files, keys);
    forall n | n in keys ensures n in FilePaths(files) {
      var i :| 0 <= i < |files| && files[i].filepath == n;
      assert FilePaths(files)[i] == n;
    }
    forall n | n in FilePaths(files)
      ensures n in AddFiles(DepState(Empty, map[]), files, keys).graph.nodes
    {
      var i :| 0 <= i < |files| && FilePaths(files)[i] == n;
    }
  }

  // ---------------------------------------------------------------------
  // _analyze_dependencies
  // ---------------------------------------------------------------------

  /** The five highest counts, as sorted(..., reverse=True)[:5] picks them,
      with the zero counts then dropped. */
  function TopFive(items: seq<NodeCount>): seq<NodeCount> {
    Positive(Take(SortDesc(items, CountKey), 5), CountKey)
  }

  /** A degree ranking holds at most five entries, each taken from the
      input with a positive count, in non-increasing order, with equal counts
      in input order; when at most five entries have a positive count, all of
      them are there. */
  lemma TopFiveSpec(items: seq<NodeCount>)
    ensures TopFive(items) == TopPositive(items, CountKey, 5)
    ensures |TopFive(items)| <= 5
    ensures forall i :: 0 <= i < |TopFive(items)| ==> TopFive(items)[i].count > 0 && TopFive(items)[i] in items
    ensures NonIncreasing(TopFive(items), CountKey)
    ensures |Positive(items, CountKey)| <= 5 ==>
      forall x :: x in items && x.count > 0 ==> x in TopFive(items)
    ensures forall v: real :: v > 0.0 ==> WithKey(TopFive(items), CountKey, v) <= WithKey(items, CountKey, v)
  {
    SortDescSorted(items, CountKey);
    TakeThenPositive(SortDesc(items, CountKey), 5, CountKey);
    TopPositiveOrdered(items, CountKey, 5);
    var r := TopFive(items);
    assert forall i :: 0 <= i < |r| ==> CountKey(r[i]) > 0.0;
    forall v: real | v > 0.0 ensures WithKey(r, CountKey, v) <= WithKey(items, CountKey, v) {
      RankedTiesInOrder(items, CountKey, 5, v);
    }
  }

  /** The nodes with total degree zero, in node order. */
  function IsolatedAmong(g: Graph, nodes: seq<string>): (r: seq<string>)
    ensures forall n :: n in r <==> n in nodes && Degree(g, n) == 0
    decreases |nodes|
  {
    if |nodes| == 0 then []
    else
      var last := nodes[|nodes| - 1];
      var rest := IsolatedAmong(g, nodes[..|nodes| - 1]);
      assert forall n :: n in nodes <==> n in nodes[..|nodes| - 1] || n == last;
      rest + (if Degree(g, last) == 0 then [last] else [])
  }

  datatype DependencyAnalysis = DependencyAnalysis(
    mostDependedUpon: seq<NodeCount>,
    mostDependencies: seq<NodeCount>,
    isolatedFiles: seq<string>,
    hasCircularDependencies: bool)

  /** _analyze_dependencies, without the list of cycles itself. */
  function Analyze(g: Graph): DependencyAnalysis {
    DependencyAnalysis(TopFive(InDegrees(g)), TopFive(OutDegrees(g)), IsolatedAmong(g, g.nodes), CycleDetected(g))
  }

  /** The isolated files are exactly the nodes no edge touches, and the
      circular flag is set exactly when the graph has a cycle. */
  lemma AnalyzeSpec(g: Graph, n: string)
    requires Digraph.Valid(g)
    ensures n in Analyze(g).isolatedFiles <==>
      n in g.nodes && (forall x :: (n, x) !in g.edges) && (forall x :: (x, n) !in g.edges)
    ensures Analyze(g).hasCircularDependencies <==> HasCycle(g)
  {
    DegreeZero(g, n);
    CycleDetectedIff(g);
  }

  /** Both rankings are top-five selections of (node, degree) pairs. */
  lemma AnalyzeRankings(g: Graph)
    ensures Analyze(g).mostDependedUpon == TopPositive(InDegrees(g), CountKey, 5)
    ensures Analyze(g).mostDependencies == TopPositive(OutDegrees(g), CountKey, 5)
    ensures forall x :: x in Analyze(g).mostDependedUpon ==>
      x.node in g.nodes && x.count == InDegree(g, x.node) && x.count > 0
    ensures forall x :: x in Analyze(g).mostDependencies ==>
      x.node in g.nodes && x.count == OutDegree(g, x.node) && x.count > 0
  {
    TopFiveSpec(InDegrees(g));
    TopFiveSpec(OutDegrees(g));
    forall x | x in Analyze(g).mostDependedUpon
      ensures x.node in g.nodes && x.count == InDegree(g, x.node) && x.count > 0
    {
      DegreeCounts(g, x);
    }
    forall x | x in Analyze(g).mostDependencies
      ensures x.node in g.nodes && x.count == OutDegree(g, x.node) && x.count > 0
    {
      DegreeCounts(g, x);
    }
  }

  // ---------------------------------------------------------------------
  // export_graph_data
  // ---------------------------------------------------------------------

  datatype NodeData = NodeData(id: string, labelText: string, inDegree: nat, outDegree: nat)

  datatype GraphData = GraphData(nodes: seq<NodeData>, edges: seq<(string, string)>)

  /** Counting the exported edge list gives back every node's degrees. */
  lemma DegreesAgree(g: Graph)
    requires Digraph.Valid(g)
    ensures NoDup(EdgesBySource(g, g.nodes))
    ensures forall n :: n in g.nodes ==>
      InDegree(g, n) == |Sources(EdgesBySource(g, g.nodes), n)| &&
      OutDegree(g, n) == |Targets(EdgesBySource(g, g.nodes), n)|
  {
    var edges := EdgesBySource(g, g.nodes);
    EdgesBySourceNoDup(g, g.nodes);
    assert forall e :: e in edges <==> e in g.edges;
    forall n | n in g.nodes
      ensures InDegree(g, n) == |Sources(edges, n)| && OutDegree(g, n) == |Targets(edges, n)|
    {
      SameEdgesSameDegrees(g.edges, edges, n);
    }
  }

  /** What extract_dependencies returns. */
  datatype DependencyReport = DependencyReport(
    totalFiles: nat,
    dependencyGraph: Graph,
    fileDependencies: map<string, set<string>>,
    analysis: DependencyAnalysis)

  // ---------------------------------------------------------------------
  // The extractor
  // ---------------------------------------------------------------------

  class DependencyExtractor {
    var graph: Graph
    var fileDependencies: map<string, set<string>>

    ghost predicate Valid()
      reads this
    {
      StateValid(DepState(graph, fileDependencies))
    }

    function State(): DepState
      reads this
    {
      DepState(graph, fileDependencies)
    }

    constructor()
      ensures Valid()
      ensures graph == Empty && fileDependencies == map[]
    {
      graph := Empty;
      fileDependencies := map[];
    }

    /** The dependencies of one import of `source`, recorded one by one. */
    method AddDependencies(source: string, deps: seq<string>)
      requires Digraph.Valid(graph)
      modifies this
      ensures State() == AddDeps(old(State()), source, deps)
    {
      ghost var start := State();
      for k := 0 to |deps|
        invariant Digraph.Valid(start.graph)
        invariant State() == AddDeps(start, source, deps[..k])
      {
        assert deps[..k + 1][..k] == deps[..k];
        fileDependencies := fileDependencies[source := SetAt(fileDependencies, source) + {deps[k]}];
        graph := AddEdge(graph, source, deps[k]);
      }
      assert deps[..|deps|] == deps;
    }

    /** One file of the outer loop: its node, then each import's dependencies. */
    method AddFileData(f: ParseResult, paths: seq<string>)
      requires Digraph.Valid(graph)
      modifies this
      ensures State() == AddFile(old(State()), f, paths)
    {
      graph := AddNode(graph, f.filepath);
      ghost var start := State();
      for j := 0 to |f.imports|
        invariant Digraph.Valid(start.graph)
        invariant State() == AddImports(start, f.filepath, f.imports[..j], paths)
      {
        assert f.imports[..j + 1][..j] == f.imports[..j];
        var deps := ResolveImport(f.imports[j], paths);
        AddDependencies(f.filepath, deps);
      }
      assert f.imports[..|f.imports|] == f.imports;
    }

    /** extract_dependencies: adds the files' nodes and dependencies to what
        the extractor already holds, then analyses the whole graph. */
    method ExtractDependencies(files: seq<ParseResult>) returns (r: DependencyReport)
      requires Valid()
      modifies this
      ensures Valid()
      ensures State() == AddFiles(old(State()), files, FileKeys(files))
      ensures r == DependencyReport(|files|, graph, fileDependencies, Analyze(graph))
    {
      var paths := FileKeys(files);
      ghost var start := State();
      for i := 0 to |files|
        invariant Digraph.Valid(start.graph)
        invariant State() == AddFiles(start, files[..i], paths)
      {
        assert files[..i + 1][..i] == files[..i];
        AddFileData(files[i], paths);
      }
      assert files[..|files|] == files;
      AddFilesValid(start, files, paths);
      r := DependencyReport(|files|, graph, fileDependencies, Analyze(graph));
    }

    /** export_graph_data: each node with its file name and degrees, and the
        edges source by source; the degrees agree with the edge list. */
    function ExportGraphData(): (r: GraphData)
      requires Valid()
      reads this
      ensures |r.nodes| == |graph.nodes|
      ensures forall i :: 0 <= i < |r.nodes| ==>
        r.nodes[i].id == graph.nodes[i] && r.nodes[i].labelText == LastPiece(graph.nodes[i], '/')
      ensures forall e :: e in r.edges <==> e in graph.edges
      ensures NoDup(r.edges)
      ensures forall i :: 0 <= i < |r.nodes| ==>
        r.nodes[i].inDegree == |Sources(r.edges, r.nodes[i].id)| &&
        r.nodes[i].outDegree == |Targets(r.edges, r.nodes[i].id)|
    {
      var g := graph;
      DegreesAgree(g);
      var nodes := seq(|g.nodes|, i requires 0 <= i < |g.nodes| =>
        NodeData(g.nodes[i], LastPiece(g.nodes[i], '/'), InDegree(g, g.nodes[i]), OutDegree(g, g.nodes[i])));
      GraphData(nodes, EdgesBySource(g, g.nodes))
    }
  }
}
