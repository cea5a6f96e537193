/** The dependency closures the release scripts walk over Cargo's resolved metadata. */
module DependencyWalks {
  import opened Wrappers
  import opened Graphs

  datatype EdgeKind = Normal | Build | Dev | Other

  datatype Dep = Dep(pkg: string, kinds: seq<EdgeKind>)

  datatype Package = Package(name: string, version: string, source: string)

  datatype Metadata = Metadata(packages: map<string, Package>, nodes: map<string, seq<Dep>>)

  datatype WalkError = AmbiguousRoot | MissingNode(id: string) | MissingDependency(id: string)

  /** The one package of a name. */
  function RootIds(m: Metadata, name: string): set<string> {
    set id | id in m.packages && m.packages[id].name == name
  }

  /** Dependencies that are built: some kind is normal or build. */
  predicate Built(d: Dep) {
    exists i :: 0 <= i < |d.kinds| && (d.kinds[i] == Normal || d.kinds[i] == Build)
  }

  function BuiltDeps(deps: seq<Dep>): seq<string> {
    if deps == [] then []
    else BuiltDeps(deps[..|deps| - 1]) + if Built(deps[|deps| - 1]) then [deps[|deps| - 1].pkg] else []
  }

  /** The graph both package walks follow. */
  function BuildGraph(m: Metadata): Graph<string> {
    map id | id in m.nodes :: BuiltDeps(m.nodes[id])
  }

  /** Everything a node's closure needs is there. */
  predicate Known(m: Metadata, id: string) {
    id in m.packages && id in m.nodes
  }

  /** A name for the nodes of the built closure. */
  ghost predicate InClosure(m: Metadata, root: string, n: string) {
    FromAny(BuildGraph(m), [root], n)
  }

  /**
   The built closure by worklist. It fails exactly when a reachable node is missing from the metadata;
   otherwise it is exactly the nodes reachable over built dependencies.
   */
  method NormalIds(m: Metadata, rootName: string) returns (r: Result<set<string>, WalkError>)
    ensures |RootIds(m, rootName)| != 1 ==> r == Err(AmbiguousRoot)
    ensures forall root :: RootIds(m, rootName) == {root} ==>
      && (r.Ok? <==> forall n :: InClosure(m, root, n) ==> Known(m, n))
      && (r.Ok? ==> forall n :: n in r.value <==> InClosure(m, root, n))
  {
    var roots := RootIds(m, rootName);
    if |roots| != 1 {
      return Err(AmbiguousRoot);
    }
    var root := TheOne(roots);
    r := Walk(m, root);
  }

  method TheOne(s: set<string>) returns (x: string)
    requires |s| == 1
    ensures s == {x}
  {
    x :| x in s;
    assert |s - {x}| == 0;
    assert s == {x};
  }

  lemma TakeBuilt(m: Metadata, root: string, reachable: set<string>, pending: seq<string>)
    requires pending != [] && Progress(BuildGraph(m), [root], reachable, pending) && pending[|pending| - 1] in m.nodes
    ensures var item := pending[|pending| - 1];
      Progress(BuildGraph(m), [root], reachable + {item}, pending[..|pending| - 1] + BuiltDeps(m.nodes[item]))
  {
    var item := pending[|pending| - 1];
    assert BuildGraph(m)[item] == BuiltDeps(m.nodes[item]);
    ProgressTakes(BuildGraph(m), [root], reachable, pending, pending[..|pending| - 1] + BuiltDeps(m.nodes[item]));
  }

  method Walk(m: Metadata, root: string) returns (r: Result<set<string>, WalkError>)
    ensures r.Ok? <==> forall n :: InClosure(m, root, n) ==> Known(m, n)
    ensures r.Ok? ==> forall n :: n in r.value <==> InClosure(m, root, n)
  {
    ghost var g := BuildGraph(m);
    var reachable: set<string> := {};
    var pending := [root];
    ProgressStarts(g, [root]);
    while pending != []
      invariant Progress(g, [root], reachable, pending)
      invariant forall n :: n in reachable ==> Known(m, n)
      decreases |Space(g, [root]) - reachable|, |pending|
    {
      var item := pending[|pending| - 1];
      if item in reachable {
        ProgressSkips(g, [root], reachable, pending);
        pending := pending[..|pending| - 1];
        continue;
      }
      if item !in m.packages || item !in m.nodes {
        assert item in pending && InClosure(m, root, item) && !Known(m, item);
        return Err(MissingNode(item));
      }
      SpaceShrinks(g, [root], reachable, pending);
      TakeBuilt(m, root, reachable, pending);
      pending := pending[..|pending| - 1] + BuiltDeps(m.nodes[item]);
      reachable := reachable + {item};
    }
    ProgressEnds(g, [root], reachable);
    return Ok(reachable);
  }
}
