/** The scopes a package is used in, found by walking the metadata once per package and scope. */
module NodeScopes {
  import opened Wrappers
  import opened Graphs
  import opened DependencyWalks

  datatype Scope = Runtime | BuildTime | ExampleDev

  /** A package as used in one scope. */
  datatype Use = Use(id: string, scope: Scope)

  /** A kind of dependency the walk follows. */
  predicate Followed(k: EdgeKind, includeDev: bool) {
    k == Normal || k == Build || (k == Dev && includeDev)
  }

  function ChildScope(scope: Scope, k: EdgeKind): Scope {
    if k == Dev || scope == ExampleDev then ExampleDev
    else if k == Build || scope == BuildTime then BuildTime
    else Runtime
  }

  /** One child for every followed kind of one dependency. */
  function KindChildren(pkg: string, kinds: seq<EdgeKind>, scope: Scope, includeDev: bool): seq<Use> {
    if kinds == [] then []
    else
      KindChildren(pkg, kinds[..|kinds| - 1], scope, includeDev)
      + if Followed(kinds[|kinds| - 1], includeDev) then [Use(pkg, ChildScope(scope, kinds[|kinds| - 1]))] else []
  }

  function Children(deps: seq<Dep>, scope: Scope, includeDev: bool): seq<Use> {
    if deps == [] then []
    else
      var d := deps[|deps| - 1];
      Children(deps[..|deps| - 1], scope, includeDev) + KindChildren(d.pkg, d.kinds, scope, includeDev)
  }

  /** The graph of uses. */
  function UseGraph(m: Metadata, includeDev: bool): Graph<Use> {
    map id, scope: Scope | id in m.nodes :: Use(id, scope) := Children(m.nodes[id], scope, includeDev)
  }

  // Paths by the kinds of their edges.

  /** A dependency of `a` on `b` of kind `k`. */
  ghost predicate KindEdge(m: Metadata, a: string, k: EdgeKind, b: string) {
    a in m.nodes && exists d :: d in m.nodes[a] && d.pkg == b && k in d.kinds
  }

  /** A path from `a` to `b` whose edges have these kinds, all of them followed. */
  ghost predicate KindPath(m: Metadata, includeDev: bool, a: string, kinds: seq<EdgeKind>, b: string)
    decreases kinds
  {
    if kinds == [] then a == b
    else
      && Followed(kinds[0], includeDev)
      && exists c :: KindEdge(m, a, kinds[0], c) && KindPath(m, includeDev, c, kinds[1..], b)
  }

  /** What a path makes of its end: dev if any edge is dev, else build if any is build, else runtime. */
  function PathScope(kinds: seq<EdgeKind>): Scope {
    if Dev in kinds then ExampleDev else if Build in kinds then BuildTime else Runtime
  }

  /** The scope at the end of a path that started in `scope`. */
  function Carried(scope: Scope, kinds: seq<EdgeKind>): Scope
    decreases kinds
  {
    if kinds == [] then scope else Carried(ChildScope(scope, kinds[0]), kinds[1..])
  }

  lemma {:induction false} CarriedIsJoin(scope: Scope, kinds: seq<EdgeKind>)
    ensures Carried(scope, kinds) ==
      if scope == ExampleDev || Dev in kinds then ExampleDev
      else if scope == BuildTime || Build in kinds then BuildTime
      else Runtime
    decreases kinds
  {
    if kinds != [] {
      CarriedIsJoin(ChildScope(scope, kinds[0]), kinds[1..]);
      assert kinds == [kinds[0]] + kinds[1..];
    }
  }

  lemma {:induction false} KindChildrenHas(pkg: string, kinds: seq<EdgeKind>, scope: Scope, includeDev: bool, u: Use)
    ensures u in KindChildren(pkg, kinds, scope, includeDev) <==>
      exists k :: k in kinds && Followed(k, includeDev) && u == Use(pkg, ChildScope(scope, k))
  {
    if kinds != [] {
      KindChildrenHas(pkg, kinds[..|kinds| - 1], scope, includeDev, u);
      assert kinds == kinds[..|kinds| - 1] + [kinds[|kinds| - 1]];
    }
  }

  lemma {:induction false} ChildrenHas(deps: seq<Dep>, scope: Scope, includeDev: bool, u: Use)
    ensures u in Children(deps, scope, includeDev) <==>
      exists d, k :: d in deps && d.pkg == u.id && k in d.kinds && Followed(k, includeDev) && u.scope == ChildScope(scope, k)
  {
    if deps != [] {
      var init, d := deps[..|deps| - 1], deps[|deps| - 1];
      ChildrenHas(init, scope, includeDev, u);
      KindChildrenHas(d.pkg, d.kinds, scope, includeDev, u);
      assert deps == init + [d];
    }
  }

  lemma UseEdge(m: Metadata, includeDev: bool, a: Use, b: Use)
    ensures Edge(UseGraph(m, includeDev), a, b) <==>
      exists k :: KindEdge(m, a.id, k, b.id) && Followed(k, includeDev) && b.scope == ChildScope(a.scope, k)
  {
    if a.id in m.nodes {
      var deps := m.nodes[a.id];
      assert a == Use(a.id, a.scope);
      ChildrenHas(deps, a.scope, includeDev, b);
      if k :| KindEdge(m, a.id, k, b.id) && Followed(k, includeDev) && b.scope == ChildScope(a.scope, k) {
        var d :| d in deps && d.pkg == b.id && k in d.kinds;
      }
      if d, k :| d in deps && d.pkg == b.id && k in d.kinds && Followed(k, includeDev) && b.scope == ChildScope(a.scope, k) {
        assert KindEdge(m, a.id, k, b.id);
      }
    }
  }

  lemma {:induction false} RouteHasKinds(m: Metadata, includeDev: bool, a: Use, p: seq<Use>, b: Use) returns (kinds: seq<EdgeKind>)
    requires Route(UseGraph(m, includeDev), a, p, b)
    ensures KindPath(m, includeDev, a.id, kinds, b.id) && b.scope == Carried(a.scope, kinds)
    decreases |p|
  {
    if p == [] {
      kinds := [];
    } else {
      UseEdge(m, includeDev, a, p[0]);
      var k :| KindEdge(m, a.id, k, p[0].id) && Followed(k, includeDev) && p[0].scope == ChildScope(a.scope, k);
      var rest := RouteHasKinds(m, includeDev, p[0], p[1..], b);
      kinds := [k] + rest;
      assert kinds[1..] == rest;
    }
  }

  lemma {:induction false} KindsHaveRoute(m: Metadata, includeDev: bool, a: Use, kinds: seq<EdgeKind>, b: string)
    requires KindPath(m, includeDev, a.id, kinds, b)
    ensures Reaches(UseGraph(m, includeDev), a, Use(b, Carried(a.scope, kinds)))
    decreases |kinds|
  {
    if kinds == [] {
      ReachesSelf(UseGraph(m, includeDev), a);
    } else {
      var c :| KindEdge(m, a.id, kinds[0], c) && KindPath(m, includeDev, c, kinds[1..], b);
      var next := Use(c, ChildScope(a.scope, kinds[0]));
      UseEdge(m, includeDev, a, next);
      KindsHaveRoute(m, includeDev, next, kinds[1..], b);
      ReachesStep(UseGraph(m, includeDev), a, next, Use(b, Carried(a.scope, kinds)));
    }
  }

  /** A package is met in a scope exactly when some path from the root makes that scope of it. */
  lemma ScopeIsPathScope(m: Metadata, includeDev: bool, root: string, u: Use)
    ensures Reaches(UseGraph(m, includeDev), Use(root, Runtime), u) <==>
      exists kinds :: KindPath(m, includeDev, root, kinds, u.id) && PathScope(kinds) == u.scope
  {
    var start := Use(root, Runtime);
    if Reaches(UseGraph(m, includeDev), start, u) {
      var p :| Route(UseGraph(m, includeDev), start, p, u);
      var kinds := RouteHasKinds(m, includeDev, start, p, u);
      CarriedIsJoin(Runtime, kinds);
    }
    if kinds :| KindPath(m, includeDev, root, kinds, u.id) && PathScope(kinds) == u.scope {
      KindsHaveRoute(m, includeDev, start, kinds, u.id);
      CarriedIsJoin(Runtime, kinds);
    }
  }

  // The walk.

  /** The package a notice is about. */
  type Identity = Package

  const UNPACKED_ROOT := "verified-unpacked-root"

  /** A package without a source is an unpacked one. */
  function IdentityOf(p: Package): Identity {
    if p.source == "" then p.(source := UNPACKED_ROOT) else p
  }

  /** A node the walk can process: known itself, and so is each of its dependencies. */
  predicate Complete(m: Metadata, id: string) {
    Known(m, id) && forall i :: 0 <= i < |m.nodes[id]| ==> m.nodes[id][i].pkg in m.packages
  }

  ghost predicate Met(m: Metadata, includeDev: bool, root: string, u: Use) {
    FromAny(UseGraph(m, includeDev), [Use(root, Runtime)], u)
  }

  /** The labels of the uses in `seen`, by identity. */
  ghost predicate Labels(m: Metadata, seen: set<Use>, scopes: map<Identity, set<Scope>>) {
    && (forall u :: u in seen ==> u.id in m.packages)
    && (forall u :: u in seen ==> IdentityOf(m.packages[u.id]) in scopes && u.scope in scopes[IdentityOf(m.packages[u.id])])
    && (forall x, s :: x in scopes && s in scopes[x] ==> Witness(m, seen, x, s))
    && (forall x :: x in scopes ==> scopes[x] != {})
  }

  ghost predicate Witness(m: Metadata, seen: set<Use>, x: Identity, s: Scope) {
    exists u :: u in seen && u.id in m.packages && IdentityOf(m.packages[u.id]) == x && u.scope == s
  }

  function AddLabel(scopes: map<Identity, set<Scope>>, x: Identity, s: Scope): map<Identity, set<Scope>> {
    scopes[x := (if x in scopes then scopes[x] else {}) + {s}]
  }

  lemma LabelsGrow(m: Metadata, seen: set<Use>, scopes: map<Identity, set<Scope>>, u: Use)
    requires Labels(m, seen, scopes) && u.id in m.packages
    ensures Labels(m, seen + {u}, AddLabel(scopes, IdentityOf(m.packages[u.id]), u.scope))
  {
    var x := IdentityOf(m.packages[u.id]);
    var scopes' := AddLabel(scopes, x, u.scope);
    forall y, s | y in scopes' && s in scopes'[y]
      ensures Witness(m, seen + {u}, y, s)
    {
      if y == x && s == u.scope {
        assert u in seen + {u};
      } else {
        assert Witness(m, seen, y, s);
        var v :| v in seen && v.id in m.packages && IdentityOf(m.packages[v.id]) == y && v.scope == s;
        assert v in seen + {u};
      }
    }
  }

  /** Where the walk stands: reachable uses only, all complete, all labelled. */
  ghost predicate Walked(
    m: Metadata, includeDev: bool, roots: seq<Use>, seen: set<Use>, pending: seq<Use>, scopes: map<Identity, set<Scope>>)
  {
    && Progress(UseGraph(m, includeDev), roots, seen, pending)
    && (forall u :: u in seen ==> Complete(m, u.id))
    && Labels(m, seen, scopes)
  }

  lemma WalkedTakes(
    m: Metadata, includeDev: bool, roots: seq<Use>, seen: set<Use>, pending: seq<Use>, scopes: map<Identity, set<Scope>>)
    requires pending != [] && Walked(m, includeDev, roots, seen, pending, scopes) && Complete(m, pending[|pending| - 1].id)
    ensures var u := pending[|pending| - 1];
      Walked(
        m, includeDev, roots, seen + {u}, pending[..|pending| - 1] + Children(m.nodes[u.id], u.scope, includeDev),
        AddLabel(scopes, IdentityOf(m.packages[u.id]), u.scope))
  {
    TakeUse(m, includeDev, roots, seen, pending);
    LabelsGrow(m, seen, scopes, pending[|pending| - 1]);
  }

  /**
   Walk from the root, once per package and scope. It fails exactly when a package met, or a dependency of
   one, is missing; otherwise the labels are those of the uses met.
   */
  method Scopes(m: Metadata, root: string, includeDev: bool)
    returns (r: Result<map<Identity, set<Scope>>, WalkError>, ghost seen: set<Use>)
    ensures r.Ok? <==> forall u :: Met(m, includeDev, root, u) ==> Complete(m, u.id)
    ensures r.Ok? ==> (forall u :: u in seen <==> Met(m, includeDev, root, u)) && Labels(m, seen, r.value)
  {
    ghost var g, roots := UseGraph(m, includeDev), [Use(root, Runtime)];
    var pending := [Use(root, Runtime)];
    var met: set<Use> := {};
    var scopes: map<Identity, set<Scope>> := map[];
    ProgressStarts(g, roots);
    while pending != []
      invariant Walked(m, includeDev, roots, met, pending, scopes)
      decreases |Space(g, roots) - met|, |pending|
    {
      var u := pending[|pending| - 1];
      if u in met {
        ProgressSkips(g, roots, met, pending);
        pending := pending[..|pending| - 1];
        continue;
      }
      if !Complete(m, u.id) {
        assert u in pending && Met(m, includeDev, root, u);
        return Err(if Known(m, u.id) then MissingDependency(u.id) else MissingNode(u.id)), met;
      }
      SpaceShrinks(g, roots, met, pending);
      WalkedTakes(m, includeDev, roots, met, pending, scopes);
      scopes := AddLabel(scopes, IdentityOf(m.packages[u.id]), u.scope);
      pending := pending[..|pending| - 1] + Children(m.nodes[u.id], u.scope, includeDev);
      met := met + {u};
    }
    ProgressEnds(g, roots, met);
    return Ok(scopes), met;
  }

  /** The walk from the package of a name, of which there must be one. */
  method ScopesOf(m: Metadata, rootName: string, includeDev: bool)
    returns (r: Result<map<Identity, set<Scope>>, WalkError>, ghost seen: set<Use>)
    ensures |RootIds(m, rootName)| != 1 ==> r == Err(AmbiguousRoot)
    ensures forall root :: RootIds(m, rootName) == {root} ==>
      && (r.Ok? <==> forall u :: Met(m, includeDev, root, u) ==> Complete(m, u.id))
      && (r.Ok? ==> (forall u :: u in seen <==> Met(m, includeDev, root, u)) && Labels(m, seen, r.value))
  {
    seen := {};
    var roots := RootIds(m, rootName);
    if |roots| != 1 {
      return Err(AmbiguousRoot), seen;
    }
    var root := TheOne(roots);
    r, seen := Scopes(m, root, includeDev);
  }

  lemma TakeUse(m: Metadata, includeDev: bool, roots: seq<Use>, seen: set<Use>, pending: seq<Use>)
    requires pending != [] && Progress(UseGraph(m, includeDev), roots, seen, pending)
    requires pending[|pending| - 1].id in m.nodes
    ensures var u := pending[|pending| - 1];
      Progress(UseGraph(m, includeDev), roots, seen + {u}, pending[..|pending| - 1] + Children(m.nodes[u.id], u.scope, includeDev))
  {
    var u := pending[|pending| - 1];
    assert u == Use(u.id, u.scope);
    assert UseGraph(m, includeDev)[u] == Children(m.nodes[u.id], u.scope, includeDev);
    ProgressTakes(
      UseGraph(m, includeDev), roots, seen, pending,
      pending[..|pending| - 1] + Children(m.nodes[u.id], u.scope, includeDev));
  }

  // What the labels say.

  /**
   An identity carries a scope exactly when a package of that identity is at the end of some path from the
   root that makes that scope of it.
   */
  lemma LabelsArePathScopes(
    m: Metadata, includeDev: bool, root: string, seen: set<Use>, scopes: map<Identity, set<Scope>>, x: Identity, s: Scope)
    requires (forall u :: u in seen <==> Met(m, includeDev, root, u)) && Labels(m, seen, scopes)
    ensures x in scopes && s in scopes[x] <==>
      exists id, kinds ::
        && id in m.packages && IdentityOf(m.packages[id]) == x
        && KindPath(m, includeDev, root, kinds, id) && PathScope(kinds) == s
  {
    if x in scopes && s in scopes[x] {
      assert Witness(m, seen, x, s);
      var u :| u in seen && u.id in m.packages && IdentityOf(m.packages[u.id]) == x && u.scope == s;
      FromOne(UseGraph(m, includeDev), Use(root, Runtime), u);
      ScopeIsPathScope(m, includeDev, root, u);
    }
    if id, kinds :|
      && id in m.packages && IdentityOf(m.packages[id]) == x
      && KindPath(m, includeDev, root, kinds, id) && PathScope(kinds) == s
    {
      var u := Use(id, s);
      ScopeIsPathScope(m, includeDev, root, u);
      FromOne(UseGraph(m, includeDev), Use(root, Runtime), u);
      assert u in seen;
    }
  }

  // Without dev edges, the packages met are those of the build closure.

  lemma {:induction false} BuiltDepsHas(deps: seq<Dep>, b: string)
    ensures b in BuiltDeps(deps) <==> exists d :: d in deps && Built(d) && d.pkg == b
  {
    if deps != [] {
      BuiltDepsHas(deps[..|deps| - 1], b);
      assert deps == deps[..|deps| - 1] + [deps[|deps| - 1]];
    }
  }

  lemma BuiltEdge(m: Metadata, a: string, b: string)
    ensures Edge(BuildGraph(m), a, b) <==> exists k :: KindEdge(m, a, k, b) && Followed(k, false)
  {
    if a in m.nodes {
      BuiltDepsHas(m.nodes[a], b);
      if d :| d in m.nodes[a] && Built(d) && d.pkg == b {
        var i :| 0 <= i < |d.kinds| && (d.kinds[i] == Normal || d.kinds[i] == Build);
        assert KindEdge(m, a, d.kinds[i], b);
      }
      if k :| KindEdge(m, a, k, b) && Followed(k, false) {
        var d :| d in m.nodes[a] && d.pkg == b && k in d.kinds;
        assert Built(d);
      }
    }
  }

  lemma {:induction false} BuiltRouteHasKinds(m: Metadata, a: string, p: seq<string>, b: string) returns (kinds: seq<EdgeKind>)
    requires Route(BuildGraph(m), a, p, b)
    ensures KindPath(m, false, a, kinds, b)
    decreases |p|
  {
    if p == [] {
      kinds := [];
    } else {
      BuiltEdge(m, a, p[0]);
      var k :| KindEdge(m, a, k, p[0]) && Followed(k, false);
      var rest := BuiltRouteHasKinds(m, p[0], p[1..], b);
      kinds := [k] + rest;
      assert kinds[1..] == rest;
    }
  }

  lemma {:induction false} KindsAreBuilt(m: Metadata, a: string, kinds: seq<EdgeKind>, b: string)
    requires KindPath(m, false, a, kinds, b)
    ensures Reaches(BuildGraph(m), a, b)
    decreases |kinds|
  {
    if kinds == [] {
      ReachesSelf(BuildGraph(m), a);
    } else {
      var c :| KindEdge(m, a, kinds[0], c) && KindPath(m, false, c, kinds[1..], b);
      BuiltEdge(m, a, c);
      KindsAreBuilt(m, c, kinds[1..], b);
      ReachesStep(BuildGraph(m), a, c, b);
    }
  }

  lemma MetIsBuilt(m: Metadata, root: string, id: string)
    ensures InClosure(m, root, id) <==> exists s :: Met(m, false, root, Use(id, s))
  {
    FromOne(BuildGraph(m), root, id);
    var start := Use(root, Runtime);
    if Reaches(BuildGraph(m), root, id) {
      var p :| Route(BuildGraph(m), root, p, id);
      var kinds := BuiltRouteHasKinds(m, root, p, id);
      ScopeIsPathScope(m, false, root, Use(id, PathScope(kinds)));
      FromOne(UseGraph(m, false), start, Use(id, PathScope(kinds)));
      assert Met(m, false, root, Use(id, PathScope(kinds)));
    }
    if s :| Met(m, false, root, Use(id, s)) {
      FromOne(UseGraph(m, false), start, Use(id, s));
      ScopeIsPathScope(m, false, root, Use(id, s));
      var kinds :| KindPath(m, false, root, kinds, id) && PathScope(kinds) == s;
      KindsAreBuilt(m, root, kinds, id);
    }
  }

  /** Names and versions of the labelled identities, and of the packages of the build closure. */
  function Named(x: Package): (string, string) {
    (x.name, x.version)
  }

  /**
   The closure-equality check of the notices always passes on metadata both walks accept: the packages
   labelled without dev edges are, by name and version, those of the build closure.
   */
  lemma ClosureCheckPasses(
    m: Metadata, root: string, seen: set<Use>, scopes: map<Identity, set<Scope>>, reachable: set<string>)
    requires (forall u :: u in seen <==> Met(m, false, root, u)) && Labels(m, seen, scopes)
    requires forall n :: n in reachable <==> InClosure(m, root, n)
    requires forall n :: n in reachable ==> n in m.packages
    ensures (set x | x in scopes :: Named(x)) == (set n | n in reachable :: Named(m.packages[n]))
  {
    var labelled, built := (set x | x in scopes :: Named(x)), (set n | n in reachable :: Named(m.packages[n]));
    forall p | p in labelled
      ensures p in built
    {
      var x :| x in scopes && Named(x) == p;
      var s :| s in scopes[x];
      assert Witness(m, seen, x, s);
      var u :| u in seen && u.id in m.packages && IdentityOf(m.packages[u.id]) == x && u.scope == s;
      assert u == Use(u.id, s);
      MetIsBuilt(m, root, u.id);
      assert u.id in reachable;
    }
    forall p | p in built
      ensures p in labelled
    {
      var n :| n in reachable && Named(m.packages[n]) == p;
      MetIsBuilt(m, root, n);
      var s :| Met(m, false, root, Use(n, s));
      assert Use(n, s) in seen;
      assert IdentityOf(m.packages[n]) in scopes;
    }
  }
}
