/** Reachability in finite directed graphs given by adjacency lists. */
module Graphs {

  type Graph<T(==)> = map<T, seq<T>>

  predicate Edge<T>(g: Graph<T>, a: T, b: T) {
    a in g && b in g[a]
  }

  /** `p` lists the nodes visited after `a`, the last of them `b`. */
  ghost predicate Route<T>(g: Graph<T>, a: T, p: seq<T>, b: T) {
    if p == [] then a == b else Edge(g, a, p[0]) && Route(g, p[0], p[1..], b)
  }

  ghost predicate Reaches<T(!new)>(g: Graph<T>, a: T, b: T) {
    exists p :: Route(g, a, p, b)
  }

  /** `a` can be left and reached again. */
  ghost predicate OnCycle<T(!new)>(g: Graph<T>, a: T) {
    exists b :: Edge(g, a, b) && Reaches(g, b, a)
  }

  lemma ReachesSelf<T(!new)>(g: Graph<T>, a: T)
    ensures Reaches(g, a, a)
  {
    assert Route(g, a, [], a);
  }

  lemma ReachesStep<T(!new)>(g: Graph<T>, a: T, b: T, c: T)
    requires Edge(g, a, b) && Reaches(g, b, c)
    ensures Reaches(g, a, c)
  {
    var p :| Route(g, b, p, c);
    assert ([b] + p)[1..] == p;
    assert Route(g, a, [b] + p, c);
  }

  lemma {:induction false} RouteConcat<T>(g: Graph<T>, a: T, p: seq<T>, b: T, q: seq<T>, c: T)
    requires Route(g, a, p, b) && Route(g, b, q, c)
    ensures Route(g, a, p + q, c)
    decreases |p|
  {
    if p == [] {
      assert p + q == q;
    } else {
      RouteConcat(g, p[0], p[1..], b, q, c);
      assert (p + q)[1..] == p[1..] + q;
    }
  }

  lemma ReachesTransitive<T(!new)>(g: Graph<T>, a: T, b: T, c: T)
    requires Reaches(g, a, b) && Reaches(g, b, c)
    ensures Reaches(g, a, c)
  {
    var p :| Route(g, a, p, b);
    var q :| Route(g, b, q, c);
    RouteConcat(g, a, p, b, q, c);
  }

  lemma ReachesEdge<T(!new)>(g: Graph<T>, a: T, b: T, c: T)
    requires Reaches(g, a, b) && Edge(g, b, c)
    ensures Reaches(g, a, c)
  {
    ReachesSelf(g, c);
    ReachesStep(g, b, c, c);
    ReachesTransitive(g, a, b, c);
  }

  /** A route that goes anywhere starts with an edge. */
  lemma FirstEdge<T(!new)>(g: Graph<T>, a: T, c: T) returns (b: T)
    requires Reaches(g, a, c) && a != c
    ensures Edge(g, a, b) && Reaches(g, b, c)
  {
    var p :| Route(g, a, p, c);
    b := p[0];
    assert Route(g, b, p[1..], c);
  }

  ghost predicate Closed<T(!new)>(g: Graph<T>, s: set<T>) {
    forall a, b :: a in s && Edge(g, a, b) ==> b in s
  }

  /** No route leaves a closed set. */
  lemma {:induction false} ClosedKeeps<T(!new)>(g: Graph<T>, s: set<T>, a: T, p: seq<T>, b: T)
    requires Closed(g, s) && a in s && Route(g, a, p, b)
    ensures b in s
    decreases |p|
  {
    if p != [] {
      ClosedKeeps(g, s, p[0], p[1..], b);
    }
  }

  lemma ClosedHolds<T(!new)>(g: Graph<T>, s: set<T>, a: T, b: T)
    requires Closed(g, s) && a in s && Reaches(g, a, b)
    ensures b in s
  {
    var p :| Route(g, a, p, b);
    ClosedKeeps(g, s, a, p, b);
  }

  /** Every node the graph mentions. */
  function Nodes<T>(g: Graph<T>): set<T> {
    g.Keys + set a, b | a in g && b in g[a] :: b
  }

  /** The nodes reachable from `a`. */
  ghost function Reach<T(!new)>(g: Graph<T>, a: T): set<T> {
    set n | n in Nodes(g) + {a} && Reaches(g, a, n)
  }

  lemma ReachHas<T(!new)>(g: Graph<T>, a: T, b: T)
    ensures b in Reach(g, a) <==> Reaches(g, a, b)
  {
    if Reaches(g, a, b) {
      assert Closed(g, Nodes(g) + {a}) by {
        forall x, y | x in Nodes(g) + {a} && Edge(g, x, y)
          ensures y in Nodes(g)
        {
        }
      }
      ClosedHolds(g, Nodes(g) + {a}, a, b);
    }
  }

  /** Following an edge out of a cycle-free node leaves fewer nodes to reach. */
  lemma ReachShrinks<T(!new)>(g: Graph<T>, a: T, b: T)
    requires Edge(g, a, b) && !Reaches(g, b, a)
    ensures |Reach(g, b)| < |Reach(g, a)|
  {
    forall n | n in Reach(g, b)
      ensures n in Reach(g, a)
    {
      ReachHas(g, b, n);
      ReachesStep(g, a, b, n);
      ReachHas(g, a, n);
    }
    ReachesSelf(g, a);
    ReachHas(g, a, a);
    ReachHas(g, b, a);
    SmallerSet(Reach(g, b), Reach(g, a), a);
  }

  lemma SmallerSet<T>(x: set<T>, y: set<T>, e: T)
    requires x <= y && e in y && e !in x
    ensures |x| < |y|
  {
    assert x <= y - {e};
    SubsetSize(x, y - {e});
  }

  lemma {:induction false} SubsetSize<T>(x: set<T>, y: set<T>)
    requires x <= y
    ensures |x| <= |y|
  {
    if x != {} {
      var e :| e in x;
      SubsetSize(x - {e}, y - {e});
    }
  }

  // Worklists: what a pass that takes nodes off a stack keeps.

  ghost predicate FromAny<T(!new)>(g: Graph<T>, roots: seq<T>, n: T) {
    exists r :: r in roots && Reaches(g, r, n)
  }

  lemma FromOne<T(!new)>(g: Graph<T>, r: T, n: T)
    ensures FromAny(g, [r], n) <==> Reaches(g, r, n)
  {
    assert r in [r];
  }

  /** The nodes a walk from `roots` can meet. */
  function Space<T>(g: Graph<T>, roots: seq<T>): set<T> {
    Nodes(g) + set r | r in roots
  }

  /** Everything met is reachable, and nothing taken leads outside what is taken or waiting. */
  ghost predicate Progress<T(!new)>(g: Graph<T>, roots: seq<T>, taken: set<T>, stack: seq<T>) {
    && (forall r :: r in roots ==> r in taken || r in stack)
    && (forall n :: n in taken || n in stack ==> n in Space(g, roots) && FromAny(g, roots, n))
    && (forall a, b :: a in taken && Edge(g, a, b) ==> b in taken || b in stack)
  }

  lemma ProgressStarts<T(!new)>(g: Graph<T>, roots: seq<T>)
    ensures Progress(g, roots, {}, roots)
  {
    forall r | r in roots
      ensures FromAny(g, roots, r)
    {
      ReachesSelf(g, r);
    }
  }

  lemma ProgressSkips<T(!new)>(g: Graph<T>, roots: seq<T>, taken: set<T>, stack: seq<T>)
    requires stack != [] && Progress(g, roots, taken, stack) && stack[|stack| - 1] in taken
    ensures Progress(g, roots, taken, stack[..|stack| - 1])
  {
    assert stack == stack[..|stack| - 1] + [stack[|stack| - 1]];
  }

  /** Taking the top node: its successors go on the stack, except any already taken. */
  lemma ProgressTakes<T(!new)>(g: Graph<T>, roots: seq<T>, taken: set<T>, stack: seq<T>, pushed: seq<T>)
    requires stack != [] && Progress(g, roots, taken, stack)
    requires forall n :: n in stack[..|stack| - 1] ==> n in pushed
    requires forall n :: n in pushed ==> n in stack[..|stack| - 1] || Edge(g, stack[|stack| - 1], n)
    requires forall n :: Edge(g, stack[|stack| - 1], n) ==> n in pushed || n in taken || n == stack[|stack| - 1]
    ensures Progress(g, roots, taken + {stack[|stack| - 1]}, pushed)
  {
    var top, rest := stack[|stack| - 1], stack[..|stack| - 1];
    assert stack == rest + [top];
    forall n | Edge(g, top, n)
      ensures n in Space(g, roots) && FromAny(g, roots, n)
    {
      var r :| r in roots && Reaches(g, r, top);
      ReachesEdge(g, r, top, n);
    }
  }

  lemma SpaceShrinks<T(!new)>(g: Graph<T>, roots: seq<T>, taken: set<T>, stack: seq<T>)
    requires stack != [] && Progress(g, roots, taken, stack) && stack[|stack| - 1] !in taken
    ensures |Space(g, roots) - (taken + {stack[|stack| - 1]})| < |Space(g, roots) - taken|
  {
    var top := stack[|stack| - 1];
    assert top in stack;
    SmallerSet(Space(g, roots) - (taken + {top}), Space(g, roots) - taken, top);
  }

  lemma ProgressEnds<T(!new)>(g: Graph<T>, roots: seq<T>, taken: set<T>)
    requires Progress(g, roots, taken, [])
    ensures forall n :: n in taken <==> FromAny(g, roots, n)
  {
    forall n | FromAny(g, roots, n)
      ensures n in taken
    {
      var r :| r in roots && Reaches(g, r, n);
      ClosedHolds(g, taken, r, n);
    }
  }

  /** Depth-first search with an explicit stack. */
  method HasPath<T(!new)>(g: Graph<T>, start: T, goal: T) returns (found: bool)
    ensures found <==> Reaches(g, start, goal)
  {
    var visited: set<T> := {};
    var stack := [start];
    ReachesSelf(g, start);
    while stack != []
      invariant start in visited || start in stack
      invariant goal !in visited && visited <= Nodes(g) + {start}
      invariant forall n :: n in stack ==> n in Nodes(g) + {start} && Reaches(g, start, n)
      invariant forall a, b :: a in visited && Edge(g, a, b) ==> b in visited || b in stack
      invariant forall n :: n in visited ==> Reaches(g, start, n)
      decreases |Nodes(g) + {start} - visited|, |stack|
    {
      var node := stack[|stack| - 1];
      ghost var before := stack;
      stack := stack[..|stack| - 1];
      assert forall n :: n in before ==> n == node || n in stack;
      if node == goal {
        return true;
      }
      if node in visited {
        continue;
      }
      SmallerSet(Nodes(g) + {start} - visited - {node}, Nodes(g) + {start} - visited, node);
      assert Nodes(g) + {start} - (visited + {node}) == Nodes(g) + {start} - visited - {node};
      visited := visited + {node};
      if node in g {
        forall n | n in g[node]
          ensures Reaches(g, start, n) && n in Nodes(g)
        {
          ReachesEdge(g, start, node, n);
        }
        stack := stack + g[node];
      }
    }
    if Reaches(g, start, goal) {
      ClosedHolds(g, visited, start, goal);
    }
    return false;
  }
}
