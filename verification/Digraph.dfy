/** Finite directed graphs over agent identifiers: walks, reachability and cycles. */
module Digraph {

  datatype Edge = Edge(src: string, dst: string)

  /** A walk visits at least one node, and each step follows an edge. */
  ghost predicate IsWalk(edges: set<Edge>, walk: seq<string>) {
    |walk| > 0 && forall i :: 0 <= i < |walk| - 1 ==> Edge(walk[i], walk[i + 1]) in edges
  }

  ghost predicate WalkBetween(edges: set<Edge>, walk: seq<string>, a: string, b: string) {
    IsWalk(edges, walk) && walk[0] == a && walk[|walk| - 1] == b
  }

  /** Every node reaches itself, by the walk that takes no step. */
  ghost predicate Reaches(edges: set<Edge>, a: string, b: string) {
    exists walk :: WalkBetween(edges, walk, a, b)
  }

  ghost predicate ClosedWalk(edges: set<Edge>, walk: seq<string>) {
    IsWalk(edges, walk) && |walk| > 1 && walk[0] == walk[|walk| - 1]
  }

  ghost predicate Acyclic(edges: set<Edge>) {
    forall walk :: !ClosedWalk(edges, walk)
  }

  lemma ReachesSelf(edges: set<Edge>, a: string)
    ensures Reaches(edges, a, a)
  {
    assert WalkBetween(edges, [a], a, a);
  }

  lemma ReachesStep(edges: set<Edge>, a: string, b: string)
    requires Edge(a, b) in edges
    ensures Reaches(edges, a, b)
  {
    assert WalkBetween(edges, [a, b], a, b);
  }

  lemma ReachesTransitive(edges: set<Edge>, a: string, b: string, c: string)
    requires Reaches(edges, a, b) && Reaches(edges, b, c)
    ensures Reaches(edges, a, c)
  {
    var p :| WalkBetween(edges, p, a, b);
    var q :| WalkBetween(edges, q, b, c);
    assert WalkBetween(edges, p + q[1..], a, c);
  }

  lemma ReachesMonotone(edges: set<Edge>, more: set<Edge>, a: string, b: string)
    requires edges <= more && Reaches(edges, a, b)
    ensures Reaches(more, a, b)
  {
    var p :| WalkBetween(edges, p, a, b);
    assert WalkBetween(more, p, a, b);
  }

  // ----- Adding one edge

  /** A walk of the enlarged graph either avoids the new edge or splits around it. */
  lemma {:induction false} WalkAroundNewEdge(edges: set<Edge>, s: string, t: string, walk: seq<string>)
    requires IsWalk(edges + {Edge(s, t)}, walk)
    ensures IsWalk(edges, walk) || (Reaches(edges, walk[0], s) && Reaches(edges, t, walk[|walk| - 1]))
  {
    if |walk| > 1 {
      var front := walk[..|walk| - 1];
      var x, y := front[|front| - 1], walk[|walk| - 1];
      WalkAroundNewEdge(edges, s, t, front);
      assert Edge(walk[|walk| - 2], walk[|walk| - 1]) in edges + {Edge(s, t)};
      if Edge(x, y) in edges {
        if IsWalk(edges, front) {
          assert IsWalk(edges, walk);
        } else {
          ReachesStep(edges, x, y);
          ReachesTransitive(edges, t, x, y);
        }
      } else {
        ReachesSelf(edges, t);
        if IsWalk(edges, front) {
          assert WalkBetween(edges, front, walk[0], s);
        }
      }
    }
  }

  /** Whatever the graph, an edge s -> t with no way back from t to s adds no closed walk. */
  lemma NoNewClosedWalk(edges: set<Edge>, s: string, t: string, walk: seq<string>)
    requires !Reaches(edges, t, s)
    requires ClosedWalk(edges + {Edge(s, t)}, walk)
    ensures ClosedWalk(edges, walk)
  {
    WalkAroundNewEdge(edges, s, t, walk);
    if !IsWalk(edges, walk) {
      ReachesTransitive(edges, t, walk[0], s);
    }
  }

  /** The decisive fact behind the cycle check. */
  lemma EdgeKeepsAcyclicIff(edges: set<Edge>, s: string, t: string)
    requires Acyclic(edges)
    ensures Acyclic(edges + {Edge(s, t)}) <==> !Reaches(edges, t, s)
  {
    var grown := edges + {Edge(s, t)};
    if Reaches(edges, t, s) {
      var back :| WalkBetween(edges, back, t, s);
      assert ClosedWalk(grown, back + [t]);
    } else if !Acyclic(grown) {
      var walk :| ClosedWalk(grown, walk);
      NoNewClosedWalk(edges, s, t, walk);
    }
  }

  lemma NoClosedWalkWithoutEdges(walk: seq<string>)
    ensures !ClosedWalk({}, walk)
  {
    var none: set<Edge> := {};
    if |walk| > 1 {
      var i := 0;
      assert Edge(walk[i], walk[i + 1]) !in none;
    }
  }

  lemma ClosedWalkMonotone(edges: set<Edge>, more: set<Edge>, walk: seq<string>)
    requires edges <= more && ClosedWalk(edges, walk)
    ensures ClosedWalk(more, walk)
  {}

  lemma AcyclicSubgraph(edges: set<Edge>, more: set<Edge>)
    requires edges <= more && Acyclic(more)
    ensures Acyclic(edges)
  {
    if walk :| ClosedWalk(edges, walk) {
      ClosedWalkMonotone(edges, more, walk);
    }
  }

  // ----- Sources of acyclic graphs

  ghost predicate Distinct<T>(s: seq<T>) {
    forall i, j :: 0 <= i < j < |s| ==> s[i] != s[j]
  }

  lemma {:induction false} Pigeonhole<T>(s: seq<T>, universe: set<T>)
    requires Distinct(s) && forall x :: x in s ==> x in universe
    ensures |s| <= |universe|
  {
    if s != [] {
      var last := s[|s| - 1];
      Pigeonhole(s[..|s| - 1], universe - {last});
    }
  }

  lemma CutClosesIff(edges: set<Edge>, walk: seq<string>, i: nat, j: nat)
    requires IsWalk(edges, walk) && i < j < |walk|
    ensures ClosedWalk(edges, walk[i..j + 1]) <==> walk[i] == walk[j]
  {}

  lemma AcyclicWalkIsDistinct(edges: set<Edge>, walk: seq<string>)
    requires Acyclic(edges) && IsWalk(edges, walk)
    ensures Distinct(walk)
  {
    forall i, j | 0 <= i < j < |walk|
      ensures walk[i] != walk[j]
    {
      CutClosesIff(edges, walk, i, j);
    }
  }

  function Endpoints(edges: set<Edge>): set<string> {
    (set e | e in edges :: e.src) + (set e | e in edges :: e.dst)
  }

  ghost predicate HasIncoming(edges: set<Edge>, n: string) {
    exists e :: e in edges && e.dst == n
  }

  ghost predicate HasOutgoing(edges: set<Edge>, n: string) {
    exists e :: e in edges && e.src == n
  }

  /** A source starts some edge and ends none. */
  ghost predicate IsSource(edges: set<Edge>, n: string) {
    HasOutgoing(edges, n) && !HasIncoming(edges, n)
  }

  lemma {:induction false} ExtendToSource(edges: set<Edge>, walk: seq<string>) returns (source: string)
    requires Acyclic(edges) && IsWalk(edges, walk) && |walk| > 1
    ensures IsSource(edges, source) && Reaches(edges, source, walk[|walk| - 1])
    decreases |Endpoints(edges)| - |walk|
  {
    assert Edge(walk[0], walk[0 + 1]) in edges;
    if e :| e in edges && e.dst == walk[0] {
      var longer := [e.src] + walk;
      assert IsWalk(edges, longer);
      AcyclicWalkIsDistinct(edges, longer);
      forall x | x in longer ensures x in Endpoints(edges) {
        var i :| 0 <= i < |longer| && longer[i] == x;
        assert i < |longer| - 1 ==> Edge(longer[i], longer[i + 1]) in edges;
        assert i > 0 ==> Edge(longer[i - 1], longer[i - 1 + 1]) in edges;
      }
      Pigeonhole(longer, Endpoints(edges));
      source := ExtendToSource(edges, longer);
    } else {
      source := walk[0];
      assert WalkBetween(edges, walk, source, walk[|walk| - 1]);
    }
  }

  /** Every endpoint of an acyclic graph lies below one of its sources. */
  lemma SourceAbove(edges: set<Edge>, n: string) returns (source: string)
    requires Acyclic(edges) && n in Endpoints(edges)
    ensures IsSource(edges, source) && Reaches(edges, source, n)
  {
    if e :| e in edges && e.dst == n {
      source := ExtendToSource(edges, [e.src, n]);
    } else {
      source := n;
      ReachesSelf(edges, n);
    }
  }
}
