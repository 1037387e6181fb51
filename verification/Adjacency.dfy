/** Adjacency maps, the graphs they list, and what searching them can see. */
module Adjacency {
  import opened Digraph

  ghost function AdjacencyEdges(adj: map<string, seq<string>>): set<Edge> {
    set u, i | u in adj && 0 <= i < |adj[u]| :: Edge(u, adj[u][i])
  }

  function Neighbours(adj: map<string, seq<string>>, u: string): seq<string> {
    if u in adj then adj[u] else []
  }

  function Members(s: seq<string>): set<string> {
    set x | x in s
  }

  lemma MembersSnoc(s: seq<string>, x: string)
    ensures Members(s + [x]) == Members(s) + {x}
  {}

  lemma MembersTail(s: seq<string>)
    requires |s| > 0
    ensures Members(s) == {s[0]} + Members(s[1..])
  {
    assert s == [s[0]] + s[1..];
  }

  lemma NeighbourReached(adj: map<string, seq<string>>, src: string, cur: string, i: nat)
    requires i < |Neighbours(adj, cur)| && Reaches(AdjacencyEdges(adj), src, cur)
    ensures Reaches(AdjacencyEdges(adj), src, Neighbours(adj, cur)[i])
  {
    assert Edge(cur, Neighbours(adj, cur)[i]) in AdjacencyEdges(adj);
    ReachesStep(AdjacencyEdges(adj), cur, Neighbours(adj, cur)[i]);
    ReachesTransitive(AdjacencyEdges(adj), src, cur, Neighbours(adj, cur)[i]);
  }

  ghost predicate ClosedUnder(adj: map<string, seq<string>>, expanded: set<string>, closed: set<string>) {
    forall x :: x in expanded ==> Members(Neighbours(adj, x)) <= closed
  }

  lemma {:induction false} ClosedSetHoldsWalk(adj: map<string, seq<string>>, closed: set<string>, walk: seq<string>)
    requires ClosedUnder(adj, closed, closed)
    requires IsWalk(AdjacencyEdges(adj), walk) && walk[0] in closed
    ensures walk[|walk| - 1] in closed
  {
    if |walk| > 1 {
      var edge := Edge(walk[0], walk[0 + 1]);
      assert edge in AdjacencyEdges(adj);
      assert walk[1] in Members(Neighbours(adj, walk[0]));
      ClosedSetHoldsWalk(adj, closed, walk[1..]);
    }
  }

  lemma ClosedSetBoundsReach(adj: map<string, seq<string>>, closed: set<string>, src: string, dst: string)
    requires ClosedUnder(adj, closed, closed) && src in closed && dst !in closed
    ensures !Reaches(AdjacencyEdges(adj), src, dst)
  {
    if walk :| WalkBetween(AdjacencyEdges(adj), walk, src, dst) {
      ClosedSetHoldsWalk(adj, closed, walk);
    }
  }

  /** What a search from src can see: a finite set, closed under edges, of nodes that are all reached. */
  lemma SearchSpace(adj: map<string, seq<string>>, src: string, dst: string) returns (space: set<string>)
    ensures src in space && ClosedUnder(adj, space, space)
    ensures dst in space ==> Reaches(AdjacencyEdges(adj), src, dst)
  {
    var ends := {src} + set u, i | u in adj && 0 <= i < |adj[u]| :: adj[u][i];
    space := set x | x in ends && Reaches(AdjacencyEdges(adj), src, x);
    ReachesSelf(AdjacencyEdges(adj), src);
    forall x, y | x in space && y in Members(Neighbours(adj, x))
      ensures y in space
    {
      var k :| 0 <= k < |Neighbours(adj, x)| && Neighbours(adj, x)[k] == y;
      NeighbourReached(adj, src, x, k);
    }
  }

  lemma AdjacencyAppend(adj: map<string, seq<string>>, u: string, v: string)
    ensures AdjacencyEdges(adj[u := Neighbours(adj, u) + [v]]) == AdjacencyEdges(adj) + {Edge(u, v)}
  {
    var grown := adj[u := Neighbours(adj, u) + [v]];
    forall e | e in AdjacencyEdges(adj) + {Edge(u, v)}
      ensures e in AdjacencyEdges(grown)
    {
      if e == Edge(u, v) {
        assert grown[u][|Neighbours(adj, u)|] == v;
      } else {
        var i :| e.src in adj && 0 <= i < |adj[e.src]| && adj[e.src][i] == e.dst;
        assert grown[e.src][i] == e.dst;
      }
    }
  }
}
