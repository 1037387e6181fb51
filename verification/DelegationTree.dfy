/** The delegation tree drawn from an entry agent: a depth-first walk that shows every agent once. */
module DelegationTree {
  import opened Wrappers
  import opened Digraph
  import opened Adjacency
  import opened DelegationGraph

  datatype TreeNode = TreeNode(agent: GraphAgent, children: seq<TreeNode>, depth: nat)

  // ----- Lookup maps of the tree, which also admit empty keys

  function IdMap(agents: seq<GraphAgent>): map<string, GraphAgent> {
    if agents == [] then map[]
    else IdMap(agents[..|agents| - 1])[agents[|agents| - 1].id := agents[|agents| - 1]]
  }

  function NameMap(agents: seq<GraphAgent>): map<string, GraphAgent> {
    if agents == [] then map[]
    else NameMap(agents[..|agents| - 1])[agents[|agents| - 1].name := agents[|agents| - 1]]
  }

  function ResolveKey(byId: map<string, GraphAgent>, byName: map<string, GraphAgent>, key: string): Option<string> {
    match Lookup(byId, byName, key)
    case None => None
    case Some(a) => Some(a.id)
  }

  lemma {:induction false} IdMapHolds(agents: seq<GraphAgent>)
    ensures forall k :: k in IdMap(agents) ==> IdMap(agents)[k] in agents && IdMap(agents)[k].id == k
    ensures forall k :: k in NameMap(agents) ==> NameMap(agents)[k] in agents
    ensures forall a :: a in agents ==> a.id in IdMap(agents)
  {
    if agents != [] {
      IdMapHolds(agents[..|agents| - 1]);
      assert agents == agents[..|agents| - 1] + [agents[|agents| - 1]];
    }
  }

  lemma ResolvedKeyIsKnown(agents: seq<GraphAgent>, key: string)
    ensures var id := ResolveKey(IdMap(agents), NameMap(agents), key);
            id.Some? ==> id.value in IdMap(agents)
  {
    IdMapHolds(agents);
  }

  // ----- Children by parent

  /** The relations both of whose ends belong to listed agents. */
  ghost function TreeEdges(agents: seq<GraphAgent>, relations: seq<GraphRelation>): set<Edge> {
    set r | r in relations
            && ResolveKey(IdMap(agents), NameMap(agents), r.source).Some?
            && ResolveKey(IdMap(agents), NameMap(agents), r.target).Some?
      :: Edge(ResolveKey(IdMap(agents), NameMap(agents), r.source).value,
              ResolveKey(IdMap(agents), NameMap(agents), r.target).value)
  }

  /** Child lists in the order of the relations. */
  function ChildrenByParent(agents: seq<GraphAgent>, relations: seq<GraphRelation>): map<string, seq<string>> {
    if relations == [] then map[]
    else
      var r := relations[|relations| - 1];
      var m := ChildrenByParent(agents, relations[..|relations| - 1]);
      var parent := ResolveKey(IdMap(agents), NameMap(agents), r.source);
      var child := ResolveKey(IdMap(agents), NameMap(agents), r.target);
      if parent.None? || child.None? then m
      else m[parent.value := Neighbours(m, parent.value) + [child.value]]
  }

  lemma {:induction false} ChildrenListTreeEdges(agents: seq<GraphAgent>, relations: seq<GraphRelation>)
    ensures AdjacencyEdges(ChildrenByParent(agents, relations)) == TreeEdges(agents, relations)
  {
    if relations != [] {
      var front, r := relations[..|relations| - 1], relations[|relations| - 1];
      ChildrenListTreeEdges(agents, front);
      assert relations == front + [r];
      var parent := ResolveKey(IdMap(agents), NameMap(agents), r.source);
      var child := ResolveKey(IdMap(agents), NameMap(agents), r.target);
      if parent.Some? && child.Some? {
        AdjacencyAppend(ChildrenByParent(agents, front), parent.value, child.value);
        assert TreeEdges(agents, relations) == TreeEdges(agents, front) + {Edge(parent.value, child.value)};
      } else {
        assert TreeEdges(agents, relations) == TreeEdges(agents, front);
      }
    }
  }

  /** Every listed child is a known agent. */
  ghost predicate ChildrenKnown(byId: map<string, GraphAgent>, children: map<string, seq<string>>) {
    forall p :: p in children ==> Members(children[p]) <= byId.Keys
  }

  lemma {:induction false} ChildrenAreKnown(agents: seq<GraphAgent>, relations: seq<GraphRelation>)
    ensures ChildrenKnown(IdMap(agents), ChildrenByParent(agents, relations))
  {
    if relations != [] {
      ChildrenAreKnown(agents, relations[..|relations| - 1]);
      ResolvedKeyIsKnown(agents, relations[|relations| - 1].target);
    }
  }

  // ----- The walk

  /** One visit: nothing for an agent already shown or unknown, else the agent above what its children add. */
  function Visit(byId: map<string, GraphAgent>, children: map<string, seq<string>>, visited: set<string>, id: string, depth: nat)
    : (r: (Option<TreeNode>, set<string>))
    ensures visited <= r.1
    decreases byId.Keys - visited, 0
  {
    if id in visited then (None, visited)
    else if id !in byId then (None, visited + {id})
    else
      var (kids, seen) := VisitAll(byId, children, visited + {id}, Neighbours(children, id), depth + 1);
      (Some(TreeNode(byId[id], kids, depth)), seen)
  }

  function VisitAll(byId: map<string, GraphAgent>, children: map<string, seq<string>>, visited: set<string>,
                    ids: seq<string>, depth: nat)
    : (r: (seq<TreeNode>, set<string>))
    ensures visited <= r.1
    decreases byId.Keys - visited, |ids| + 1
  {
    if ids == [] then ([], visited)
    else
      var (node, seen) := Visit(byId, children, visited, ids[0], depth);
      var (rest, after) := VisitAll(byId, children, seen, ids[1..], depth);
      ((if node.Some? then [node.value] else []) + rest, after)
  }

  lemma VisitNext(byId: map<string, GraphAgent>, children: map<string, seq<string>>, visited: set<string>,
                  ids: seq<string>, i: nat, depth: nat)
    requires i < |ids|
    ensures var (node, seen) := Visit(byId, children, visited, ids[i], depth);
            var (rest, after) := VisitAll(byId, children, seen, ids[i + 1..], depth);
            VisitAll(byId, children, visited, ids[i..], depth) == ((if node.Some? then [node.value] else []) + rest, after)
  {
    assert ids[i..][1..] == ids[i + 1..];
  }

  class TreeBuilder {
    const byId: map<string, GraphAgent>
    const children: map<string, seq<string>>
    var visited: set<string>

    constructor (byId: map<string, GraphAgent>, children: map<string, seq<string>>)
      ensures this.byId == byId && this.children == children && visited == {}
    {
      this.byId, this.children, visited := byId, children, {};
    }

    method Build(id: string, depth: nat) returns (node: Option<TreeNode>)
      modifies this
      ensures (node, visited) == Visit(byId, children, old(visited), id, depth)
      decreases byId.Keys - visited
    {
      if id in visited {
        return None;
      }
      ghost var before := visited;
      visited := visited + {id};
      if id !in byId {
        return None;
      }
      var childIds := Neighbours(children, id);
      var kids: seq<TreeNode> := [];
      ghost var whole := VisitAll(byId, children, visited, childIds, depth + 1);
      assert childIds[0..] == childIds;
      for i := 0 to |childIds|
        invariant before + {id} <= visited
        invariant var rest := VisitAll(byId, children, visited, childIds[i..], depth + 1);
                  whole.0 == kids + rest.0 && whole.1 == rest.1
      {
        VisitNext(byId, children, visited, childIds, i, depth + 1);
        var kid := Build(childIds[i], depth + 1);
        if kid.Some? {
          kids := kids + [kid.value];
        }
      }
      assert childIds[|childIds|..] == [];
      assert kids + [] == kids;
      return Some(TreeNode(byId[id], kids, depth));
    }
  }

  function TreeFrom(agents: seq<GraphAgent>, relations: seq<GraphRelation>, entry: string): Option<TreeNode> {
    match ResolveKey(IdMap(agents), NameMap(agents), entry)
    case None => None
    case Some(id) => Visit(IdMap(agents), ChildrenByParent(agents, relations), {}, id, 0).0
  }

  method BuildTree(agents: seq<GraphAgent>, relations: seq<GraphRelation>, entry: string) returns (tree: Option<TreeNode>)
    ensures tree == TreeFrom(agents, relations, entry)
  {
    var byId, byName := map[], map[];
    for i := 0 to |agents|
      invariant byId == IdMap(agents[..i]) && byName == NameMap(agents[..i])
    {
      assert agents[..i + 1][..i] == agents[..i];
      byId := byId[agents[i].id := agents[i]];
      byName := byName[agents[i].name := agents[i]];
    }
    assert agents[..|agents|] == agents;
    var children := map[];
    for i := 0 to |relations|
      invariant children == ChildrenByParent(agents, relations[..i])
    {
      assert relations[..i + 1][..i] == relations[..i];
      var parent := ResolveKey(byId, byName, relations[i].source);
      var child := ResolveKey(byId, byName, relations[i].target);
      if parent.Some? && child.Some? {
        children := children[parent.value := Neighbours(children, parent.value) + [child.value]];
      }
    }
    assert relations[..|relations|] == relations;
    var start := ResolveKey(byId, byName, entry);
    if start.None? {
      return None;
    }
    var builder := new TreeBuilder(byId, children);
    tree := builder.Build(start.value, 0);
  }

  // ----- What the tree shows

  /** Agent identifiers in the order the cards are drawn. */
  function Preorder(t: TreeNode): (r: seq<string>)
    ensures |r| > 0 && r[0] == t.agent.id
  {
    [t.agent.id] + PreorderAll(t.children)
  }

  function PreorderAll(ts: seq<TreeNode>): seq<string> {
    if ts == [] then [] else Preorder(ts[0]) + PreorderAll(ts[1..])
  }

  /** Each child hangs one level below its parent, along a relation. */
  ghost predicate FollowsEdges(t: TreeNode, edges: set<Edge>) {
    forall c :: c in t.children ==>
      c.depth == t.depth + 1 && Edge(t.agent.id, c.agent.id) in edges && FollowsEdges(c, edges)
  }

  ghost predicate Keyed(byId: map<string, GraphAgent>) {
    forall k :: k in byId ==> byId[k].id == k
  }

  /** What a visit guarantees: the nodes shown are exactly those newly visited, each once. */
  ghost predicate Shows(ids: seq<string>, before: set<string>, after: set<string>) {
    Distinct(ids) && Members(ids) == after - before && before <= after
  }

  lemma ShowsJoin(p: seq<string>, q: seq<string>, before: set<string>, mid: set<string>, after: set<string>)
    requires Shows(p, before, mid) && Shows(q, mid, after)
    ensures Shows(p + q, before, after)
  {
    assert Members(p + q) == Members(p) + Members(q);
    forall i, j | 0 <= i < j < |p + q|
      ensures (p + q)[i] != (p + q)[j]
    {
      if i < |p| <= j {
        assert (p + q)[i] in Members(p) && (p + q)[j] in Members(q);
      }
    }
  }

  lemma {:induction false} VisitShows(byId: map<string, GraphAgent>, children: map<string, seq<string>>,
                                      visited: set<string>, id: string, depth: nat)
    requires Keyed(byId) && ChildrenKnown(byId, children) && id in byId
    ensures var (node, after) := Visit(byId, children, visited, id, depth);
            && (node.None? <==> id in visited)
            && (node.None? ==> after == visited)
            && (node.Some? ==>
                  && node.value.agent == byId[id] && node.value.depth == depth
                  && FollowsEdges(node.value, AdjacencyEdges(children))
                  && Shows(Preorder(node.value), visited, after)
                  && ClosedUnder(children, after - visited, after))
    decreases byId.Keys - visited, 0
  {
    if id !in visited {
      var (kids, after) := VisitAll(byId, children, visited + {id}, Neighbours(children, id), depth + 1);
      VisitAllShows(byId, children, visited + {id}, Neighbours(children, id), depth + 1);
      var t := TreeNode(byId[id], kids, depth);
      forall c | c in kids
        ensures c.depth == depth + 1 && Edge(id, c.agent.id) in AdjacencyEdges(children)
        ensures FollowsEdges(c, AdjacencyEdges(children))
      {
        var k :| 0 <= k < |Neighbours(children, id)| && Neighbours(children, id)[k] == c.agent.id;
        assert Edge(id, children[id][k]) in AdjacencyEdges(children);
      }
      assert Shows([id], visited, visited + {id}) by {
        assert Members([id]) == {id};
      }
      ShowsJoin([id], PreorderAll(kids), visited, visited + {id}, after);
    }
  }

  lemma {:induction false} VisitAllShows(byId: map<string, GraphAgent>, children: map<string, seq<string>>,
                                         visited: set<string>, ids: seq<string>, depth: nat)
    requires Keyed(byId) && ChildrenKnown(byId, children) && Members(ids) <= byId.Keys
    ensures var (nodes, after) := VisitAll(byId, children, visited, ids, depth);
            && (forall t :: t in nodes ==>
                  t.agent.id in ids && t.depth == depth && FollowsEdges(t, AdjacencyEdges(children)))
            && Shows(PreorderAll(nodes), visited, after)
            && Members(ids) <= after
            && ClosedUnder(children, after - visited, after)
    decreases byId.Keys - visited, |ids| + 1
  {
    if ids != [] {
      MembersTail(ids);
      var (node, seen) := Visit(byId, children, visited, ids[0], depth);
      var (rest, after) := VisitAll(byId, children, seen, ids[1..], depth);
      VisitShows(byId, children, visited, ids[0], depth);
      VisitAllShows(byId, children, seen, ids[1..], depth);
      if node.Some? {
        assert PreorderAll([node.value] + rest) == Preorder(node.value) + PreorderAll(rest);
        ShowsJoin(Preorder(node.value), PreorderAll(rest), visited, seen, after);
      } else {
        assert [] + rest == rest;
      }
    }
  }

  lemma {:induction false} ShownIsReached(t: TreeNode, edges: set<Edge>, n: string)
    requires FollowsEdges(t, edges) && n in Preorder(t)
    ensures Reaches(edges, t.agent.id, n)
    decreases t, 0
  {
    if n == t.agent.id {
      ReachesSelf(edges, n);
    } else {
      var c := ShownInOne(t.children, n);
      ShownIsReached(c, edges, n);
      ReachesStep(edges, t.agent.id, c.agent.id);
      ReachesTransitive(edges, t.agent.id, c.agent.id, n);
    }
  }

  lemma {:induction false} ShownInOne(ts: seq<TreeNode>, n: string) returns (c: TreeNode)
    requires n in PreorderAll(ts)
    ensures c in ts && n in Preorder(c)
  {
    if n in Preorder(ts[0]) {
      c := ts[0];
    } else {
      c := ShownInOne(ts[1..], n);
    }
  }

  /**
   For every listing, circular or repetitive as it may be: the tree starts at the entry, descends along
   relations one level at a time, shows no agent twice, and shows exactly the agents the entry reaches.
   */
  lemma TreeShowsExactlyReachable(agents: seq<GraphAgent>, relations: seq<GraphRelation>, entry: string)
    ensures var start := ResolveKey(IdMap(agents), NameMap(agents), entry);
            var edges := TreeEdges(agents, relations);
            match TreeFrom(agents, relations, entry)
            case None => start.None?
            case Some(t) =>
              && start == Some(t.agent.id) && t.agent in agents && t.depth == 0
              && FollowsEdges(t, edges)
              && Distinct(Preorder(t))
              && forall n :: n in Preorder(t) <==> Reaches(edges, t.agent.id, n)
  {
    var byId, children := IdMap(agents), ChildrenByParent(agents, relations);
    var start := ResolveKey(byId, NameMap(agents), entry);
    if start.Some? {
      IdMapHolds(agents);
      ResolvedKeyIsKnown(agents, entry);
      ChildrenAreKnown(agents, relations);
      ChildrenListTreeEdges(agents, relations);
      VisitShows(byId, children, {}, start.value, 0);
      var (node, after) := Visit(byId, children, {}, start.value, 0);
      assert after - {} == after;
      forall n
        ensures n in Preorder(node.value) <==> Reaches(TreeEdges(agents, relations), start.value, n)
      {
        assert n in Preorder(node.value) <==> n in Members(Preorder(node.value));
        if n in Preorder(node.value) {
          ShownIsReached(node.value, TreeEdges(agents, relations), n);
        } else {
          ClosedSetBoundsReach(children, after, start.value, n);
        }
      }
    }
  }

  // ----- The tree below the chosen entry

  lemma {:induction false} SameMaps(agents: seq<GraphAgent>)
    requires forall a :: a in agents ==> "" !in Keys(a)
    ensures IdMap(agents) == ById(agents) && NameMap(agents) == ByName(agents)
  {
    if agents != [] {
      assert agents == agents[..|agents| - 1] + [agents[|agents| - 1]];
      SameMaps(agents[..|agents| - 1]);
      assert "" !in Keys(agents[|agents| - 1]);
    }
  }

  lemma SameEdges(agents: seq<GraphAgent>, relations: seq<GraphRelation>)
    requires Unambiguous(agents)
    ensures TreeEdges(agents, relations) == ResolvedEdges(agents, relations)
  {
    SameMaps(agents);
  }

  /** Every agent that occurs in a relation is shown. */
  ghost predicate CoversRelations(agents: seq<GraphAgent>, relations: seq<GraphRelation>, shown: seq<string>)
    requires AllResolve(agents, relations)
  {
    forall r :: r in relations ==>
      Resolve(agents, r.source).value.id in shown && Resolve(agents, r.target).value.id in shown
  }

  lemma CoversEndpoints(agents: seq<GraphAgent>, relations: seq<GraphRelation>, shown: seq<string>)
    requires AllResolve(agents, relations)
    ensures CoversRelations(agents, relations, shown)
       <==> forall n :: n in Endpoints(ResolvedEdges(agents, relations)) ==> n in shown
  {
    forall r | r in relations
      ensures Resolve(agents, r.source).value.id in Endpoints(ResolvedEdges(agents, relations))
      ensures Resolve(agents, r.target).value.id in Endpoints(ResolvedEdges(agents, relations))
    {
      var e := Edge(Resolve(agents, r.source).value.id, Resolve(agents, r.target).value.id);
      assert e in ResolvedEdges(agents, relations);
    }
  }

  /** A source is reached from nowhere else. */
  lemma SourceUnreached(edges: set<Edge>, from: string, source: string)
    requires IsSource(edges, source) && from != source
    ensures !Reaches(edges, from, source)
  {
    forall walk | IsWalk(edges, walk)
      ensures !WalkBetween(edges, walk, from, source)
    {
      if |walk| > 1 {
        var k := |walk| - 2;
        assert Edge(walk[k], walk[k + 1]) in edges;
      }
    }
  }

  ghost predicate OnlySource(edges: set<Edge>, source: string) {
    forall n :: IsSource(edges, n) ==> n == source
  }

  lemma ReachesAllIffOnlySource(edges: set<Edge>, source: string)
    requires Acyclic(edges) && IsSource(edges, source)
    ensures (forall n :: n in Endpoints(edges) ==> Reaches(edges, source, n)) <==> OnlySource(edges, source)
  {
    if OnlySource(edges, source) {
      forall n | n in Endpoints(edges)
        ensures Reaches(edges, source, n)
      {
        var above := SourceAbove(edges, n);
      }
    }
    forall n | IsSource(edges, n) && n != source
      ensures n in Endpoints(edges) && !Reaches(edges, source, n)
    {
      SourceUnreached(edges, source, n);
    }
  }

  /** The tree drawn from the computed entry of an acyclic listing starts at a source and shows what that reaches. */
  lemma EntryTree(agents: seq<GraphAgent>, relations: seq<GraphRelation>, entry: Option<string>) returns (root: string)
    requires Unambiguous(agents) && AllResolve(agents, relations) && IsEntry(agents, relations, entry)
    requires relations != [] && Acyclic(ResolvedEdges(agents, relations))
    ensures IsSource(ResolvedEdges(agents, relations), root)
    ensures entry.Some? && TreeFrom(agents, relations, entry.value).Some?
    ensures TreeFrom(agents, relations, entry.value).value.agent.id == root
    ensures forall n :: n in Preorder(TreeFrom(agents, relations, entry.value).value)
                        <==> Reaches(ResolvedEdges(agents, relations), root, n)
  {
    AcyclicHasEntry(agents, relations, entry);
    var a :| a in agents && a.name == entry.value && IsSource(ResolvedEdges(agents, relations), a.id);
    root := a.id;
    SameMaps(agents);
    SameEdges(agents, relations);
    ResolveOwner(agents, a, a.name);
    TreeShowsExactlyReachable(agents, relations, entry.value);
  }

  /** The tree of the computed entry of an acyclic listing leaves no related agent out exactly when it is the only source. */
  lemma EntryTreeCoversRelationsIff(agents: seq<GraphAgent>, relations: seq<GraphRelation>, entry: Option<string>)
    requires Unambiguous(agents) && AllResolve(agents, relations) && IsEntry(agents, relations, entry)
    requires relations != [] && Acyclic(ResolvedEdges(agents, relations))
    ensures entry.Some? && TreeFrom(agents, relations, entry.value).Some?
    ensures var tree := TreeFrom(agents, relations, entry.value).value;
            CoversRelations(agents, relations, Preorder(tree))
            <==> OnlySource(ResolvedEdges(agents, relations), tree.agent.id)
  {
    var root := EntryTree(agents, relations, entry);
    CoversEndpoints(agents, relations, Preorder(TreeFrom(agents, relations, entry.value).value));
    ReachesAllIffOnlySource(ResolvedEdges(agents, relations), root);
  }
}
