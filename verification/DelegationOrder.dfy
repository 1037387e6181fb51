/** The order in which the delegation tree draws its cards, told from the listed agents and relations alone. */
module DelegationOrder {
  import opened Wrappers
  import opened Adjacency
  import opened DelegationGraph
  import opened DelegationTree
  import opened DelegationKeys

  // ----- The children an agent would have by itself

  /** The agent that a relation leads to, if both its ends are listed and it starts at this agent. */
  function TargetOf(agents: seq<GraphAgent>, r: GraphRelation, id: string): seq<string> {
    var source := ResolveKey(IdMap(agents), NameMap(agents), r.source);
    var target := ResolveKey(IdMap(agents), NameMap(agents), r.target);
    if source == Some(id) && target.Some? then [target.value] else []
  }

  /** The agents that an agent's relations lead to, in the order of the relations. */
  function TargetsOf(agents: seq<GraphAgent>, relations: seq<GraphRelation>, id: string): seq<string> {
    if relations == [] then [] else TargetOf(agents, relations[0], id) + TargetsOf(agents, relations[1..], id)
  }

  lemma {:induction false} TargetsSnoc(agents: seq<GraphAgent>, relations: seq<GraphRelation>, r: GraphRelation, id: string)
    ensures TargetsOf(agents, relations + [r], id) == TargetsOf(agents, relations, id) + TargetOf(agents, r, id)
  {
    if relations == [] {
      assert relations + [r] == [r] && [r][1..] == [];
    } else {
      TargetsSnoc(agents, relations[1..], r, id);
      assert (relations + [r])[1..] == relations[1..] + [r];
    }
  }

  lemma {:induction false} ChildListsAreTargets(agents: seq<GraphAgent>, relations: seq<GraphRelation>, id: string)
    ensures Neighbours(ChildrenByParent(agents, relations), id) == TargetsOf(agents, relations, id)
  {
    if relations != [] {
      var front, r := relations[..|relations| - 1], relations[|relations| - 1];
      ChildListsAreTargets(agents, front, id);
      TargetsSnoc(agents, front, r, id);
      assert relations == front + [r];
    }
  }

  // ----- Depth-first, first come

  /** What the first j of the children add to what was drawn before them. */
  function DrawnBy(before: seq<string>, kids: seq<TreeNode>, j: int): seq<string>
    requires 0 <= j <= |kids|
  {
    before + PreorderAll(kids[..j])
  }

  /** The children stand at the given places of the targets. */
  ghost predicate StandAt(targets: seq<string>, kids: seq<TreeNode>, at: seq<int>) {
    && |at| == |kids|
    && (forall i, j :: 0 <= i < j < |at| ==> at[i] < at[j])
    && (forall j :: 0 <= j < |kids| ==> 0 <= at[j] < |targets| && kids[j].agent.id == targets[at[j]])
  }

  ghost predicate NoneDrawnTwice(kids: seq<TreeNode>, before: seq<string>) {
    forall j :: 0 <= j < |kids| ==> kids[j].agent.id !in DrawnBy(before, kids, j)
  }

  /** The place k is not among the given ones, and exactly j of them come before it. */
  ghost predicate Passed(at: seq<int>, j: int, k: int) {
    0 <= j <= |at| && (j == 0 || at[j - 1] < k) && (j == |at| || k < at[j])
  }

  /** What is left out at its place was drawn by then. */
  ghost predicate LeftOutIfDrawn(targets: seq<string>, kids: seq<TreeNode>, before: seq<string>, at: seq<int>)
    requires |at| == |kids|
  {
    forall k, j :: 0 <= k < |targets| && Passed(at, j, k) ==> targets[k] in DrawnBy(before, kids, j)
  }

  /** The targets that are drawn stand at these places, and every other one was already drawn when its turn came. */
  ghost predicate DrawnAt(targets: seq<string>, kids: seq<TreeNode>, before: seq<string>, at: seq<int>) {
    StandAt(targets, kids, at) && NoneDrawnTwice(kids, before) && LeftOutIfDrawn(targets, kids, before, at)
  }

  /** Every node of a tree draws its targets in their order, each unless something drawn earlier already shows it. */
  ghost predicate FirstCome(agents: seq<GraphAgent>, relations: seq<GraphRelation>, t: TreeNode, before: seq<string>)
    decreases t, 1
  {
    && LastListed(agents, t.agent)
    && (exists at: seq<int> :: DrawnAt(TargetsOf(agents, relations, t.agent.id), t.children, before + [t.agent.id], at))
    && FirstComeBelow(agents, relations, t.children, before + [t.agent.id])
  }

  ghost predicate FirstComeBelow(agents: seq<GraphAgent>, relations: seq<GraphRelation>, kids: seq<TreeNode>, before: seq<string>)
    decreases kids, 0
  {
    kids == [] || (FirstCome(agents, relations, kids[0], before)
                   && FirstComeBelow(agents, relations, kids[1..], before + Preorder(kids[0])))
  }

  lemma DrawnByNext(before: seq<string>, kid: TreeNode, kids: seq<TreeNode>, j: int)
    requires 0 < j <= |kids| + 1
    ensures DrawnBy(before, [kid] + kids, j) == DrawnBy(before + Preorder(kid), kids, j - 1)
  {
    assert ([kid] + kids)[..j] == [kid] + kids[..j - 1];
    assert ([kid] + kids[..j - 1])[1..] == kids[..j - 1];
  }

  function Later(at: seq<int>): (r: seq<int>)
    ensures |r| == |at| && forall i :: 0 <= i < |at| ==> r[i] == at[i] + 1
  {
    seq(|at|, i requires 0 <= i < |at| => at[i] + 1)
  }

  lemma NextStands(targets: seq<string>, kids: seq<TreeNode>, at: seq<int>, kid: TreeNode)
    requires StandAt(targets, kids, at)
    ensures StandAt([kid.agent.id] + targets, [kid] + kids, [0] + Later(at))
  {
    var targets', kids', at' := [kid.agent.id] + targets, [kid] + kids, [0] + Later(at);
    forall j | 0 <= j < |kids'|
      ensures 0 <= at'[j] < |targets'| && kids'[j].agent.id == targets'[at'[j]]
    {
      if j > 0 {
        assert kids'[j] == kids[j - 1] && at'[j] == at[j - 1] + 1;
      }
    }
  }

  lemma NextIsNew(kids: seq<TreeNode>, before: seq<string>, kid: TreeNode)
    requires NoneDrawnTwice(kids, before + Preorder(kid)) && kid.agent.id !in before
    ensures NoneDrawnTwice([kid] + kids, before)
  {
    var all := [kid] + kids;
    forall j | 0 <= j < |all|
      ensures all[j].agent.id !in DrawnBy(before, all, j)
    {
      if j == 0 {
        assert DrawnBy(before, all, 0) == before;
      } else {
        var id := kids[j - 1].agent.id;
        assert id !in DrawnBy(before + Preorder(kid), kids, j - 1);
        DrawnByNext(before, kid, kids, j);
        assert all[j] == kids[j - 1];
      }
    }
  }

  lemma PassedNext(at: seq<int>, j: int, k: int)
    requires forall i :: 0 <= i < |at| ==> 0 <= at[i]
    requires Passed([0] + Later(at), j, k) && 0 <= k
    ensures 0 < j && 0 < k && Passed(at, j - 1, k - 1)
  {
    var at' := [0] + Later(at);
    assert at'[0] == 0;
    assert j > 1 ==> at'[j - 1] == at[j - 2] + 1;
    assert 0 < j < |at'| ==> at'[j] == at[j - 1] + 1;
  }

  lemma LeftOutAt(targets: seq<string>, kids: seq<TreeNode>, before: seq<string>, at: seq<int>, kid: TreeNode, k: int, j: int)
    requires StandAt(targets, kids, at) && LeftOutIfDrawn(targets, kids, before + Preorder(kid), at)
    requires 0 <= k <= |targets| && Passed([0] + Later(at), j, k)
    ensures 0 < k && 0 < j <= |kids| + 1 && targets[k - 1] in DrawnBy(before, [kid] + kids, j)
  {
    PassedNext(at, j, k);
    DrawnByNext(before, kid, kids, j);
    assert targets[k - 1] in DrawnBy(before + Preorder(kid), kids, j - 1);
  }

  lemma LeftOutNext(targets: seq<string>, kids: seq<TreeNode>, before: seq<string>, at: seq<int>, kid: TreeNode)
    requires StandAt(targets, kids, at) && LeftOutIfDrawn(targets, kids, before + Preorder(kid), at)
    ensures LeftOutIfDrawn([kid.agent.id] + targets, [kid] + kids, before, [0] + Later(at))
  {
    forall k, j | 0 <= k < |targets| + 1 && Passed([0] + Later(at), j, k)
      ensures ([kid.agent.id] + targets)[k] in DrawnBy(before, [kid] + kids, j)
    {
      LeftOutAt(targets, kids, before, at, kid, k, j);
    }
  }

  lemma DrawnNext(targets: seq<string>, kids: seq<TreeNode>, before: seq<string>, at: seq<int>, kid: TreeNode)
    requires DrawnAt(targets, kids, before + Preorder(kid), at) && kid.agent.id !in before
    ensures DrawnAt([kid.agent.id] + targets, [kid] + kids, before, [0] + Later(at))
  {
    NextStands(targets, kids, at, kid);
    NextIsNew(kids, before, kid);
    LeftOutNext(targets, kids, before, at, kid);
  }

  lemma DrawnAlready(targets: seq<string>, kids: seq<TreeNode>, before: seq<string>, at: seq<int>)
    requires |targets| > 0 && targets[0] in before
    requires DrawnAt(targets[1..], kids, before, at)
    ensures DrawnAt(targets, kids, before, Later(at))
  {
    forall k, j | 0 <= k < |targets| && Passed(Later(at), j, k)
      ensures targets[k] in DrawnBy(before, kids, j)
    {
      if k > 0 {
        assert Passed(at, j, k - 1);
        assert targets[1..][k - 1] == targets[k];
      }
    }
  }

  lemma VisitAppends(byId: map<string, GraphAgent>, children: map<string, seq<string>>, before: seq<string>, id: string,
                     depth: nat)
    returns (node: TreeNode)
    requires Keyed(byId) && ChildrenKnown(byId, children) && id in byId && id !in before
    ensures Visit(byId, children, Members(before), id, depth) == (Some(node), Members(before + Preorder(node)))
    ensures node.agent == byId[id] && Members(before) + {id} <= Members(before + Preorder(node))
    ensures node.children == VisitAll(byId, children, Members(before + [id]), Neighbours(children, id), depth + 1).0
  {
    VisitShows(byId, children, Members(before), id, depth);
    MembersSnoc(before, id);
    var (shown, after) := Visit(byId, children, Members(before), id, depth);
    node := shown.value;
    assert Preorder(node)[0] == id;
    assert Members(before + Preorder(node)) == Members(before) + Members(Preorder(node)) == after;
  }

  lemma {:induction false} VisitIsFirstCome(agents: seq<GraphAgent>, relations: seq<GraphRelation>, before: seq<string>,
                                            id: string, depth: nat)
    returns (node: TreeNode)
    requires Keyed(IdMap(agents)) && ChildrenKnown(IdMap(agents), ChildrenByParent(agents, relations))
    requires id in IdMap(agents) && id !in before
    ensures Visit(IdMap(agents), ChildrenByParent(agents, relations), Members(before), id, depth)
         == (Some(node), Members(before + Preorder(node)))
    ensures node.agent.id == id && Members(before) + {id} <= Members(before + Preorder(node))
    ensures FirstCome(agents, relations, node, before)
    decreases IdMap(agents).Keys - Members(before), 0
  {
    MembersSnoc(before, id);
    ChildListsAreTargets(agents, relations, id);
    LastListedIsDrawn(agents, id);
    node := VisitAppends(IdMap(agents), ChildrenByParent(agents, relations), before, id, depth);
    var kids, at := VisitAllIsFirstCome(agents, relations, before + [id], TargetsOf(agents, relations, id), depth + 1);
    assert DrawnAt(TargetsOf(agents, relations, id), node.children, before + [id], at);
  }

  lemma {:induction false} VisitAllIsFirstCome(agents: seq<GraphAgent>, relations: seq<GraphRelation>, before: seq<string>,
                                               ids: seq<string>, depth: nat)
    returns (kids: seq<TreeNode>, at: seq<int>)
    requires Keyed(IdMap(agents)) && ChildrenKnown(IdMap(agents), ChildrenByParent(agents, relations))
    requires Members(ids) <= IdMap(agents).Keys
    ensures kids == VisitAll(IdMap(agents), ChildrenByParent(agents, relations), Members(before), ids, depth).0
    ensures DrawnAt(ids, kids, before, at) && FirstComeBelow(agents, relations, kids, before)
    decreases IdMap(agents).Keys - Members(before), |ids| + 1
  {
    if ids == [] {
      return [], [];
    }
    MembersTail(ids);
    if ids[0] in before {
      kids, at := VisitAllIsFirstCome(agents, relations, before, ids[1..], depth);
      VisitAllSkips(IdMap(agents), ChildrenByParent(agents, relations), Members(before), ids, depth);
      DrawnAlready(ids, kids, before, at);
      at := Later(at);
    } else {
      var node := VisitIsFirstCome(agents, relations, before, ids[0], depth);
      kids, at := VisitAllIsFirstCome(agents, relations, before + Preorder(node), ids[1..], depth);
      VisitAllBegins(IdMap(agents), ChildrenByParent(agents, relations), Members(before), ids, depth, node);
      DrawnNext(ids[1..], kids, before, at, node);
      FirstComeNext(agents, relations, node, kids, before);
      assert ids == [node.agent.id] + ids[1..];
      kids, at := [node] + kids, [0] + Later(at);
    }
  }

  lemma FirstComeNext(agents: seq<GraphAgent>, relations: seq<GraphRelation>, t: TreeNode, kids: seq<TreeNode>,
                      before: seq<string>)
    requires FirstCome(agents, relations, t, before) && FirstComeBelow(agents, relations, kids, before + Preorder(t))
    ensures FirstComeBelow(agents, relations, [t] + kids, before)
  {
    assert ([t] + kids)[1..] == kids;
  }

  lemma VisitAllSkips(byId: map<string, GraphAgent>, children: map<string, seq<string>>, visited: set<string>,
                      ids: seq<string>, depth: nat)
    requires ids != [] && ids[0] in visited
    ensures VisitAll(byId, children, visited, ids, depth).0 == VisitAll(byId, children, visited, ids[1..], depth).0
  {
    assert Visit(byId, children, visited, ids[0], depth) == (None, visited);
  }

  lemma VisitAllBegins(byId: map<string, GraphAgent>, children: map<string, seq<string>>, visited: set<string>,
                       ids: seq<string>, depth: nat, node: TreeNode)
    requires ids != [] && Visit(byId, children, visited, ids[0], depth).0 == Some(node)
    ensures var seen := Visit(byId, children, visited, ids[0], depth).1;
            VisitAll(byId, children, visited, ids, depth).0 == [node] + VisitAll(byId, children, seen, ids[1..], depth).0
  {}

  /**
   For every listing: each node of the tree draws, in the order of the relations, the agents its own agent's relations
   lead to, leaving out exactly those that were drawn before their turn came.
   */
  lemma TreeIsFirstCome(agents: seq<GraphAgent>, relations: seq<GraphRelation>, entry: string)
    requires TreeFrom(agents, relations, entry).Some?
    ensures Denotes(agents, entry, TreeFrom(agents, relations, entry).value.agent.id)
    ensures FirstCome(agents, relations, TreeFrom(agents, relations, entry).value, [])
  {
    var byId, children := IdMap(agents), ChildrenByParent(agents, relations);
    var id := ResolveKey(byId, NameMap(agents), entry).value;
    IdMapHolds(agents);
    ResolvedKeyIsKnown(agents, entry);
    ChildrenAreKnown(agents, relations);
    ResolveKeyIff(agents, entry, id);
    assert Members([]) == {};
    var t := VisitIsFirstCome(agents, relations, [], id, 0);
  }
}
