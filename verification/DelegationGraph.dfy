/**
 Reading a delegation graph whose relations name agents by identifier or by display name: key resolution
 and the choice of the entry agent.
 */
module DelegationGraph {
  import opened Wrappers
  import opened Digraph

  datatype GraphAgent = GraphAgent(id: string, name: string)

  datatype GraphRelation = GraphRelation(source: string, target: string)

  // ----- Lookup maps

  /** Agents by identifier; of several with one identifier the last wins, and empty keys are left out. */
  function ById(agents: seq<GraphAgent>): map<string, GraphAgent> {
    if agents == [] then map[]
    else
      var a := agents[|agents| - 1];
      var m := ById(agents[..|agents| - 1]);
      if a.id != "" then m[a.id := a] else m
  }

  function ByName(agents: seq<GraphAgent>): map<string, GraphAgent> {
    if agents == [] then map[]
    else
      var a := agents[|agents| - 1];
      var m := ByName(agents[..|agents| - 1]);
      if a.name != "" then m[a.name := a] else m
  }

  function Lookup(byId: map<string, GraphAgent>, byName: map<string, GraphAgent>, key: string): Option<GraphAgent> {
    if key in byId then Some(byId[key]) else if key in byName then Some(byName[key]) else None
  }

  function ResolveAgentName(key: string, byId: map<string, GraphAgent>, byName: map<string, GraphAgent>): Option<string> {
    match Lookup(byId, byName, key)
    case None => None
    case Some(a) => Some(a.name)
  }

  function Resolve(agents: seq<GraphAgent>, key: string): Option<GraphAgent> {
    Lookup(ById(agents), ByName(agents), key)
  }

  function Keys(a: GraphAgent): set<string> {
    {a.id, a.name}
  }

  /** Every agent has an identifier and a name, and no key belongs to two agents. */
  ghost predicate Unambiguous(agents: seq<GraphAgent>) {
    && (forall a :: a in agents ==> "" !in Keys(a))
    && (forall a, b :: a in agents && b in agents && a != b ==> Keys(a) !! Keys(b))
  }

  lemma {:induction false} LookupMapsHold(agents: seq<GraphAgent>)
    ensures forall k :: k in ById(agents) ==> k != "" && ById(agents)[k] in agents && ById(agents)[k].id == k
    ensures forall k :: k in ByName(agents) ==> k != "" && ByName(agents)[k] in agents && ByName(agents)[k].name == k
    ensures forall a :: a in agents && a.id != "" ==> a.id in ById(agents)
    ensures forall a :: a in agents && a.name != "" ==> a.name in ByName(agents)
  {
    if agents != [] {
      var front := agents[..|agents| - 1];
      LookupMapsHold(front);
      assert agents == front + [agents[|agents| - 1]];
    }
  }

  /** Without ambiguity a key resolves to its one owner. */
  lemma ResolveOwner(agents: seq<GraphAgent>, a: GraphAgent, key: string)
    requires Unambiguous(agents) && a in agents && key in Keys(a)
    ensures Resolve(agents, key) == Some(a)
    ensures ResolveAgentName(key, ById(agents), ByName(agents)) == Some(a.name)
  {
    LookupMapsHold(agents);
    if key in ById(agents) {
      var b := ById(agents)[key];
      assert key in Keys(b) * Keys(a);
    } else {
      assert key == a.name;
      var b := ByName(agents)[key];
      assert key in Keys(b) * Keys(a);
    }
  }

  lemma ResolvedOwnsKey(agents: seq<GraphAgent>, key: string)
    requires Resolve(agents, key).Some?
    ensures Resolve(agents, key).value in agents && key in Keys(Resolve(agents, key).value)
  {
    LookupMapsHold(agents);
  }

  // ----- The entry agent

  /** An end marks itself and, if it resolves, the keys of its agent. */
  predicate MarkedBy(agents: seq<GraphAgent>, end: string, key: string) {
    key == end || (Resolve(agents, end).Some? && key != "" && key in Keys(Resolve(agents, end).value))
  }

  ghost predicate Marks(agents: seq<GraphAgent>, ends: seq<string>, key: string) {
    exists k :: k in ends && MarkedBy(agents, k, key)
  }

  ghost predicate Touched(agents: seq<GraphAgent>, ends: seq<string>, a: GraphAgent) {
    Marks(agents, ends, a.id) || Marks(agents, ends, a.name)
  }

  function Sources(relations: seq<GraphRelation>): (r: seq<string>)
    ensures |r| == |relations|
  {
    seq(|relations|, i requires 0 <= i < |relations| => relations[i].source)
  }

  function Targets(relations: seq<GraphRelation>): (r: seq<string>)
    ensures |r| == |relations|
  {
    seq(|relations|, i requires 0 <= i < |relations| => relations[i].target)
  }

  /** Has outgoing relations and no incoming ones, by either key. */
  ghost predicate Candidate(agents: seq<GraphAgent>, relations: seq<GraphRelation>, a: GraphAgent) {
    Touched(agents, Sources(relations), a) && !Touched(agents, Targets(relations), a)
  }

  /** The first candidate in listing order. */
  ghost predicate IsEntry(agents: seq<GraphAgent>, relations: seq<GraphRelation>, entry: Option<string>) {
    match entry
    case None => forall a :: a in agents ==> !Candidate(agents, relations, a)
    case Some(name) =>
      exists i :: 0 <= i < |agents| && agents[i].name == name && Candidate(agents, relations, agents[i])
                  && forall j :: 0 <= j < i ==> !Candidate(agents, relations, agents[j])
  }

  method BuildLookups(agents: seq<GraphAgent>) returns (byId: map<string, GraphAgent>, byName: map<string, GraphAgent>)
    ensures byId == ById(agents) && byName == ByName(agents)
  {
    byId, byName := map[], map[];
    for i := 0 to |agents|
      invariant byId == ById(agents[..i]) && byName == ByName(agents[..i])
    {
      var a := agents[i];
      assert agents[..i + 1][..i] == agents[..i];
      if a.id != "" {
        byId := byId[a.id := a];
      }
      if a.name != "" {
        byName := byName[a.name := a];
      }
    }
    assert agents[..|agents|] == agents;
  }

  method MarkKeys(agents: seq<GraphAgent>, byId: map<string, GraphAgent>, byName: map<string, GraphAgent>, ends: seq<string>)
    returns (keys: set<string>)
    requires byId == ById(agents) && byName == ByName(agents)
    ensures forall key :: key in keys <==> Marks(agents, ends, key)
  {
    keys := {};
    for i := 0 to |ends|
      invariant forall key :: key in keys <==> Marks(agents, ends[..i], key)
    {
      var k := ends[i];
      assert ends[..i + 1] == ends[..i] + [k];
      ghost var before := keys;
      keys := keys + {k};
      match Lookup(byId, byName, k) {
        case None =>
        case Some(a) =>
          if a.id != "" {
            keys := keys + {a.id};
          }
          if a.name != "" {
            keys := keys + {a.name};
          }
      }
      assert forall key :: key in keys <==> key in before || MarkedBy(agents, k, key);
      MarksSnoc(agents, ends[..i], k);
    }
    assert ends[..|ends|] == ends;
  }

  lemma MarksSnoc(agents: seq<GraphAgent>, ends: seq<string>, k: string)
    ensures forall key :: Marks(agents, ends + [k], key) <==> Marks(agents, ends, key) || MarkedBy(agents, k, key)
  {
    forall key
      ensures Marks(agents, ends + [k], key) <==> Marks(agents, ends, key) || MarkedBy(agents, k, key)
    {
      if Marks(agents, ends, key) {
        var w :| w in ends && MarkedBy(agents, w, key);
        assert w in ends + [k];
      }
      if MarkedBy(agents, k, key) {
        assert k in ends + [k];
      }
    }
  }

  method ComputeEntryAgent(agents: seq<GraphAgent>, relations: seq<GraphRelation>) returns (entry: Option<string>)
    ensures IsEntry(agents, relations, entry)
  {
    if |agents| == 0 {
      return None;
    }
    var byId, byName := BuildLookups(agents);
    var incoming := MarkKeys(agents, byId, byName, Targets(relations));
    var outgoing := MarkKeys(agents, byId, byName, Sources(relations));
    for i := 0 to |agents|
      invariant forall j :: 0 <= j < i ==> !Candidate(agents, relations, agents[j])
    {
      var a := agents[i];
      var hasIncoming := a.id in incoming || a.name in incoming;
      var hasOutgoing := a.id in outgoing || a.name in outgoing;
      if hasOutgoing && !hasIncoming {
        return Some(a.name);
      }
    }
    return None;
  }

  // ----- What the choice means in the resolved graph

  ghost predicate AllResolve(agents: seq<GraphAgent>, relations: seq<GraphRelation>) {
    forall r :: r in relations ==> Resolve(agents, r.source).Some? && Resolve(agents, r.target).Some?
  }

  /** The relations whose ends both resolve, between agent identifiers. */
  ghost function ResolvedEdges(agents: seq<GraphAgent>, relations: seq<GraphRelation>): set<Edge> {
    set r | r in relations && Resolve(agents, r.source).Some? && Resolve(agents, r.target).Some?
      :: Edge(Resolve(agents, r.source).value.id, Resolve(agents, r.target).value.id)
  }

  lemma TouchedByOwnEnd(agents: seq<GraphAgent>, ends: seq<string>, a: GraphAgent)
    requires Unambiguous(agents) && a in agents
    requires forall k :: k in ends ==> Resolve(agents, k).Some?
    ensures Touched(agents, ends, a) <==> exists k :: k in ends && Resolve(agents, k) == Some(a)
  {
    if Touched(agents, ends, a) {
      var key := if Marks(agents, ends, a.id) then a.id else a.name;
      var k :| k in ends && MarkedBy(agents, k, key);
      ResolvedOwnsKey(agents, k);
      var b := Resolve(agents, k).value;
      assert key in Keys(a) * Keys(b);
    }
    if k :| k in ends && Resolve(agents, k) == Some(a) {
      assert MarkedBy(agents, k, a.id);
    }
  }

  lemma SourceStartsEdge(agents: seq<GraphAgent>, relations: seq<GraphRelation>, a: GraphAgent)
    requires Unambiguous(agents) && AllResolve(agents, relations) && a in agents
    ensures (exists k :: k in Sources(relations) && Resolve(agents, k) == Some(a))
       <==> HasOutgoing(ResolvedEdges(agents, relations), a.id)
  {
    var edges := ResolvedEdges(agents, relations);
    if k :| k in Sources(relations) && Resolve(agents, k) == Some(a) {
      var i :| 0 <= i < |relations| && Sources(relations)[i] == k;
      assert relations[i] in relations;
      assert Edge(a.id, Resolve(agents, relations[i].target).value.id) in edges;
    }
    if e :| e in edges && e.src == a.id {
      var i :| 0 <= i < |relations| && e.src == Resolve(agents, relations[i].source).value.id;
      assert Sources(relations)[i] == relations[i].source;
      ResolvedOwnsKey(agents, relations[i].source);
      OwnIdentifier(agents, a);
    }
  }

  lemma TargetEndsEdge(agents: seq<GraphAgent>, relations: seq<GraphRelation>, a: GraphAgent)
    requires Unambiguous(agents) && AllResolve(agents, relations) && a in agents
    ensures (exists k :: k in Targets(relations) && Resolve(agents, k) == Some(a))
       <==> HasIncoming(ResolvedEdges(agents, relations), a.id)
  {
    var edges := ResolvedEdges(agents, relations);
    if k :| k in Targets(relations) && Resolve(agents, k) == Some(a) {
      var i :| 0 <= i < |relations| && Targets(relations)[i] == k;
      assert relations[i] in relations;
      assert Edge(Resolve(agents, relations[i].source).value.id, a.id) in edges;
    }
    if e :| e in edges && e.dst == a.id {
      var i :| 0 <= i < |relations| && e.dst == Resolve(agents, relations[i].target).value.id;
      assert Targets(relations)[i] == relations[i].target;
      ResolvedOwnsKey(agents, relations[i].target);
      OwnIdentifier(agents, a);
    }
  }

  lemma CandidateIsSource(agents: seq<GraphAgent>, relations: seq<GraphRelation>, a: GraphAgent)
    requires Unambiguous(agents) && AllResolve(agents, relations) && a in agents
    ensures Candidate(agents, relations, a) <==> IsSource(ResolvedEdges(agents, relations), a.id)
  {
    forall k | k in Sources(relations) || k in Targets(relations)
      ensures Resolve(agents, k).Some?
    {
      var i :| 0 <= i < |relations| && (Sources(relations)[i] == k || Targets(relations)[i] == k);
      assert relations[i] in relations;
    }
    TouchedByOwnEnd(agents, Sources(relations), a);
    TouchedByOwnEnd(agents, Targets(relations), a);
    SourceStartsEdge(agents, relations, a);
    TargetEndsEdge(agents, relations, a);
  }

  /** Only one listed agent carries a given identifier. */
  lemma OwnIdentifier(agents: seq<GraphAgent>, a: GraphAgent)
    requires Unambiguous(agents) && a in agents
    ensures forall b :: b in agents && b.id == a.id ==> b == a
  {
    forall b | b in agents && b.id == a.id
      ensures b == a
    {
      assert a.id in Keys(a) * Keys(b);
    }
  }

  lemma EndpointIsAgent(agents: seq<GraphAgent>, relations: seq<GraphRelation>, id: string) returns (a: GraphAgent)
    requires id in Endpoints(ResolvedEdges(agents, relations))
    ensures a in agents && a.id == id
  {
    var edges := ResolvedEdges(agents, relations);
    var e :| e in edges && (e.src == id || e.dst == id);
    var r :| r in relations && Resolve(agents, r.source).Some? && Resolve(agents, r.target).Some?
             && e == Edge(Resolve(agents, r.source).value.id, Resolve(agents, r.target).value.id);
    ResolvedOwnsKey(agents, r.source);
    ResolvedOwnsKey(agents, r.target);
    a := if e.src == id then Resolve(agents, r.source).value else Resolve(agents, r.target).value;
  }

  /** An entry is found exactly when some agent starts relations and ends none. */
  lemma EntryFoundIffSource(agents: seq<GraphAgent>, relations: seq<GraphRelation>, entry: Option<string>)
    requires Unambiguous(agents) && AllResolve(agents, relations) && IsEntry(agents, relations, entry)
    ensures entry.Some? <==> exists n :: IsSource(ResolvedEdges(agents, relations), n)
    ensures entry.Some? ==>
      exists a :: a in agents && a.name == entry.value && IsSource(ResolvedEdges(agents, relations), a.id)
  {
    var edges := ResolvedEdges(agents, relations);
    forall a | a in agents
      ensures Candidate(agents, relations, a) <==> IsSource(edges, a.id)
    {
      CandidateIsSource(agents, relations, a);
    }
    if n :| IsSource(edges, n) {
      assert n in Endpoints(edges);
      var a := EndpointIsAgent(agents, relations, n);
      assert Candidate(agents, relations, a);
    }
  }

  /** Acyclic relations always have an entry agent. */
  lemma AcyclicHasEntry(agents: seq<GraphAgent>, relations: seq<GraphRelation>, entry: Option<string>)
    requires Unambiguous(agents) && AllResolve(agents, relations) && IsEntry(agents, relations, entry)
    requires relations != [] && Acyclic(ResolvedEdges(agents, relations))
    ensures entry.Some?
    ensures exists a :: a in agents && a.name == entry.value && IsSource(ResolvedEdges(agents, relations), a.id)
  {
    var edges := ResolvedEdges(agents, relations);
    var r := relations[0];
    assert r in relations;
    var e := Edge(Resolve(agents, r.source).value.id, Resolve(agents, r.target).value.id);
    assert e in edges;
    assert e.src in Endpoints(edges);
    var source := SourceAbove(edges, e.src);
    EntryFoundIffSource(agents, relations, entry);
  }
}
