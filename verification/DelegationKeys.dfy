/** Which agent a key means, in the tree and in the choice of the entry agent, however ambiguous the listing. */
module DelegationKeys {
  import opened Wrappers
  import opened DelegationGraph
  import opened DelegationTree

  // ----- Keys of the tree

  ghost predicate LastNamed(agents: seq<GraphAgent>, i: int, name: string) {
    0 <= i < |agents| && agents[i].name == name && forall j :: i < j < |agents| ==> agents[j].name != name
  }

  /** A key means the agent with that identifier or, if there is none, the last one listed under that name. */
  ghost predicate Denotes(agents: seq<GraphAgent>, key: string, id: string) {
    if exists a :: a in agents && a.id == key then id == key
    else exists i :: LastNamed(agents, i, key) && agents[i].id == id
  }

  /** Of the agents listed under its identifier, this one is listed last. */
  ghost predicate LastListed(agents: seq<GraphAgent>, a: GraphAgent) {
    exists i :: 0 <= i < |agents| && agents[i] == a && forall j :: i < j < |agents| ==> agents[j].id != a.id
  }

  lemma {:induction false} LastListedIsDrawn(agents: seq<GraphAgent>, id: string)
    requires id in IdMap(agents)
    ensures IdMap(agents)[id].id == id && LastListed(agents, IdMap(agents)[id])
  {
    var front, last := agents[..|agents| - 1], agents[|agents| - 1];
    if last.id != id {
      LastListedIsDrawn(front, id);
      var i :| 0 <= i < |front| && front[i] == IdMap(front)[id] && forall j :: i < j < |front| ==> front[j].id != id;
      assert agents[i] == front[i];
      assert forall j :: i < j < |front| ==> agents[j] == front[j];
    } else {
      assert agents[|agents| - 1] == last;
    }
  }

  lemma {:induction false} LastNamedIsFound(agents: seq<GraphAgent>, name: string) returns (i: nat)
    requires exists a :: a in agents && a.name == name
    ensures LastNamed(agents, i, name)
    ensures name in NameMap(agents) && NameMap(agents)[name] == agents[i]
  {
    var front := agents[..|agents| - 1];
    if agents[|agents| - 1].name == name {
      return |agents| - 1;
    }
    assert agents == front + [agents[|agents| - 1]];
    i := LastNamedIsFound(front, name);
    assert agents[i] == front[i];
    assert forall j :: i < j < |front| ==> agents[j] == front[j];
  }

  lemma {:induction false} NameMapHolds(agents: seq<GraphAgent>, name: string)
    requires name in NameMap(agents)
    ensures exists a :: a in agents && a.name == name
  {
    var last := agents[|agents| - 1];
    if last.name != name {
      NameMapHolds(agents[..|agents| - 1], name);
    } else {
      assert last in agents;
    }
  }

  lemma ResolveKeyIff(agents: seq<GraphAgent>, key: string, id: string)
    ensures ResolveKey(IdMap(agents), NameMap(agents), key) == Some(id) <==> Denotes(agents, key, id)
  {
    IdMapHolds(agents);
    if key !in IdMap(agents) {
      if key in NameMap(agents) {
        NameMapHolds(agents, key);
      }
      if exists a :: a in agents && a.name == key {
        var i := LastNamedIsFound(agents, key);
        forall j | LastNamed(agents, j, key)
          ensures j == i
        {
          OneLastNamed(agents, i, j, key);
        }
      }
    }
  }

  lemma OneLastNamed(agents: seq<GraphAgent>, i: int, j: int, name: string)
    requires LastNamed(agents, i, name) && LastNamed(agents, j, name)
    ensures i == j
  {
    assert !(i < j) && !(j < i);
  }

  // ----- Keys of the entry agent, of which the empty one means nobody

  lemma {:induction false} SameLookups(agents: seq<GraphAgent>)
    ensures "" !in ById(agents) && "" !in ByName(agents)
    ensures forall k :: k != "" ==> (k in ById(agents) <==> k in IdMap(agents))
                                    && (k in ByName(agents) <==> k in NameMap(agents))
    ensures forall k :: k in ById(agents) ==> ById(agents)[k] == IdMap(agents)[k]
    ensures forall k :: k in ByName(agents) ==> ByName(agents)[k] == NameMap(agents)[k]
  {
    if agents != [] {
      SameLookups(agents[..|agents| - 1]);
    }
  }

  /** The agent listed last under this identifier or, if there is none with it, last under this name. */
  ghost predicate Means(agents: seq<GraphAgent>, key: string, b: GraphAgent) {
    if exists a :: a in agents && a.id == key then b.id == key && LastListed(agents, b)
    else exists i :: LastNamed(agents, i, key) && agents[i] == b
  }

  lemma FoundIsMeant(agents: seq<GraphAgent>, key: string, b: GraphAgent)
    ensures Lookup(IdMap(agents), NameMap(agents), key) == Some(b) <==> Means(agents, key, b)
  {
    IdMapHolds(agents);
    if key in IdMap(agents) {
      LastListedIsDrawn(agents, key);
      if LastListed(agents, b) && b.id == key {
        OneLastListed(agents, b, IdMap(agents)[key]);
      }
    } else {
      NamedIsMeant(agents, key, b);
    }
  }

  lemma OneLastListed(agents: seq<GraphAgent>, a: GraphAgent, b: GraphAgent)
    requires LastListed(agents, a) && LastListed(agents, b) && a.id == b.id
    ensures a == b
  {
    var i :| 0 <= i < |agents| && agents[i] == a && forall j :: i < j < |agents| ==> agents[j].id != a.id;
    var k :| 0 <= k < |agents| && agents[k] == b && forall j :: k < j < |agents| ==> agents[j].id != b.id;
    assert !(i < k) && !(k < i);
  }

  lemma NamedIsMeant(agents: seq<GraphAgent>, key: string, b: GraphAgent)
    ensures key in NameMap(agents) && NameMap(agents)[key] == b <==> exists i :: LastNamed(agents, i, key) && agents[i] == b
  {
    if key in NameMap(agents) {
      NameMapHolds(agents, key);
      var i := LastNamedIsFound(agents, key);
      forall j | LastNamed(agents, j, key)
        ensures j == i
      {
        OneLastNamed(agents, i, j, key);
      }
    }
    if i :| LastNamed(agents, i, key) {
      assert agents[i] in agents;
      var k := LastNamedIsFound(agents, key);
    }
  }

  /** For the choice of the entry agent a key means the same agent, except that the empty key means nobody. */
  lemma ResolveIff(agents: seq<GraphAgent>, key: string, b: GraphAgent)
    ensures Resolve(agents, key) == Some(b) <==> key != "" && Means(agents, key, b)
  {
    SameLookups(agents);
    FoundIsMeant(agents, key, b);
  }

  /** An end of a relation is the agent's own key, or means an agent that shares a key with it. */
  ghost predicate Hits(agents: seq<GraphAgent>, end: string, a: GraphAgent) {
    || end == a.id || end == a.name
    || exists b :: end != "" && Means(agents, end, b) && exists k :: k != "" && k in Keys(a) && k in Keys(b)
  }

  lemma HitsIff(agents: seq<GraphAgent>, end: string, a: GraphAgent)
    ensures MarkedBy(agents, end, a.id) || MarkedBy(agents, end, a.name) <==> Hits(agents, end, a)
  {
    if Resolve(agents, end).Some? {
      ResolveIff(agents, end, Resolve(agents, end).value);
    }
    if b :| end != "" && Means(agents, end, b) && exists k :: k != "" && k in Keys(a) && k in Keys(b) {
      ResolveIff(agents, end, b);
    }
  }

  /** Starts a relation and ends none. */
  ghost predicate StartsOnly(agents: seq<GraphAgent>, relations: seq<GraphRelation>, a: GraphAgent) {
    (exists r :: r in relations && Hits(agents, r.source, a)) && (forall r :: r in relations ==> !Hits(agents, r.target, a))
  }

  /** The entry agent starts a relation and ends none, told for every listing, agents sharing keys included. */
  lemma CandidateIff(agents: seq<GraphAgent>, relations: seq<GraphRelation>, a: GraphAgent)
    ensures Candidate(agents, relations, a) <==> StartsOnly(agents, relations, a)
  {
    TouchedIff(agents, Sources(relations), a);
    TouchedIff(agents, Targets(relations), a);
    EndsOf(relations);
  }

  lemma TouchedIff(agents: seq<GraphAgent>, ends: seq<string>, a: GraphAgent)
    ensures Touched(agents, ends, a) <==> exists end :: end in ends && Hits(agents, end, a)
  {
    forall end | end in ends
      ensures MarkedBy(agents, end, a.id) || MarkedBy(agents, end, a.name) <==> Hits(agents, end, a)
    {
      HitsIff(agents, end, a);
    }
  }

  lemma EndsOf(relations: seq<GraphRelation>)
    ensures forall end :: end in Sources(relations) <==> exists r :: r in relations && r.source == end
    ensures forall end :: end in Targets(relations) <==> exists r :: r in relations && r.target == end
  {
    forall r | r in relations
      ensures r.source in Sources(relations) && r.target in Targets(relations)
    {
      var i :| 0 <= i < |relations| && relations[i] == r;
      assert Sources(relations)[i] == r.source && Targets(relations)[i] == r.target;
    }
  }

  /** The entry agent is the first listed one that starts a relation and ends none; without such an agent there is none. */
  lemma EntryIff(agents: seq<GraphAgent>, relations: seq<GraphRelation>, entry: Option<string>)
    ensures IsEntry(agents, relations, entry)
       <==> match entry
            case None => forall i :: 0 <= i < |agents| ==> !StartsOnly(agents, relations, agents[i])
            case Some(name) =>
              exists i :: 0 <= i < |agents| && agents[i].name == name && StartsOnly(agents, relations, agents[i])
                          && forall j :: 0 <= j < i ==> !StartsOnly(agents, relations, agents[j])
  {
    forall a: GraphAgent
      ensures Candidate(agents, relations, a) <==> StartsOnly(agents, relations, a)
    {
      CandidateIff(agents, relations, a);
    }
  }
}
