/** How exact the cycle check is: which requests it judges rightly, and the circles that other spellings let through. */
module CycleVerdicts {
  import opened Wrappers
  import opened Digraph
  import opened Identifiers
  import opened RelationService
  import opened RelationRuns

  /** All nodes are identifiers as the database writes them. */
  ghost predicate StoredGraph(edges: set<Edge>) {
    forall e :: e in edges ==> IsStored(e.src) && IsStored(e.dst)
  }

  lemma GraphIsStored(store: Store, schemaId: string, excludeId: string)
    requires Consistent(store)
    ensures StoredGraph(SchemaEdges(store, schemaId, excludeId))
  {}

  lemma WalkEndsStored(edges: set<Edge>, walk: seq<string>)
    requires StoredGraph(edges) && IsWalk(edges, walk) && |walk| > 1
    ensures IsStored(walk[0]) && IsStored(walk[|walk| - 1])
  {
    var k := |walk| - 2;
    assert Edge(walk[0], walk[0 + 1]) in edges;
    assert Edge(walk[k], walk[k + 1]) in edges;
  }

  /** An identifier in another spelling is no node of a stored graph, so no search begins or ends at it. */
  lemma OtherSpellingUnreached(edges: set<Edge>, from: string, to: string)
    requires StoredGraph(edges) && from != to && !(IsStored(from) && IsStored(to))
    ensures !Reaches(edges, from, to)
  {
    forall walk | IsWalk(edges, walk)
      ensures !WalkBetween(edges, walk, from, to)
    {
      if |walk| > 1 {
        WalkEndsStored(edges, walk);
      }
    }
  }

  // ----- Creating

  /** The search for a way back is right about the graph with the written edge in it. */
  ghost predicate JudgedRightly(searched: set<Edge>, kept: set<Edge>, ends: Edge) {
    Reaches(searched, ends.dst, ends.src) <==> !Acyclic(kept + {Edge(Lower(ends.src), Lower(ends.dst))})
  }

  /** On an acyclic graph the search refuses an edge exactly when it is spelled as stored and would close a circle. */
  lemma RefusedIff(edges: set<Edge>, ends: Edge)
    requires StoredGraph(edges) && Acyclic(edges) && UuidEnds(ends) && ends.src != ends.dst
    ensures Reaches(edges, ends.dst, ends.src)
       <==> IsStored(ends.src) && IsStored(ends.dst) && !Acyclic(edges + {Edge(Lower(ends.src), Lower(ends.dst))})
  {
    if IsStored(ends.src) && IsStored(ends.dst) {
      OwnFormIff(ends.src);
      OwnFormIff(ends.dst);
      EdgeKeepsAcyclicIff(edges, ends.src, ends.dst);
    } else {
      OtherSpellingUnreached(edges, ends.dst, ends.src);
    }
  }

  /** On an acyclic schema a relation is refused exactly when its ends are spelled as stored and it closes a circle. */
  lemma CreateRefusedIff(store: Store, schemaRef: string, source: string, target: string, config: string, freshId: string)
    requires Consistent(store) && Locate(store.schemas, schemaRef).Found?
    requires Acyclic(GraphOf(store, Locate(store.schemas, schemaRef).id))
    requires freshId !in store.relations
    requires ResolveEnds(store.agents, source, target).Ok?
    ensures var schemaId := Locate(store.schemas, schemaRef).id;
            var row := RowFor(schemaId, ResolveEnds(store.agents, source, target).value, config);
            CreateOutcome(store, schemaRef, source, target, config) == Err(CircularDelegation)
            <==> SpelledAsStored(source) && SpelledAsStored(target)
                 && !Acyclic(GraphOf(WithNewRelation(store, freshId, row), schemaId))
  {
    var schemaId := Locate(store.schemas, schemaRef).id;
    var edge := ResolveEnds(store.agents, source, target).value;
    ResolvedEnds(store.agents, source, target);
    GraphIsStored(store, schemaId, "");
    RefusedIff(GraphOf(store, schemaId), edge);
    NewRelationEdges(store, freshId, RowFor(schemaId, edge, config));
  }

  /** For the ends alone: the search is right on every acyclic graph exactly when both are spelled as stored. */
  lemma CreateJudgedRightlyIff(ends: Edge)
    requires UuidEnds(ends) && ends.src != ends.dst
    ensures (forall edges :: StoredGraph(edges) && Acyclic(edges) ==> JudgedRightly(edges, edges, ends))
       <==> IsStored(ends.src) && IsStored(ends.dst)
  {
    if IsStored(ends.src) && IsStored(ends.dst) {
      forall edges | StoredGraph(edges) && Acyclic(edges)
        ensures JudgedRightly(edges, edges, ends)
      {
        RefusedIff(edges, ends);
      }
    } else {
      var back := WayBack(ends);
      WayBackCloses(ends);
      RefusedIff(back, ends);
      assert !JudgedRightly(back, back, ends);
    }
  }

  /** The graph in which the edge closes a circle: the opposite edge, or none if both ends are one agent. */
  function WayBack(ends: Edge): set<Edge> {
    if Lower(ends.src) == Lower(ends.dst) then {} else {Edge(Lower(ends.dst), Lower(ends.src))}
  }

  lemma WayBackCloses(ends: Edge)
    requires UuidEnds(ends)
    ensures StoredGraph(WayBack(ends)) && Acyclic(WayBack(ends))
    ensures !Acyclic(WayBack(ends) + {Edge(Lower(ends.src), Lower(ends.dst))})
  {
    var s, t := Lower(ends.src), Lower(ends.dst);
    LowerIsStored(ends.src);
    LowerIsStored(ends.dst);
    NoEdgesAcyclic();
    var grown := WayBack(ends) + {Edge(s, t)};
    if s == t {
      assert ClosedWalk(grown, [s, t]);
    } else {
      SingleEdgeAcyclic(t, s);
      var walk := [s, t, s];
      assert Edge(walk[0], walk[1]) in grown && Edge(walk[1], walk[2]) in grown;
      assert ClosedWalk(grown, walk);
    }
  }

  lemma NoEdgesAcyclic()
    ensures Acyclic({})
  {
    forall walk
      ensures !ClosedWalk({}, walk)
    {
      NoClosedWalkWithoutEdges(walk);
    }
  }

  lemma NotReachedWithoutEdges(from: string, to: string)
    requires from != to
    ensures !Reaches({}, from, to)
  {
    var none: set<Edge> := {};
    forall walk | IsWalk(none, walk)
      ensures !WalkBetween(none, walk, from, to)
    {
      if |walk| > 1 {
        var i := 0;
        assert Edge(walk[i], walk[i + 1]) !in none;
      }
    }
  }

  lemma SingleEdgeAcyclic(from: string, to: string)
    requires from != to
    ensures Acyclic({Edge(from, to)})
  {
    NoEdgesAcyclic();
    NotReachedWithoutEdges(to, from);
    EdgeKeepsAcyclicIff({}, from, to);
    assert {} + {Edge(from, to)} == {Edge(from, to)};
  }

  // ----- Updating

  /** What an update searches: the other relations, and the replaced one too if its identifier is spelled otherwise. */
  function Searched(rest: set<Edge>, replaced: Edge, spelled: bool): set<Edge> {
    if spelled then rest else rest + {replaced}
  }

  lemma UpdateSearches(store: Store, ref: string, id: string)
    requires Consistent(store) && Locate(store.relations, ref) == Found(id)
    ensures var row := store.relations[id];
            SchemaEdges(store, row.schemaId, ref)
            == Searched(SchemaEdges(store, row.schemaId, id), Edge(row.source, row.target), IsStored(ref))
  {
    var row := store.relations[id];
    SearchedEdges(store, row.schemaId, ref, id);
    assert Edge(row.source, row.target) in GraphOf(store, row.schemaId);
    assert GraphOf(store, row.schemaId) == SchemaEdges(store, row.schemaId, id) + {Edge(row.source, row.target)};
  }

  /**
   On an acyclic schema an update is refused as circular exactly when its ends are spelled as stored and the graph
   that is searched leads back; with the relation's identifier spelled as stored, that is when it closes a circle.
   */
  lemma UpdateRefusedIff(store: Store, ref: string, source: string, target: string, config: string)
    requires Consistent(store) && Locate(store.relations, ref).Found?
    requires Acyclic(GraphOf(store, store.relations[Locate(store.relations, ref).id].schemaId))
    requires ResolveEnds(store.agents, source, target).Ok?
    ensures var id := Locate(store.relations, ref).id;
            var schemaId := store.relations[id].schemaId;
            var row := RowFor(schemaId, ResolveEnds(store.agents, source, target).value, config);
            && (UpdateOutcome(store, ref, source, target, config) == Err(CircularDelegation)
                <==> SpelledAsStored(source) && SpelledAsStored(target)
                     && !Acyclic(SchemaEdges(store, schemaId, ref) + {Edge(row.source, row.target)}))
            && GraphOf(WithRow(store, Update(id, row)), schemaId)
               == SchemaEdges(store, schemaId, id) + {Edge(row.source, row.target)}
            && (IsStored(ref) ==> SchemaEdges(store, schemaId, ref) == SchemaEdges(store, schemaId, id))
  {
    var id := Locate(store.relations, ref).id;
    var schemaId := store.relations[id].schemaId;
    var edge := ResolveEnds(store.agents, source, target).value;
    SearchedEdges(store, schemaId, ref, id);
    ResolvedEnds(store.agents, source, target);
    GraphIsStored(store, schemaId, ref);
    AcyclicSubgraph(SchemaEdges(store, schemaId, ref), GraphOf(store, schemaId));
    RefusedIff(SchemaEdges(store, schemaId, ref), edge);
    ReplacedRelationEdges(store, id, RowFor(schemaId, edge, config));
  }

  ghost predicate AcyclicRows(rest: set<Edge>, replaced: Edge) {
    StoredGraph(rest + {replaced}) && Acyclic(rest + {replaced})
  }

  /** For the texts alone: an update is judged rightly on every acyclic graph exactly when all three are spelled as stored. */
  lemma UpdateJudgedRightlyIff(ends: Edge, spelled: bool)
    requires UuidEnds(ends) && ends.src != ends.dst
    ensures (forall rest, replaced :: AcyclicRows(rest, replaced)
               ==> JudgedRightly(Searched(rest, replaced, spelled), rest, ends))
       <==> IsStored(ends.src) && IsStored(ends.dst) && spelled
  {
    if !(IsStored(ends.src) && IsStored(ends.dst)) {
      OtherEndsMisjudged(ends, spelled);
    } else if !spelled {
      OtherIdentifierMisjudged(ends);
    } else {
      forall rest, replaced | AcyclicRows(rest, replaced)
        ensures JudgedRightly(Searched(rest, replaced, spelled), rest, ends)
      {
        AcyclicSubgraph(rest, rest + {replaced});
        RefusedIff(rest, ends);
      }
    }
  }

  /** Reversing the only relation of a schema: refused, though no circle would remain. */
  lemma OtherIdentifierMisjudged(ends: Edge)
    requires IsStored(ends.src) && IsStored(ends.dst) && ends.src != ends.dst
    ensures exists rest, replaced ::
      AcyclicRows(rest, replaced) && !JudgedRightly(Searched(rest, replaced, false), rest, ends)
  {
    var rest: set<Edge> := {};
    var replaced := Edge(ends.dst, ends.src);
    OwnFormIff(ends.src);
    OwnFormIff(ends.dst);
    SingleEdgeAcyclic(ends.dst, ends.src);
    SingleEdgeAcyclic(ends.src, ends.dst);
    assert rest + {replaced} == {replaced} && rest + {ends} == {ends};
    ReachesStep(rest + {replaced}, ends.dst, ends.src);
    assert AcyclicRows(rest, replaced) && !JudgedRightly(Searched(rest, replaced, false), rest, ends);
  }

  lemma OtherEndsMisjudged(ends: Edge, spelled: bool)
    requires UuidEnds(ends) && ends.src != ends.dst && !(IsStored(ends.src) && IsStored(ends.dst))
    ensures exists rest, replaced ::
      AcyclicRows(rest, replaced) && !JudgedRightly(Searched(rest, replaced, spelled), rest, ends)
  {
    var rest, s, t := WayBack(ends), Lower(ends.src), Lower(ends.dst);
    var other := Bystander(s, t);
    var replaced := Edge(s, other);
    WayBackCloses(ends);
    LowerIsStored(ends.src);
    NothingLeavesBystander(rest, s, t, other);
    EdgeKeepsAcyclicIff(rest, s, other);
    OtherSpellingUnreached(Searched(rest, replaced, spelled), ends.dst, ends.src);
    assert AcyclicRows(rest, replaced) && !JudgedRightly(Searched(rest, replaced, spelled), rest, ends);
  }

  /** A third agent. */
  function Bystander(s: string, t: string): (other: string)
    ensures IsStored(other) && other != s && other != t
  {
    assert Repeated('a')[0] == 'a' && Repeated('b')[0] == 'b' && Repeated('c')[0] == 'c';
    if Repeated('a') != s && Repeated('a') != t then Repeated('a')
    else if Repeated('b') != s && Repeated('b') != t then Repeated('b')
    else Repeated('c')
  }

  lemma NothingLeavesBystander(rest: set<Edge>, s: string, t: string, other: string)
    requires rest == {} || rest == {Edge(t, s)}
    requires other != s && other != t
    ensures !Reaches(rest, other, s)
  {
    forall walk | IsWalk(rest, walk)
      ensures !WalkBetween(rest, walk, other, s)
    {
      if |walk| > 1 {
        var i := 0;
        assert Edge(walk[i], walk[i + 1]) in rest;
      }
    }
  }

  /** Saving a relation of an acyclic schema with its own ends succeeds, however identifiers are spelled. */
  lemma ResavingSucceeds(store: Store, ref: string, source: string, target: string, config: string)
    requires Consistent(store) && Locate(store.relations, ref).Found?
    requires ResolveEnds(store.agents, source, target).Ok?
    requires var row := store.relations[Locate(store.relations, ref).id];
             var edge := ResolveEnds(store.agents, source, target).value;
             Acyclic(GraphOf(store, row.schemaId)) && Lower(edge.src) == row.source && Lower(edge.dst) == row.target
    ensures var id := Locate(store.relations, ref).id;
            UpdateOutcome(store, ref, source, target, config) == Ok(Update(id, store.relations[id].(config := config)))
  {
    var id := Locate(store.relations, ref).id;
    var row := store.relations[id];
    UpdateRefusedIff(store, ref, source, target, config);
    UpdateSearches(store, ref, id);
    var searched := SchemaEdges(store, row.schemaId, ref);
    assert Edge(row.source, row.target) in GraphOf(store, row.schemaId);
    AcyclicSubgraph(searched + {Edge(row.source, row.target)}, GraphOf(store, row.schemaId));
  }

  // ----- Circles that are let through

  /** An edge that starts as stored and ends in another spelling is never refused as circular. */
  lemma OtherSpellingAccepted(store: Store, schemaId: string, b: string, spelling: string, config: string)
    requires Consistent(store) && schemaId in store.schemas && b in store.agents
    requires IsUuid(spelling) && !IsStored(spelling) && Lower(spelling) in store.agents
    requires !PairTaken(store, Relation(schemaId, b, Lower(spelling), config), "")
    ensures CreateOutcome(store, schemaId, b, spelling, config) == Ok(Relation(schemaId, b, Lower(spelling), config))
  {
    LocateStored(store.schemas, schemaId);
    OwnFormIff(b);
    GraphIsStored(store, schemaId, "");
    OtherSpellingUnreached(GraphOf(store, schemaId), spelling, b);
  }

  /** With A -> B stored, B -> A is accepted when A's identifier is written in another letter case. */
  lemma OtherSpellingClosesCircle(store: Store, schemaId: string, r: string, spelling: string, config: string, freshId: string)
    requires Consistent(store) && r in store.relations && store.relations[r].schemaId == schemaId
    requires IsUuid(spelling) && !IsStored(spelling) && Lower(spelling) == store.relations[r].source
    requires freshId !in store.relations
    requires var row := store.relations[r];
             row.source != row.target && !PairTaken(store, Relation(schemaId, row.target, row.source, config), "")
    ensures var a, b := store.relations[r].source, store.relations[r].target;
            && CreateOutcome(store, schemaId, b, spelling, config) == Ok(Relation(schemaId, b, a, config))
            && ClosedWalk(GraphOf(WithNewRelation(store, freshId, Relation(schemaId, b, a, config)), schemaId), [a, b, a])
  {
    var a, b := store.relations[r].source, store.relations[r].target;
    OtherSpellingAccepted(store, schemaId, b, spelling, config);
    NewRelationEdges(store, freshId, Relation(schemaId, b, a, config));
    assert Edge(a, b) in GraphOf(store, schemaId);
    ThereAndBack(GraphOf(store, schemaId), a, b);
  }

  lemma ThereAndBack(edges: set<Edge>, a: string, b: string)
    requires Edge(a, b) in edges
    ensures ClosedWalk(edges + {Edge(b, a)}, [a, b, a])
  {
    var walk := [a, b, a];
    assert Edge(walk[0], walk[1]) in edges && Edge(walk[1], walk[2]) == Edge(b, a);
  }

  /** An agent is accepted as its own target when one of the two references is in another letter case. */
  lemma OtherSpellingClosesSelfLoop(store: Store, schemaId: string, a: string, spelling: string, config: string, freshId: string)
    requires Consistent(store) && schemaId in store.schemas && a in store.agents && freshId !in store.relations
    requires IsUuid(spelling) && !IsStored(spelling) && Lower(spelling) == a
    requires !PairTaken(store, Relation(schemaId, a, a, config), "")
    ensures CreateOutcome(store, schemaId, a, spelling, config) == Ok(Relation(schemaId, a, a, config))
    ensures ClosedWalk(GraphOf(WithNewRelation(store, freshId, Relation(schemaId, a, a, config)), schemaId), [a, a])
  {
    OtherSpellingAccepted(store, schemaId, a, spelling, config);
    NewRelationEdges(store, freshId, Relation(schemaId, a, a, config));
  }

  const AGENT_A := Repeated('a')
  const AGENT_B := Repeated('b')
  const SCHEMA := Repeated('c')
  const FIRST := Repeated('d')
  const SECOND := Repeated('e')

  /** Two agents and a schema without relations. */
  function TwoAgents(): Store {
    Store(map[AGENT_A := Agent("a", false), AGENT_B := Agent("b", false)],
          map[SCHEMA := Schema("s", "", None, false)], map[])
  }

  lemma ExampleIdentifiers()
    ensures IsStored(AGENT_A) && IsStored(AGENT_B) && IsStored(SCHEMA) && IsStored(FIRST) && IsStored(SECOND)
    ensures AGENT_A != AGENT_B && FIRST != SECOND
    ensures IsUuid(Repeated('A')) && !IsStored(Repeated('A')) && Lower(Repeated('A')) == AGENT_A
  {
    RepeatedSpellings('a', 'b');
    RepeatedSpellings('d', 'e');
    RepeatedSpellings('A', 'a');
    assert Repeated('A')[0] == 'A';
  }

  lemma TwoAgentsConsistent()
    ensures Consistent(TwoAgents())
  {
    ExampleIdentifiers();
    var agents := TwoAgents().agents;
    assert agents[AGENT_A].name != agents[AGENT_B].name;
  }

  lemma AgentsFound()
    ensures UniqueNames(TwoAgents().agents)
    ensures FindByName(TwoAgents().agents, "a") == Some(AGENT_A) && FindByName(TwoAgents().agents, "b") == Some(AGENT_B)
  {
    ExampleIdentifiers();
    assert AgentsNamed(TwoAgents().agents, "a") == {AGENT_A};
    assert AgentsNamed(TwoAgents().agents, "b") == {AGENT_B};
  }

  lemma FirstRelation()
    ensures Consistent(TwoAgents())
    ensures CreateOutcome(TwoAgents(), SCHEMA, "a", "b", "") == Ok(Relation(SCHEMA, AGENT_A, AGENT_B, ""))
  {
    TwoAgentsConsistent();
    AgentsFound();
    ExampleIdentifiers();
    LocateStored(TwoAgents().schemas, SCHEMA);
    OwnFormIff(AGENT_A);
    OwnFormIff(AGENT_B);
    assert GraphOf(TwoAgents(), SCHEMA) == {};
    NotReachedWithoutEdges(AGENT_B, AGENT_A);
  }

  lemma CreateStep(store: Store, req: Request, row: Relation)
    requires Consistent(store) && req.CreateRelation? && Enabled(store, req)
    requires CreateOutcome(store, req.schemaRef, req.source, req.target, req.config) == Ok(row)
    ensures Step(store, req) == WithNewRelation(store, req.freshId, row)
  {}

  lemma RunOfTwo(store: Store, first: Request, second: Request)
    requires Consistent(store)
    ensures Consistent(Step(store, first)) && Run(store, [first, second]) == Step(Step(store, first), second)
  {
    StepKeepsConsistent(store, first);
    StepKeepsConsistent(Step(store, first), second);
    assert [first, second][1..] == [second] && [second][1..] == [];
    assert Run(Step(store, first), [second]) == Step(Step(store, first), second);
  }

  /** From a schema without relations, two creations leave the agents delegating to each other. */
  lemma TwoCreationsCloseCircle()
    ensures Consistent(TwoAgents()) && GraphOf(TwoAgents(), SCHEMA) == {}
    ensures var reqs := [CreateRelation(SCHEMA, "a", "b", "", FIRST),
                         CreateRelation(SCHEMA, AGENT_B, Repeated('A'), "", SECOND)];
            ClosedWalk(GraphOf(Run(TwoAgents(), reqs), SCHEMA), [AGENT_A, AGENT_B, AGENT_A])
  {
    ExampleIdentifiers();
    FirstRelation();
    var first := CreateRelation(SCHEMA, "a", "b", "", FIRST);
    var second := CreateRelation(SCHEMA, AGENT_B, Repeated('A'), "", SECOND);
    RunOfTwo(TwoAgents(), first, second);
    CreateStep(TwoAgents(), first, Relation(SCHEMA, AGENT_A, AGENT_B, ""));
    SecondRelation(Step(TwoAgents(), first), second);
  }

  lemma SecondRelation(store: Store, req: Request)
    requires Consistent(store) && store.relations == map[FIRST := Relation(SCHEMA, AGENT_A, AGENT_B, "")]
    requires req == CreateRelation(SCHEMA, AGENT_B, Repeated('A'), "", SECOND)
    ensures ClosedWalk(GraphOf(Step(store, req), SCHEMA), [AGENT_A, AGENT_B, AGENT_A])
  {
    ExampleIdentifiers();
    OtherSpellingClosesCircle(store, SCHEMA, FIRST, Repeated('A'), "", SECOND);
    CreateStep(store, req, Relation(SCHEMA, AGENT_B, AGENT_A, ""));
  }
}
