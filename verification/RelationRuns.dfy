/** Serialised runs of the relation service and what every such run keeps. */
module RelationRuns {
  import opened Digraph
  import opened Identifiers
  import opened RelationService

  datatype Request =
    | CreateRelation(schemaRef: string, source: string, target: string, config: string, freshId: string)
    | UpdateRelation(ref: string, source: string, target: string, config: string)
    | DeleteRelation(ref: string)
    | DeleteAgent(name: string)
    | UpdateSchema(ref: string, patch: SchemaPatch)
    | RegisterAgent(agentId: string, agent: Agent)
    | RegisterSchema(newSchemaId: string, schema: Schema)

  /** A row identifier drawn by the database is new and in stored form, and so are registered agents and schemas. */
  predicate Enabled(store: Store, req: Request) {
    match req
    case CreateRelation(_, _, _, _, freshId) => IsStored(freshId) && freshId !in store.relations
    case RegisterAgent(id, agent) => IsStored(id) && id !in store.agents && AgentsNamed(store.agents, agent.name) == {}
    case RegisterSchema(id, schema) =>
      IsStored(id) && id !in store.schemas && !NameTaken(store.schemas, schema.name, id)
      && (schema.entry.Some? ==> schema.entry.value in store.agents)
    case _ => true
  }

  /** Agents are named, or identified in the letter case in which their identifiers are stored. */
  predicate SpelledAsStoredIn(req: Request) {
    req.CreateRelation? || req.UpdateRelation? ==> SpelledAsStored(req.source) && SpelledAsStored(req.target)
  }

  /** The tables after one request, as the service's methods leave them. */
  ghost function Step(store: Store, req: Request): Store
    requires Consistent(store)
  {
    if !Enabled(store, req) then store
    else match req
      case CreateRelation(schemaRef, source, target, config, freshId) =>
        (match CreateOutcome(store, schemaRef, source, target, config)
         case Err(_) => store
         case Ok(row) => WithNewRelation(store, freshId, row))
      case UpdateRelation(ref, source, target, config) =>
        (match UpdateOutcome(store, ref, source, target, config)
         case Err(_) => store
         case Ok(update) => WithRow(store, update))
      case DeleteRelation(ref) =>
        (match Locate(store.relations, ref)
         case Found(id) => store.(relations := store.relations - {id})
         case _ => store)
      case DeleteAgent(name) =>
        (match DeleteAgentOutcome(store, name)
         case Err(_) => store
         case Ok(after) => after)
      case UpdateSchema(ref, patch) =>
        (match SchemaOutcome(store, ref, patch)
         case Err(_) => store
         case Ok(update) => WithSchema(store, update))
      case RegisterAgent(id, agent) => store.(agents := store.agents[id := agent])
      case RegisterSchema(id, schema) => store.(schemas := store.schemas[id := schema])
  }

  // ----- One step

  lemma NewRelationEdges(store: Store, id: string, row: Relation)
    requires id !in store.relations && row.schemaId in store.schemas
    ensures GraphOf(WithNewRelation(store, id, row), row.schemaId)
         == GraphOf(store, row.schemaId) + {Edge(row.source, row.target)}
    ensures forall s :: s != row.schemaId ==> GraphOf(WithNewRelation(store, id, row), s) == GraphOf(store, s)
  {
    var after := WithNewRelation(store, id, row);
    forall e | e in GraphOf(store, row.schemaId) + {Edge(row.source, row.target)}
      ensures e in GraphOf(after, row.schemaId)
    {
      if e == Edge(row.source, row.target) {
        assert after.relations[id] == row;
      } else {
        var r :| r in store.relations && store.relations[r].schemaId == row.schemaId
                 && e == Edge(store.relations[r].source, store.relations[r].target);
        assert after.relations[r] == store.relations[r];
      }
    }
    forall s | s != row.schemaId
      ensures GraphOf(after, s) == GraphOf(store, s)
    {
      forall r | r in store.relations ensures after.relations[r] == store.relations[r] {}
    }
  }

  lemma ReplacedRelationEdges(store: Store, id: string, row: Relation)
    requires id != "" && id in store.relations && row.schemaId == store.relations[id].schemaId
    ensures var after := store.(relations := store.relations[id := row]);
            && GraphOf(after, row.schemaId) == SchemaEdges(store, row.schemaId, id) + {Edge(row.source, row.target)}
            && forall s :: s != row.schemaId ==> GraphOf(after, s) == GraphOf(store, s)
  {
    var after := store.(relations := store.relations[id := row]);
    forall e | e in SchemaEdges(store, row.schemaId, id) + {Edge(row.source, row.target)}
      ensures e in GraphOf(after, row.schemaId)
    {
      if e == Edge(row.source, row.target) {
        assert after.relations[id] == row;
      } else {
        var r :| r in store.relations && r != id && store.relations[r].schemaId == row.schemaId
                 && e == Edge(store.relations[r].source, store.relations[r].target);
        assert after.relations[r] == store.relations[r];
      }
    }
    forall s | s != row.schemaId
      ensures GraphOf(after, s) == GraphOf(store, s)
    {
      forall r | r in store.relations && r != id ensures after.relations[r] == store.relations[r] {}
    }
  }

  lemma CreateKeepsConsistent(store: Store, id: string, row: Relation)
    requires Consistent(store) && IsStored(id) && id !in store.relations && row.schemaId in store.schemas
    requires EndpointsKnown(store, row) && !PairTaken(store, row, "")
    ensures Consistent(WithNewRelation(store, id, row))
  {
    PairStaysUnique(store, id, row);
  }

  lemma UpdateKeepsConsistent(store: Store, id: string, row: Relation)
    requires Consistent(store) && id in store.relations && row.schemaId in store.schemas
    requires EndpointsKnown(store, row) && !PairTaken(store, row, id)
    ensures Consistent(store.(relations := store.relations[id := row]))
  {
    PairStaysUnique(store, id, row);
  }

  lemma PairStaysUnique(store: Store, id: string, row: Relation)
    requires UniquePairs(store.relations) && !PairTaken(store, row, if id in store.relations then id else "")
    requires "" !in store.relations
    ensures UniquePairs(store.relations[id := row])
  {
    forall r | r in store.relations && r != id
      ensures !SamePair(store.relations[r], row)
    {}
  }

  lemma SchemaKeepsConsistent(store: Store, update: SchemaUpdate)
    requires Consistent(store) && IsStored(update.id)
    requires !NameTaken(store.schemas, update.schema.name, update.id)
    requires update.schema.entry.Some? ==> update.schema.entry.value in store.agents
    ensures Consistent(WithSchema(store, update))
  {
    forall s | s in store.schemas && s != update.id
      ensures store.schemas[s].name != update.schema.name
    {}
  }

  lemma DeleteAgentKeepsConsistent(store: Store, gone: set<string>)
    requires Consistent(store)
    ensures Consistent(WithoutAgents(store, gone))
  {
    DeleteAgentKeepsReferences(store, gone);
    assert UniquePairs(WithoutAgents(store, gone).relations);
    SchemaNamesStay(store, gone);
  }

  lemma DeleteAgentKeepsReferences(store: Store, gone: set<string>)
    requires EntriesResolve(store) && RelationsResolve(store)
    ensures EntriesResolve(WithoutAgents(store, gone)) && RelationsResolve(WithoutAgents(store, gone))
  {}

  lemma SchemaNamesStay(store: Store, gone: set<string>)
    requires UniqueSchemaNames(store.schemas)
    ensures UniqueSchemaNames(WithoutAgents(store, gone).schemas)
  {
    var after := WithoutAgents(store, gone).schemas;
    forall s | s in after
      ensures after[s].name == store.schemas[s].name
    {}
  }

  lemma RegisterKeepsConsistent(store: Store, id: string, agent: Agent)
    requires Consistent(store) && IsStored(id) && id !in store.agents && AgentsNamed(store.agents, agent.name) == {}
    ensures Consistent(store.(agents := store.agents[id := agent]))
  {
    forall a | a in store.agents ensures store.agents[a].name != agent.name {
      assert a in AgentsNamed(store.agents, agent.name) <==> store.agents[a].name == agent.name;
    }
  }

  lemma StepKeepsConsistent(store: Store, req: Request)
    requires Consistent(store)
    ensures Consistent(Step(store, req))
  {
    if Enabled(store, req) {
      match req
      case CreateRelation(_, _, _, _, _) => CreateStepKeepsConsistent(store, req);
      case UpdateRelation(_, _, _, _) => UpdateStepKeepsConsistent(store, req);
      case DeleteRelation(ref) =>
      case DeleteAgent(name) => DeleteAgentKeepsConsistent(store, AgentsNamed(store.agents, name));
      case UpdateSchema(ref, patch) =>
        var outcome := SchemaOutcome(store, ref, patch);
        if outcome.Ok? { SchemaKeepsConsistent(store, outcome.value); }
      case RegisterAgent(id, agent) => RegisterKeepsConsistent(store, id, agent);
      case RegisterSchema(id, schema) => SchemaKeepsConsistent(store, SchemaUpdate(id, schema));
    }
  }

  lemma CreateStepKeepsConsistent(store: Store, req: Request)
    requires Consistent(store) && req.CreateRelation? && Enabled(store, req)
    ensures Consistent(Step(store, req))
  {
    var outcome := CreateOutcome(store, req.schemaRef, req.source, req.target, req.config);
    if outcome.Ok? {
      CreateKeepsConsistent(store, req.freshId, outcome.value);
    }
  }

  lemma UpdateStepKeepsConsistent(store: Store, req: Request)
    requires Consistent(store) && req.UpdateRelation?
    ensures Consistent(Step(store, req))
  {
    var outcome := UpdateOutcome(store, req.ref, req.source, req.target, req.config);
    if outcome.Ok? {
      UpdateKeepsConsistent(store, outcome.value.id, outcome.value.row);
    }
  }

  // ----- Circles

  /** The row written for references spelled as stored joins the very ends that were searched. */
  lemma SpelledRow(store: Store, source: string, target: string, schemaId: string, config: string)
    requires Consistent(store) && SpelledAsStored(source) && SpelledAsStored(target)
    requires ResolveEnds(store.agents, source, target).Ok?
    ensures var edge := ResolveEnds(store.agents, source, target).value;
            RowFor(schemaId, edge, config) == Relation(schemaId, edge.src, edge.dst, config)
  {
    ResolvedEnds(store.agents, source, target);
    var edge := ResolveEnds(store.agents, source, target).value;
    OwnFormIff(edge.src);
    OwnFormIff(edge.dst);
  }

  /** The search leaves the replaced row out exactly when its identifier is written as it is stored. */
  lemma SearchedEdges(store: Store, schemaId: string, ref: string, id: string)
    requires Consistent(store) && Locate(store.relations, ref) == Found(id)
    ensures id in store.relations && id != ""
    ensures SchemaEdges(store, schemaId, ref)
         == if IsStored(ref) then SchemaEdges(store, schemaId, id) else GraphOf(store, schemaId)
    ensures SchemaEdges(store, schemaId, id) <= SchemaEdges(store, schemaId, ref)
  {
    if IsStored(ref) {
      OwnFormIff(ref);
    }
  }

  lemma CreateAddsNoCycle(store: Store, req: Request, schemaId: string, walk: seq<string>)
    requires Consistent(store) && req.CreateRelation? && Enabled(store, req) && SpelledAsStoredIn(req)
    requires ClosedWalk(GraphOf(Step(store, req), schemaId), walk)
    ensures ClosedWalk(GraphOf(store, schemaId), walk)
  {
    var outcome := CreateOutcome(store, req.schemaRef, req.source, req.target, req.config);
    if outcome.Ok? {
      var row := outcome.value;
      SpelledRow(store, req.source, req.target, row.schemaId, req.config);
      NewRelationEdges(store, req.freshId, row);
      if schemaId == row.schemaId {
        NoNewClosedWalk(GraphOf(store, schemaId), row.source, row.target, walk);
      }
    }
  }

  lemma UpdateAddsNoCycle(store: Store, req: Request, schemaId: string, walk: seq<string>)
    requires Consistent(store) && req.UpdateRelation? && SpelledAsStoredIn(req)
    requires ClosedWalk(GraphOf(Step(store, req), schemaId), walk)
    ensures ClosedWalk(GraphOf(store, schemaId), walk)
  {
    var outcome := UpdateOutcome(store, req.ref, req.source, req.target, req.config);
    if outcome.Ok? {
      var id, row := outcome.value.id, outcome.value.row;
      SpelledRow(store, req.source, req.target, row.schemaId, req.config);
      SearchedEdges(store, row.schemaId, req.ref, id);
      ReplacedRelationEdges(store, id, row);
      if schemaId == row.schemaId {
        var rest := SchemaEdges(store, schemaId, id);
        if Reaches(rest, row.target, row.source) {
          ReachesMonotone(rest, SchemaEdges(store, schemaId, req.ref), row.target, row.source);
        }
        NoNewClosedWalk(rest, row.source, row.target, walk);
        ClosedWalkMonotone(rest, GraphOf(store, schemaId), walk);
      }
    }
  }

  /** Every circle of the graph after a request spelled as stored was already there before it. */
  lemma StepAddsNoCycle(store: Store, req: Request, schemaId: string, walk: seq<string>)
    requires Consistent(store) && SpelledAsStoredIn(req)
    requires ClosedWalk(GraphOf(Step(store, req), schemaId), walk)
    ensures ClosedWalk(GraphOf(store, schemaId), walk)
  {
    if Enabled(store, req) {
      if req.CreateRelation? {
        CreateAddsNoCycle(store, req, schemaId, walk);
      } else if req.UpdateRelation? {
        UpdateAddsNoCycle(store, req, schemaId, walk);
      } else {
        ClosedWalkMonotone(GraphOf(Step(store, req), schemaId), GraphOf(store, schemaId), walk);
      }
    }
  }

  // ----- Runs

  ghost function Run(store: Store, reqs: seq<Request>): (after: Store)
    requires Consistent(store)
    ensures Consistent(after)
    decreases |reqs|
  {
    if reqs == [] then store
    else
      StepKeepsConsistent(store, reqs[0]);
      Run(Step(store, reqs[0]), reqs[1..])
  }

  /** Whatever graph a run starts from, requests spelled as stored never close a circle that was not there. */
  lemma {:induction false} RunAddsNoCycle(store: Store, reqs: seq<Request>, schemaId: string, walk: seq<string>)
    requires Consistent(store)
    requires forall req :: req in reqs ==> SpelledAsStoredIn(req)
    requires ClosedWalk(GraphOf(Run(store, reqs), schemaId), walk)
    ensures ClosedWalk(GraphOf(store, schemaId), walk)
    decreases |reqs|
  {
    if reqs != [] {
      StepKeepsConsistent(store, reqs[0]);
      RunAddsNoCycle(Step(store, reqs[0]), reqs[1..], schemaId, walk);
      StepAddsNoCycle(store, reqs[0], schemaId, walk);
    }
  }

  /** A schema that starts without relations delegates acyclically as long as agents are spelled as stored. */
  lemma RunFromEmptySchemaIsAcyclic(store: Store, reqs: seq<Request>, schemaId: string)
    requires Consistent(store)
    requires forall r :: r in store.relations ==> store.relations[r].schemaId != schemaId
    requires forall req :: req in reqs ==> SpelledAsStoredIn(req)
    ensures Acyclic(GraphOf(Run(store, reqs), schemaId))
  {
    assert GraphOf(store, schemaId) == {};
    forall walk
      ensures !ClosedWalk(GraphOf(Run(store, reqs), schemaId), walk)
    {
      NoClosedWalkWithoutEdges(walk);
      if ClosedWalk(GraphOf(Run(store, reqs), schemaId), walk) {
        RunAddsNoCycle(store, reqs, schemaId, walk);
      }
    }
  }
}
