/** What each request of the relation service is accepted for, and all that it changes, told without the service's own steps. */
module RelationEffects {
  import opened Wrappers
  import opened Digraph
  import opened Identifiers
  import opened RelationService
  import opened RelationRuns
  import opened CycleVerdicts

  /** The reference means this stored agent: by its identifier in any letter case, or by its name. */
  ghost predicate Means(store: Store, ref: string, id: string) {
    id in store.agents && if IsUuid(ref) then Lower(ref) == id else ref != "" && store.agents[id].name == ref
  }

  lemma ResolvedMeans(store: Store, ref: string)
    requires Consistent(store) && ResolveAgentRef(store.agents, ref).Ok?
    ensures var id := Lower(ResolveAgentRef(store.agents, ref).value);
            id in store.agents ==> Means(store, ref, id)
  {
    ResolvedIsUuid(store.agents, ref);
    var raw := ResolveAgentRef(store.agents, ref).value;
    if !IsUuid(ref) {
      assert raw in AgentsNamed(store.agents, ref);
      OwnFormIff(raw);
    }
  }

  lemma MeantIsResolved(store: Store, ref: string, id: string)
    requires Consistent(store) && Means(store, ref, id)
    ensures ResolveAgentRef(store.agents, ref).Ok? && Lower(ResolveAgentRef(store.agents, ref).value) == id
    ensures ResolveAgentRef(store.agents, ref).value == if IsUuid(ref) then ref else id
  {
    if !IsUuid(ref) {
      assert id in AgentsNamed(store.agents, ref);
      assert FindByName(store.agents, ref).value in AgentsNamed(store.agents, ref);
      OwnFormIff(id);
    }
  }

  /** Two references are written alike, once names are looked up, only if they are one text or one agent spelled as stored. */
  lemma WrittenAlikeIff(store: Store, source: string, target: string, a: string, b: string)
    requires Consistent(store) && Means(store, source, a) && Means(store, target, b)
    ensures ResolveAgentRef(store.agents, source).Ok? && ResolveAgentRef(store.agents, target).Ok?
    ensures ResolveAgentRef(store.agents, source) == ResolveAgentRef(store.agents, target)
       <==> source == target || (a == b && SpelledAsStored(source) && SpelledAsStored(target))
  {
    MeantIsResolved(store, source, a);
    MeantIsResolved(store, target, b);
    if IsUuid(source) {
      OwnFormIff(source);
    }
    if IsUuid(target) {
      OwnFormIff(target);
    }
  }

  /** The search for a way back finds one exactly when both references are spelled as stored and the graph leads back. */
  lemma WayBackFoundIff(store: Store, edges: set<Edge>, source: string, target: string, a: string, b: string)
    requires Consistent(store) && StoredGraph(edges) && Means(store, source, a) && Means(store, target, b)
    requires ResolveEnds(store.agents, source, target).Ok?
    ensures var edge := ResolveEnds(store.agents, source, target).value;
            Reaches(edges, edge.dst, edge.src)
            <==> SpelledAsStored(source) && SpelledAsStored(target) && Reaches(edges, b, a)
  {
    var edge := ResolveEnds(store.agents, source, target).value;
    MeantIsResolved(store, source, a);
    MeantIsResolved(store, target, b);
    ResolvedEnds(store.agents, source, target);
    if IsStored(edge.src) && IsStored(edge.dst) {
      OwnFormIff(edge.src);
      OwnFormIff(edge.dst);
    } else {
      OtherSpellingUnreached(edges, edge.dst, edge.src);
    }
  }

  ghost predicate PairStored(store: Store, schemaId: string, a: string, b: string, exceptId: string) {
    exists r :: r in store.relations && r != exceptId && store.relations[r].schemaId == schemaId
                && store.relations[r].source == a && store.relations[r].target == b
  }

  /** What is asked of the ends of a relation that is written: agents not yet joined, and no way back that the search finds. */
  ghost predicate Joinable(store: Store, searched: set<Edge>, schemaId: string, source: string, target: string,
                           a: string, b: string, exceptId: string) {
    && Means(store, source, a) && Means(store, target, b) && source != target
    && !PairStored(store, schemaId, a, b, exceptId)
    && !(SpelledAsStored(source) && SpelledAsStored(target) && Reaches(searched, b, a))
  }

  lemma JoinableResolves(store: Store, searched: set<Edge>, schemaId: string, source: string, target: string,
                         a: string, b: string, exceptId: string)
    requires Consistent(store) && StoredGraph(searched)
    requires Joinable(store, searched, schemaId, source, target, a, b, exceptId)
    ensures ResolveEnds(store.agents, source, target).Ok?
    ensures var edge := ResolveEnds(store.agents, source, target).value;
            Lower(edge.src) == a && Lower(edge.dst) == b && !Reaches(searched, edge.dst, edge.src)
  {
    ReachesSelf(searched, a);
    WrittenAlikeIff(store, source, target, a, b);
    MeantIsResolved(store, source, a);
    MeantIsResolved(store, target, b);
    WayBackFoundIff(store, searched, source, target, a, b);
  }

  lemma ResolvedIsJoinable(store: Store, searched: set<Edge>, schemaId: string, source: string, target: string, exceptId: string)
    requires Consistent(store) && StoredGraph(searched) && ResolveEnds(store.agents, source, target).Ok?
    requires var edge := ResolveEnds(store.agents, source, target).value;
             && Lower(edge.src) in store.agents && Lower(edge.dst) in store.agents
             && !Reaches(searched, edge.dst, edge.src)
             && !PairStored(store, schemaId, Lower(edge.src), Lower(edge.dst), exceptId)
    ensures var edge := ResolveEnds(store.agents, source, target).value;
            Joinable(store, searched, schemaId, source, target, Lower(edge.src), Lower(edge.dst), exceptId)
  {
    var edge := ResolveEnds(store.agents, source, target).value;
    ResolvedMeans(store, source);
    ResolvedMeans(store, target);
    WrittenAlikeIff(store, source, target, Lower(edge.src), Lower(edge.dst));
    WayBackFoundIff(store, searched, source, target, Lower(edge.src), Lower(edge.dst));
  }

  lemma NotTakenIsNotStored(store: Store, row: Relation, exceptId: string)
    ensures PairTaken(store, row, exceptId) <==> PairStored(store, row.schemaId, row.source, row.target, exceptId)
  {}

  // ----- Creating a relation

  ghost predicate Creatable(store: Store, req: Request, schemaId: string, a: string, b: string)
    requires req.CreateRelation?
  {
    && StoredForm(req.schemaRef) == Some(schemaId) && schemaId in store.schemas
    && Joinable(store, GraphOf(store, schemaId), schemaId, req.source, req.target, a, b, "")
  }

  ghost function CreateOf(store: Store, req: Request): Result<Relation, Error>
    requires Consistent(store) && req.CreateRelation?
  {
    CreateOutcome(store, req.schemaRef, req.source, req.target, req.config)
  }

  lemma CreatableIsAccepted(store: Store, req: Request, schemaId: string, a: string, b: string)
    requires Consistent(store) && req.CreateRelation? && Creatable(store, req, schemaId, a, b)
    ensures CreateOf(store, req) == Ok(Relation(schemaId, a, b, req.config))
  {
    GraphIsStored(store, schemaId, "");
    JoinableResolves(store, GraphOf(store, schemaId), schemaId, req.source, req.target, a, b, "");
  }

  lemma AcceptedIsCreatable(store: Store, req: Request)
    requires Consistent(store) && req.CreateRelation? && CreateOf(store, req).Ok?
    ensures var row := CreateOf(store, req).value; Creatable(store, req, row.schemaId, row.source, row.target)
  {
    var row := CreateOf(store, req).value;
    GraphIsStored(store, row.schemaId, "");
    NotTakenIsNotStored(store, row, "");
    ResolvedIsJoinable(store, GraphOf(store, row.schemaId), row.schemaId, req.source, req.target, "");
  }

  /** A relation is accepted exactly when its schema exists and its ends are agents that can be joined. */
  lemma CreateAcceptedIff(store: Store, req: Request)
    requires Consistent(store) && req.CreateRelation?
    ensures CreateOf(store, req).Ok? <==> exists s, a, b :: Creatable(store, req, s, a, b)
  {
    if s, a, b :| Creatable(store, req, s, a, b) {
      CreatableIsAccepted(store, req, s, a, b);
    }
    if CreateOf(store, req).Ok? {
      AcceptedIsCreatable(store, req);
    }
  }

  /** The entry agent after a relation from this agent was added: the one there was, or else this agent. */
  function EntryAfter(entry: Option<string>, source: string): Option<string> {
    if entry.Some? then entry else Some(source)
  }

  /**
   All that a request to create a relation changes: nothing if it is refused; otherwise one relation between the agents
   that are meant, and the entry agent of a schema that had none, which becomes the agent the relation starts from.
   */
  lemma CreateChanges(store: Store, req: Request, schemaId: string, a: string, b: string)
    requires Consistent(store) && req.CreateRelation? && Enabled(store, req)
    ensures Creatable(store, req, schemaId, a, b) ==>
      Step(store, req) == store.(
        relations := store.relations[req.freshId := Relation(schemaId, a, b, req.config)],
        schemas := store.schemas[schemaId := store.schemas[schemaId].(entry := EntryAfter(store.schemas[schemaId].entry, a))])
    ensures (forall s, c, d :: !Creatable(store, req, s, c, d)) ==> Step(store, req) == store
  {
    if Creatable(store, req, schemaId, a, b) {
      CreatableIsAccepted(store, req, schemaId, a, b);
      assert store.schemas[schemaId := store.schemas[schemaId]] == store.schemas;
    } else if CreateOf(store, req).Ok? {
      AcceptedIsCreatable(store, req);
    }
  }

  /**
   The first relation of a schema without an entry agent makes the agent it starts from the entry. That agent is then a
   source of the graph exactly when the relation does not lead back to it, as it never does between agents spelled as stored.
   */
  lemma FirstRelationNamesSource(store: Store, req: Request, schemaId: string, a: string, b: string)
    requires Consistent(store) && req.CreateRelation? && Enabled(store, req) && Creatable(store, req, schemaId, a, b)
    requires store.schemas[schemaId].entry.None? && forall r :: r in store.relations ==> store.relations[r].schemaId != schemaId
    ensures var after := Step(store, req);
            && schemaId in after.schemas && after.schemas[schemaId].entry == Some(a)
            && (IsSource(GraphOf(after, schemaId), a) <==> a != b)
    ensures SpelledAsStored(req.source) && SpelledAsStored(req.target) ==> a != b
  {
    CreateChanges(store, req, schemaId, a, b);
    OnlyEdge(Step(store, req), req.freshId);
    ReachesSelf(GraphOf(store, schemaId), a);
  }

  /** The exception: the first relation leads from an agent to the same agent, its identifier written in upper case. */
  lemma EntryOnCircle()
    ensures Consistent(TwoAgents()) && TwoAgents().schemas[SCHEMA].entry.None?
    ensures var after := Step(TwoAgents(), CreateRelation(SCHEMA, AGENT_A, Repeated('A'), "", FIRST));
            && SCHEMA in after.schemas && after.schemas[SCHEMA].entry == Some(AGENT_A)
            && !IsSource(GraphOf(after, SCHEMA), AGENT_A)
  {
    var req := CreateRelation(SCHEMA, AGENT_A, Repeated('A'), "", FIRST);
    ExampleIdentifiers();
    TwoAgentsConsistent();
    OtherSpellingClosesSelfLoop(TwoAgents(), SCHEMA, AGENT_A, Repeated('A'), "", FIRST);
    AcceptedIsCreatable(TwoAgents(), req);
    FirstRelationNamesSource(TwoAgents(), req, SCHEMA, AGENT_A, AGENT_A);
  }

  lemma OnlyEdge(store: Store, id: string)
    requires id in store.relations
    requires forall r :: r in store.relations && store.relations[r].schemaId == store.relations[id].schemaId ==> r == id
    ensures var row := store.relations[id];
            IsSource(GraphOf(store, row.schemaId), row.source) <==> row.source != row.target
  {
    var row := store.relations[id];
    assert GraphOf(store, row.schemaId) == {Edge(row.source, row.target)};
    assert Edge(row.source, row.target) in GraphOf(store, row.schemaId);
  }

  /** The answer names an end by its agent's name, whichever way it was referred to. */
  lemma NamesShown(store: Store, ref: string, id: string)
    requires Consistent(store) && Means(store, ref, id)
    ensures ResolveAgentRef(store.agents, ref).Ok?
    ensures store.agents[id].name != "" ==>
      NameOf(store.agents, ResolveAgentRef(store.agents, ref).value) == store.agents[id].name
  {
    MeantIsResolved(store, ref, id);
    ResolvedIsUuid(store.agents, ref);
    LocateStored(store.agents, id);
  }

  // ----- Updating a relation

  ghost predicate Updatable(store: Store, req: Request, id: string, a: string, b: string)
    requires req.UpdateRelation?
  {
    && StoredForm(req.ref) == Some(id) && id in store.relations
    && var schemaId := store.relations[id].schemaId;
       Joinable(store, SchemaEdges(store, schemaId, req.ref), schemaId, req.source, req.target, a, b, id)
  }

  ghost function UpdateOf(store: Store, req: Request): Result<Update, Error>
    requires Consistent(store) && req.UpdateRelation?
  {
    UpdateOutcome(store, req.ref, req.source, req.target, req.config)
  }

  lemma UpdatableIsAccepted(store: Store, req: Request, id: string, a: string, b: string)
    requires Consistent(store) && req.UpdateRelation? && Updatable(store, req, id, a, b)
    ensures UpdateOf(store, req) == Ok(Update(id, Relation(store.relations[id].schemaId, a, b, req.config)))
  {
    var schemaId := store.relations[id].schemaId;
    GraphIsStored(store, schemaId, req.ref);
    JoinableResolves(store, SchemaEdges(store, schemaId, req.ref), schemaId, req.source, req.target, a, b, id);
  }

  lemma AcceptedIsUpdatable(store: Store, req: Request)
    requires Consistent(store) && req.UpdateRelation? && UpdateOf(store, req).Ok?
    ensures var update := UpdateOf(store, req).value;
            Updatable(store, req, update.id, update.row.source, update.row.target)
  {
    var update := UpdateOf(store, req).value;
    var schemaId := update.row.schemaId;
    GraphIsStored(store, schemaId, req.ref);
    NotTakenIsNotStored(store, update.row, update.id);
    ResolvedIsJoinable(store, SchemaEdges(store, schemaId, req.ref), schemaId, req.source, req.target, update.id);
  }

  /**
   All that a request to update a relation changes: nothing if it is refused; otherwise the ends and the configuration of
   that relation, which stays in its schema.
   */
  lemma UpdateChanges(store: Store, req: Request, id: string, a: string, b: string)
    requires Consistent(store) && req.UpdateRelation?
    ensures Updatable(store, req, id, a, b) ==>
      Step(store, req) == store.(relations := store.relations[id := store.relations[id].(
                                   source := a, target := b, config := req.config)])
    ensures (forall r, c, d :: !Updatable(store, req, r, c, d)) ==> Step(store, req) == store
  {
    if Updatable(store, req, id, a, b) {
      UpdatableIsAccepted(store, req, id, a, b);
    } else if UpdateOf(store, req).Ok? {
      AcceptedIsUpdatable(store, req);
    }
  }

  /** A relation is updated exactly when it exists and its new ends are agents that can be joined. */
  lemma UpdateAcceptedIff(store: Store, req: Request)
    requires Consistent(store) && req.UpdateRelation?
    ensures UpdateOf(store, req).Ok? <==> exists id, a, b :: Updatable(store, req, id, a, b)
  {
    if id, a, b :| Updatable(store, req, id, a, b) {
      UpdatableIsAccepted(store, req, id, a, b);
    }
    if UpdateOf(store, req).Ok? {
      AcceptedIsUpdatable(store, req);
    }
  }

  /** Deleting a relation takes away the one that the text identifies, in whatever spelling, and nothing else. */
  lemma DeleteRelationChanges(store: Store, ref: string, id: string)
    requires Consistent(store)
    ensures StoredForm(ref) == Some(id) && id in store.relations ==>
      Step(store, DeleteRelation(ref)) == store.(relations := store.relations - {id})
    ensures (forall r :: r in store.relations ==> StoredForm(ref) != Some(r)) ==> Step(store, DeleteRelation(ref)) == store
  {
    if StoredForm(ref).Some? && StoredForm(ref).value in store.relations {
      assert Locate(store.relations, ref) == Found(StoredForm(ref).value);
    }
  }

  // ----- Deleting an agent

  ghost predicate Deletable(store: Store, name: string, id: string) {
    id in store.agents && store.agents[id].name == name && !store.agents[id].isSystem
  }

  /**
   Deleting an agent takes away that agent and exactly the relations it has an end of, and clears it as an entry agent;
   nothing else changes, and nothing at all if no agent has the name or a system agent has it.
   */
  lemma DeleteAgentChanges(store: Store, name: string, id: string)
    requires Consistent(store)
    ensures Deletable(store, name, id) ==>
      var after := Step(store, DeleteAgent(name));
      && after.agents == store.agents - {id}
      && (forall r :: r in after.relations <==>
            r in store.relations && store.relations[r].source != id && store.relations[r].target != id)
      && (forall r :: r in after.relations ==> after.relations[r] == store.relations[r])
      && after.schemas.Keys == store.schemas.Keys
      && (forall s :: s in store.schemas ==>
            after.schemas[s]
            == store.schemas[s].(entry := if store.schemas[s].entry == Some(id) then None else store.schemas[s].entry))
    ensures (forall a :: !Deletable(store, name, a)) ==> Step(store, DeleteAgent(name)) == store
  {
    if Deletable(store, name, id) {
      assert id in AgentsNamed(store.agents, name);
      assert AgentsNamed(store.agents, name) == {id};
    } else if a :| a in AgentsNamed(store.agents, name) && !store.agents[a].isSystem {
      assert Deletable(store, name, a);
    }
  }

  /** No request touches a system agent, and no run does. */
  lemma {:induction false} SystemAgentsStay(store: Store, reqs: seq<Request>, id: string)
    requires Consistent(store) && id in store.agents && store.agents[id].isSystem
    ensures id in Run(store, reqs).agents && Run(store, reqs).agents[id] == store.agents[id]
    decreases |reqs|
  {
    if reqs != [] {
      SystemAgentStays(store, reqs[0], id);
      StepKeepsConsistent(store, reqs[0]);
      SystemAgentsStay(Step(store, reqs[0]), reqs[1..], id);
    }
  }

  lemma SystemAgentStays(store: Store, req: Request, id: string)
    requires Consistent(store) && id in store.agents && store.agents[id].isSystem
    ensures id in Step(store, req).agents && Step(store, req).agents[id] == store.agents[id]
  {
    if req.DeleteAgent? {
      if a :| Deletable(store, req.name, a) {
        DeleteAgentChanges(store, req.name, a);
      } else {
        DeleteAgentChanges(store, req.name, id);
      }
    }
  }

  // ----- Updating a schema

  /** The agent starts or ends a relation of the schema, or the schema has no relations. */
  ghost predicate Belongs(store: Store, schemaId: string, agentId: string) {
    var own := set r | r in store.relations && store.relations[r].schemaId == schemaId :: store.relations[r];
    own == {} || exists row :: row in own && agentId in {row.source, row.target}
  }

  /** The entry agent that is asked for may be set: the present one, none, or an agent that belongs to the schema. */
  ghost predicate EntryAllowed(store: Store, schemaId: string, change: Option<string>, entry: Option<string>)
    requires schemaId in store.schemas
  {
    match change
    case None => entry == store.schemas[schemaId].entry
    case Some(ref) =>
      if ref == "" then entry == None
      else entry.Some? && Means(store, ref, entry.value) && Belongs(store, schemaId, entry.value)
  }

  lemma EntryAllowedIff(store: Store, schemaId: string, change: Option<string>, entry: Option<string>)
    requires Consistent(store) && schemaId in store.schemas
    ensures var found := EntryFor(store, schemaId, store.schemas[schemaId].entry, change);
            found == Ok(entry) && (entry.Some? ==> entry.value in store.agents)
            <==> EntryAllowed(store, schemaId, change, entry)
  {
    if change.Some? && change.value != "" {
      if ResolveAgentRef(store.agents, change.value).Ok? {
        ResolvedMeans(store, change.value);
        BelongsIff(store, schemaId, Lower(ResolveAgentRef(store.agents, change.value).value));
      }
      if entry.Some? && Means(store, change.value, entry.value) {
        MeantIsResolved(store, change.value, entry.value);
      }
    }
  }

  lemma BelongsIff(store: Store, schemaId: string, agentId: string)
    ensures MayBeEntry(store, schemaId, agentId) <==> Belongs(store, schemaId, agentId)
  {
    var own := set r | r in store.relations && store.relations[r].schemaId == schemaId :: store.relations[r];
    assert forall r :: r in store.relations && store.relations[r].schemaId == schemaId ==> store.relations[r] in own;
  }

  /** The row that an allowed update writes: every field that is brought replaces the present one. */
  ghost predicate SchemaWritable(store: Store, ref: string, patch: SchemaPatch, id: string, row: Schema) {
    && StoredForm(ref) == Some(id) && id in store.schemas
    && row.name == (if patch.name.Some? then patch.name.value else store.schemas[id].name)
    && row.description == (if patch.description.Some? then patch.description.value else store.schemas[id].description)
    && row.chatEnabled == (if patch.chatEnabled.Some? then patch.chatEnabled.value else store.schemas[id].chatEnabled)
    && EntryAllowed(store, id, patch.entry, row.entry)
    && forall s :: s in store.schemas && s != id ==> store.schemas[s].name != row.name
  }

  lemma WritableIsOutcome(store: Store, ref: string, patch: SchemaPatch, id: string, row: Schema)
    requires Consistent(store)
    ensures SchemaOutcome(store, ref, patch) == Ok(SchemaUpdate(id, row)) <==> SchemaWritable(store, ref, patch, id, row)
  {
    if id in store.schemas {
      EntryAllowedIff(store, id, patch.entry, row.entry);
    }
  }

  /** All that a request to update a schema changes: nothing if it is refused, otherwise that schema's row. */
  lemma SchemaChanges(store: Store, ref: string, patch: SchemaPatch, id: string, row: Schema)
    requires Consistent(store)
    ensures SchemaWritable(store, ref, patch, id, row) ==>
      Step(store, UpdateSchema(ref, patch)) == store.(schemas := store.schemas[id := row])
    ensures (forall s, other :: !SchemaWritable(store, ref, patch, s, other)) ==> Step(store, UpdateSchema(ref, patch)) == store
  {
    WritableIsOutcome(store, ref, patch, id, row);
    var outcome := SchemaOutcome(store, ref, patch);
    if outcome.Ok? {
      WritableIsOutcome(store, ref, patch, outcome.value.id, outcome.value.schema);
    }
  }
}
