/**
 The delegation-relation service: agents, schemas and relations as stored rows, the cycle check made
 before a relation is written, and the requests that change relations.
 */
module RelationService {
  import opened Wrappers
  import opened Digraph
  import opened Adjacency
  import opened Identifiers

  // ----- Rows

  datatype Agent = Agent(name: string, isSystem: bool)

  datatype Schema = Schema(name: string, description: string, entry: Option<string>, chatEnabled: bool)

  datatype Relation = Relation(schemaId: string, source: string, target: string, config: string)

  /** The tables, each keyed by its primary key. */
  datatype Store = Store(agents: map<string, Agent>, schemas: map<string, Schema>, relations: map<string, Relation>)

  datatype Error =
    | NotFound
    | InvalidInput
    | CircularDelegation
    | AlreadyExists
    | Forbidden
    | StorageFailure

  datatype Info = Info(id: string, schemaId: string, sourceName: string, targetName: string, config: string)

  predicate UniqueNames(agents: map<string, Agent>) {
    forall a, b :: a in agents && b in agents && agents[a].name == agents[b].name ==> a == b
  }

  ghost predicate StoredKeys(store: Store) {
    && (forall a :: a in store.agents ==> IsStored(a))
    && (forall s :: s in store.schemas ==> IsStored(s))
    && (forall r :: r in store.relations ==> IsStored(r))
  }

  ghost predicate UniqueSchemaNames(schemas: map<string, Schema>) {
    forall s, t :: s in schemas && t in schemas && schemas[s].name == schemas[t].name ==> s == t
  }

  ghost predicate UniquePairs(relations: map<string, Relation>) {
    forall r, q :: r in relations && q in relations && SamePair(relations[r], relations[q]) ==> r == q
  }

  ghost predicate EntriesResolve(store: Store) {
    forall s :: s in store.schemas && store.schemas[s].entry.Some? ==> store.schemas[s].entry.value in store.agents
  }

  ghost predicate RelationsResolve(store: Store) {
    forall r :: r in store.relations ==>
      && store.relations[r].schemaId in store.schemas
      && store.relations[r].source in store.agents
      && store.relations[r].target in store.agents
  }

  /** What the database guarantees: identifiers in stored form, unique names and pairs, and references that resolve. */
  ghost predicate Consistent(store: Store) {
    && StoredKeys(store)
    && UniqueNames(store.agents) && UniqueSchemaNames(store.schemas) && UniquePairs(store.relations)
    && EntriesResolve(store) && RelationsResolve(store)
  }

  predicate SamePair(a: Relation, b: Relation) {
    a.schemaId == b.schemaId && a.source == b.source && a.target == b.target
  }

  /** The delegation graph of one schema, leaving out the row with the given identifier, compared as text. */
  ghost function SchemaEdges(store: Store, schemaId: string, excludeId: string): set<Edge> {
    set r | r in store.relations && store.relations[r].schemaId == schemaId && !(excludeId != "" && r == excludeId)
      :: Edge(store.relations[r].source, store.relations[r].target)
  }

  ghost function GraphOf(store: Store, schemaId: string): set<Edge> {
    SchemaEdges(store, schemaId, "")
  }

  // ----- References

  function AgentsNamed(agents: map<string, Agent>, name: string): set<string> {
    set a | a in agents && agents[a].name == name
  }

  function TheOne(ids: set<string>): (id: string)
    requires ids != {} && forall a, b :: a in ids && b in ids ==> a == b
    ensures ids == {id}
  {
    var id :| id in ids;
    id
  }

  function FindByName(agents: map<string, Agent>, name: string): Option<string>
    requires UniqueNames(agents)
  {
    var ids := AgentsNamed(agents, name);
    if ids == {} then None else Some(TheOne(ids))
  }

  /** A reference in standard form is taken as it is written; any other text is an agent's name. */
  function ResolveAgentRef(agents: map<string, Agent>, ref: string): Result<string, Error>
    requires UniqueNames(agents)
  {
    if ref == "" then Err(InvalidInput)
    else if IsUuid(ref) then Ok(ref)
    else match FindByName(agents, ref)
      case None => Err(InvalidInput)
      case Some(id) => Ok(id)
  }

  lemma ResolvedIsUuid(agents: map<string, Agent>, ref: string)
    requires UniqueNames(agents) && forall a :: a in agents ==> IsStored(a)
    requires ResolveAgentRef(agents, ref).Ok?
    ensures var id := ResolveAgentRef(agents, ref).value;
            IsUuid(id) && (IsStored(id) <==> SpelledAsStored(ref))
  {
    if !IsUuid(ref) {
      assert FindByName(agents, ref).value in AgentsNamed(agents, ref);
    }
  }

  /** A name, or an identifier in the letter case in which it is stored. */
  predicate SpelledAsStored(ref: string) {
    IsUuid(ref) ==> IsStored(ref)
  }

  function NameOf(agents: map<string, Agent>, id: string): string {
    match Locate(agents, id)
    case Found(a) => if agents[a].name != "" then agents[a].name else id
    case _ => id
  }

  // ----- Reachability

  /** Queues the neighbours not seen yet, unless the destination is among them. */
  method EnqueueUnseen(nexts: seq<string>, dst: string, visited: set<string>, queue: seq<string>)
    returns (found: bool, visited': set<string>, queue': seq<string>)
    ensures found <==> dst in nexts
    ensures !found ==> visited' == visited + Members(nexts)
    ensures !found ==> Members(queue') == Members(queue) + (Members(nexts) - visited)
    ensures visited' == visited ==> queue' == queue
  {
    found, visited', queue' := false, visited, queue;
    for i := 0 to |nexts|
      invariant dst !in nexts[..i]
      invariant visited' == visited + Members(nexts[..i])
      invariant Members(queue') == Members(queue) + (Members(nexts[..i]) - visited)
      invariant visited' == visited ==> queue' == queue
    {
      var next := nexts[i];
      MembersSnoc(nexts[..i], next);
      assert nexts[..i] + [next] == nexts[..i + 1];
      if next == dst {
        found := true;
        return;
      }
      if next !in visited' {
        MembersSnoc(queue', next);
        visited' := visited' + {next};
        queue' := queue' + [next];
      }
    }
    assert nexts[..|nexts|] == nexts;
  }

  /** Everything visited is reached and either expanded or queued, and what was expanded leads nowhere else. */
  ghost predicate Searching(adj: map<string, seq<string>>, space: set<string>, visited: set<string>,
                            expanded: set<string>, queue: seq<string>) {
    visited <= space && visited == expanded + Members(queue) && ClosedUnder(adj, expanded, visited)
  }

  lemma Expand(adj: map<string, seq<string>>, space: set<string>, visited: set<string>, expanded: set<string>,
               queue: seq<string>, visited': set<string>, queue': seq<string>)
    requires |queue| > 0 && Searching(adj, space, visited, expanded, queue) && ClosedUnder(adj, space, space)
    requires var nexts := Members(Neighbours(adj, queue[0]));
             && visited' == visited + nexts
             && Members(queue') == Members(queue[1..]) + (nexts - visited)
    ensures queue[0] in space && Searching(adj, space, visited', expanded + {queue[0]}, queue')
  {
    MembersTail(queue);
  }

  /** Breadth-first search that stops as soon as the destination is seen. */
  method Reachable(adj: map<string, seq<string>>, src: string, dst: string) returns (found: bool)
    ensures found <==> Reaches(AdjacencyEdges(adj), src, dst)
  {
    ReachesSelf(AdjacencyEdges(adj), src);
    if src == dst {
      return true;
    }
    var visited := {src};
    var queue := [src];
    ghost var space := SearchSpace(adj, src, dst);
    ghost var expanded := {};
    while |queue| > 0
      invariant src in visited && dst !in visited
      invariant Searching(adj, space, visited, expanded, queue)
      decreases space - visited, |queue|
    {
      var cur := queue[0];
      var hit, visited', queue' := EnqueueUnseen(Neighbours(adj, cur), dst, visited, queue[1..]);
      if hit {
        MembersTail(queue);
        assert dst in Members(Neighbours(adj, cur));
        return true;
      }
      Expand(adj, space, visited, expanded, queue, visited', queue');
      expanded, visited, queue := expanded + {cur}, visited', queue';
    }
    ClosedSetBoundsReach(adj, visited, src, dst);
    return false;
  }

  // ----- From rows to an adjacency map

  /** Rows as a listing of one schema returns them, in whatever order. */
  ghost predicate IsListing(rows: seq<(string, Relation)>, relations: map<string, Relation>, schemaId: string) {
    && (forall row :: row in rows ==> row.0 in relations && relations[row.0] == row.1 && row.1.schemaId == schemaId)
    && (forall r :: r in relations && relations[r].schemaId == schemaId ==> (r, relations[r]) in rows)
  }

  predicate Skipped(id: string, excludeId: string) {
    excludeId != "" && id == excludeId
  }

  ghost function RowEdges(rows: seq<(string, Relation)>, excludeId: string): set<Edge> {
    set row | row in rows && !Skipped(row.0, excludeId) :: Edge(row.1.source, row.1.target)
  }

  lemma RowEdgesSnoc(rows: seq<(string, Relation)>, row: (string, Relation), excludeId: string)
    ensures RowEdges(rows + [row], excludeId)
         == RowEdges(rows, excludeId) + if Skipped(row.0, excludeId) then {} else {Edge(row.1.source, row.1.target)}
  {}

  method BuildAdjacency(rows: seq<(string, Relation)>, excludeId: string) returns (adj: map<string, seq<string>>)
    ensures AdjacencyEdges(adj) == RowEdges(rows, excludeId)
  {
    adj := map[];
    for i := 0 to |rows|
      invariant AdjacencyEdges(adj) == RowEdges(rows[..i], excludeId)
    {
      var row := rows[i];
      RowEdgesSnoc(rows[..i], row, excludeId);
      assert rows[..i] + [row] == rows[..i + 1];
      if !Skipped(row.0, excludeId) {
        AdjacencyAppend(adj, row.1.source, row.1.target);
        adj := adj[row.1.source := Neighbours(adj, row.1.source) + [row.1.target]];
      }
    }
    assert rows[..|rows|] == rows;
  }

  // ----- What each request does to the tables

  predicate EndpointsKnown(store: Store, row: Relation) {
    row.source in store.agents && row.target in store.agents
  }

  predicate PairTaken(store: Store, row: Relation, exceptId: string) {
    exists r :: r in store.relations && r != exceptId && SamePair(store.relations[r], row)
  }

  /** Both ends of a requested edge, resolved and not written alike. */
  function ResolveEnds(agents: map<string, Agent>, source: string, target: string): Result<Edge, Error>
    requires UniqueNames(agents)
  {
    match ResolveAgentRef(agents, source)
    case Err(e) => Err(e)
    case Ok(s) =>
      match ResolveAgentRef(agents, target)
      case Err(e) => Err(e)
      case Ok(t) => if s == t then Err(InvalidInput) else Ok(Edge(s, t))
  }

  ghost predicate UuidEnds(edge: Edge) {
    IsUuid(edge.src) && IsUuid(edge.dst)
  }

  lemma ResolvedEnds(agents: map<string, Agent>, source: string, target: string)
    requires UniqueNames(agents) && forall a :: a in agents ==> IsStored(a)
    requires ResolveEnds(agents, source, target).Ok?
    ensures var edge := ResolveEnds(agents, source, target).value;
            && UuidEnds(edge) && edge.src != edge.dst
            && (IsStored(edge.src) <==> SpelledAsStored(source))
            && (IsStored(edge.dst) <==> SpelledAsStored(target))
  {
    ResolvedIsUuid(agents, source);
    ResolvedIsUuid(agents, target);
  }

  /** The row as the database writes it. */
  function RowFor(schemaId: string, edge: Edge, config: string): Relation {
    Relation(schemaId, Lower(edge.src), Lower(edge.dst), config)
  }

  /** The search compares identifiers as text; everything the database does compares their stored forms. */
  ghost function CreateOutcome(store: Store, schemaRef: string, source: string, target: string, config: string)
    : Result<Relation, Error>
    requires Consistent(store)
  {
    match Locate(store.schemas, schemaRef)
    case Missing => Err(NotFound)
    case Malformed => Err(NotFound)
    case Found(schemaId) =>
      match ResolveEnds(store.agents, source, target)
      case Err(e) => Err(e)
      case Ok(edge) =>
        var row := RowFor(schemaId, edge, config);
        if Reaches(GraphOf(store, schemaId), edge.dst, edge.src) then Err(CircularDelegation)
        else if PairTaken(store, row, "") then Err(AlreadyExists)
        else if !EndpointsKnown(store, row) then Err(NotFound)
        else Ok(row)
  }

  /** The first relation of a schema without an entry agent also names its source the entry agent. */
  function WithNewRelation(store: Store, id: string, row: Relation): Store
    requires row.schemaId in store.schemas
  {
    var schema := store.schemas[row.schemaId];
    store.(relations := store.relations[id := row],
           schemas := if schema.entry.None? then store.schemas[row.schemaId := schema.(entry := Some(row.source))]
                      else store.schemas)
  }

  /** The row that an update writes, and the identifier it is stored under. */
  datatype Update = Update(id: string, row: Relation)

  /** The row being replaced is left out of the search only if its identifier is written as it is stored. */
  ghost function UpdateOutcome(store: Store, ref: string, source: string, target: string, config: string)
    : Result<Update, Error>
    requires Consistent(store)
  {
    match ResolveEnds(store.agents, source, target)
    case Err(e) => Err(e)
    case Ok(edge) =>
      match Locate(store.relations, ref)
      case Missing => Err(NotFound)
      case Malformed => Err(StorageFailure)
      case Found(id) =>
        var schemaId := store.relations[id].schemaId;
        var row := RowFor(schemaId, edge, config);
        if Reaches(SchemaEdges(store, schemaId, ref), edge.dst, edge.src) then Err(CircularDelegation)
        else if !EndpointsKnown(store, row) || PairTaken(store, row, id) then Err(StorageFailure)
        else Ok(Update(id, row))
  }

  function WithRow(store: Store, update: Update): Store {
    store.(relations := store.relations[update.id := update.row])
  }

  function EntriesWithout(schemas: map<string, Schema>, gone: set<string>): map<string, Schema> {
    map s | s in schemas :: ClearEntry(schemas[s], gone)
  }

  function RelationsWithout(relations: map<string, Relation>, gone: set<string>): map<string, Relation> {
    map r | r in relations && relations[r].source !in gone && relations[r].target !in gone :: relations[r]
  }

  function WithoutAgents(store: Store, gone: set<string>): Store {
    Store(store.agents - gone, EntriesWithout(store.schemas, gone), RelationsWithout(store.relations, gone))
  }

  lemma WithoutNobody(store: Store)
    ensures WithoutAgents(store, {}) == store
  {
    assert EntriesWithout(store.schemas, {}) == store.schemas;
    assert RelationsWithout(store.relations, {}) == store.relations;
  }

  function ClearEntry(schema: Schema, gone: set<string>): Schema {
    if schema.entry.Some? && schema.entry.value in gone then schema.(entry := None) else schema
  }

  function DeleteAgentOutcome(store: Store, name: string): Result<Store, Error>
    requires Consistent(store)
  {
    var ids := AgentsNamed(store.agents, name);
    if exists a :: a in ids && store.agents[a].isSystem then Err(Forbidden)
    else if ids == {} then Err(NotFound)
    else Ok(WithoutAgents(store, ids))
  }

  /** Members of a schema are the agents its relations mention; a schema without relations admits any agent. */
  predicate MayBeEntry(store: Store, schemaId: string, agentId: string) {
    || (forall r :: r in store.relations ==> store.relations[r].schemaId != schemaId)
    || (exists r :: r in store.relations && store.relations[r].schemaId == schemaId
                    && (store.relations[r].source == agentId || store.relations[r].target == agentId))
  }

  /** The fields a schema update brings; an empty entry reference clears the entry agent. */
  datatype SchemaPatch = SchemaPatch(name: Option<string>, description: Option<string>, entry: Option<string>,
                                     chatEnabled: Option<bool>)

  function EntryFor(store: Store, schemaId: string, present: Option<string>, change: Option<string>)
    : Result<Option<string>, Error>
    requires UniqueNames(store.agents)
  {
    if change.None? then Ok(present)
    else if change.value == "" then Ok(None)
    else match ResolveAgentRef(store.agents, change.value)
      case Err(e) => Err(e)
      case Ok(id) => if MayBeEntry(store, schemaId, Lower(id)) then Ok(Some(Lower(id))) else Err(InvalidInput)
  }

  predicate NameTaken(schemas: map<string, Schema>, name: string, exceptId: string) {
    exists s :: s in schemas && s != exceptId && schemas[s].name == name
  }

  datatype SchemaUpdate = SchemaUpdate(id: string, schema: Schema)

  function SchemaOutcome(store: Store, ref: string, patch: SchemaPatch): Result<SchemaUpdate, Error>
    requires Consistent(store)
  {
    match Locate(store.schemas, ref)
    case Missing => Err(NotFound)
    case Malformed => Err(StorageFailure)
    case Found(id) =>
      var present := store.schemas[id];
      match EntryFor(store, id, present.entry, patch.entry)
      case Err(e) => Err(e)
      case Ok(entry) =>
        var schema := Schema(Or(patch.name, present.name), Or(patch.description, present.description), entry,
                             Or(patch.chatEnabled, present.chatEnabled));
        if NameTaken(store.schemas, schema.name, id) then Err(AlreadyExists)
        else if entry.Some? && entry.value !in store.agents then Err(StorageFailure)
        else Ok(SchemaUpdate(id, schema))
  }

  function WithSchema(store: Store, update: SchemaUpdate): Store {
    store.(schemas := store.schemas[update.id := update.schema])
  }

  // ----- The service

  class Service {
    var agents: map<string, Agent>
    var schemas: map<string, Schema>
    var relations: map<string, Relation>

    ghost function Contents(): Store
      reads this
    {
      Store(agents, schemas, relations)
    }

    constructor (store: Store)
      ensures Contents() == store
    {
      agents, schemas, relations := store.agents, store.schemas, store.relations;
    }

    /** The repository's listing query. */
    method List(schemaId: string) returns (rows: seq<(string, Relation)>)
      ensures IsListing(rows, relations, schemaId)
    {
      rows := [];
      var left := relations.Keys;
      while left != {}
        invariant left <= relations.Keys
        invariant forall row :: row in rows ==>
          row.0 in relations && relations[row.0] == row.1 && row.1.schemaId == schemaId
        invariant forall r :: r in relations && r !in left && relations[r].schemaId == schemaId ==> (r, relations[r]) in rows
      {
        var r :| r in left;
        if relations[r].schemaId == schemaId {
          rows := rows + [(r, relations[r])];
        }
        left := left - {r};
      }
    }

    /** The search over the stored rows decides reachability in the schema's graph, for ends given as text. */
    method CheckNoCycleExcluding(schemaId: string, source: string, target: string, excludeId: string)
      returns (r: Result<(), Error>)
      ensures r == if source == target then Err(InvalidInput)
                   else if Reaches(SchemaEdges(Contents(), schemaId, excludeId), target, source)
                        then Err(CircularDelegation)
                   else Ok(())
    {
      if source == target {
        return Err(InvalidInput);
      }
      var rows := List(schemaId);
      var adj := BuildAdjacency(rows, excludeId);
      assert RowEdges(rows, excludeId) == SchemaEdges(Contents(), schemaId, excludeId);
      var closes := Reachable(adj, target, source);
      if closes {
        return Err(CircularDelegation);
      }
      return Ok(());
    }

    method CreateAgentRelation(schemaRef: string, source: string, target: string, config: string, freshId: string)
      returns (r: Result<Info, Error>)
      requires Consistent(Contents())
      requires IsStored(freshId) && freshId !in relations
      modifies this
      ensures var outcome := old(CreateOutcome(Contents(), schemaRef, source, target, config));
              match outcome
              case Err(e) => r == Err(e) && Contents() == old(Contents())
              case Ok(row) =>
                var edge := ResolveEnds(old(agents), source, target).value;
                && Contents() == WithNewRelation(old(Contents()), freshId, row)
                && r == Ok(Info(freshId, schemaRef, NameOf(agents, edge.src), NameOf(agents, edge.dst), config))
    {
      var found := Locate(schemas, schemaRef);
      if !found.Found? {
        return Err(NotFound);
      }
      var existing := schemas[found.id];
      var resolved := ResolveEnds(agents, source, target);
      if resolved.Err? {
        return Err(resolved.error);
      }
      var edge := resolved.value;
      var check := CheckNoCycleExcluding(found.id, edge.src, edge.dst, "");
      if check.Err? {
        return Err(check.error);
      }
      var row := RowFor(found.id, edge, config);
      if PairTaken(Store(agents, schemas, relations), row, "") {
        return Err(AlreadyExists);
      }
      if !EndpointsKnown(Store(agents, schemas, relations), row) {
        return Err(NotFound);
      }
      relations := relations[freshId := row];
      if existing.entry.None? && edge.src != "" {
        schemas := schemas[found.id := existing.(entry := Some(row.source))];
      }
      return Ok(Info(freshId, schemaRef, NameOf(agents, edge.src), NameOf(agents, edge.dst), config));
    }

    method UpdateAgentRelation(ref: string, source: string, target: string, config: string)
      returns (r: Result<(), Error>)
      requires Consistent(Contents())
      modifies this
      ensures var outcome := old(UpdateOutcome(Contents(), ref, source, target, config));
              match outcome
              case Err(e) => r == Err(e) && Contents() == old(Contents())
              case Ok(update) => r == Ok(()) && Contents() == WithRow(old(Contents()), update)
    {
      var resolved := ResolveEnds(agents, source, target);
      if resolved.Err? {
        return Err(resolved.error);
      }
      var edge := resolved.value;
      var found := Locate(relations, ref);
      if !found.Found? {
        return Err(if found.Missing? then NotFound else StorageFailure);
      }
      var schemaId := relations[found.id].schemaId;
      var check := CheckNoCycleExcluding(schemaId, edge.src, edge.dst, ref);
      if check.Err? {
        return Err(check.error);
      }
      var row := RowFor(schemaId, edge, config);
      var store := Store(agents, schemas, relations);
      if !EndpointsKnown(store, row) || PairTaken(store, row, found.id) {
        return Err(StorageFailure);
      }
      relations := relations[found.id := row];
      return Ok(());
    }

    method DeleteAgentRelation(ref: string) returns (r: Result<(), Error>)
      modifies this
      ensures match Locate(old(relations), ref)
              case Found(id) => r == Ok(()) && Contents() == old(Contents()).(relations := old(relations) - {id})
              case Missing => r == Err(NotFound) && Contents() == old(Contents())
              case Malformed => r == Err(StorageFailure) && Contents() == old(Contents())
    {
      var found := Locate(relations, ref);
      if !found.Found? {
        return Err(if found.Missing? then NotFound else StorageFailure);
      }
      relations := relations - {found.id};
      return Ok(());
    }

    /** Clears entry references, drops the agent's relations, then drops the agent. */
    method DeleteAgent(name: string) returns (r: Result<(), Error>)
      requires Consistent(Contents())
      modifies this
      ensures var outcome := old(DeleteAgentOutcome(Contents(), name));
              match outcome
              case Err(e) => r == Err(e) && Contents() == old(Contents())
              case Ok(after) => r == Ok(()) && Contents() == after
    {
      var ids := AgentsNamed(agents, name);
      if exists a :: a in ids && agents[a].isSystem {
        return Err(Forbidden);
      }
      ghost var before := Contents();
      schemas := EntriesWithout(schemas, ids);
      relations := RelationsWithout(relations, ids);
      if ids == {} {
        WithoutNobody(before);
        return Err(NotFound);
      }
      agents := agents - ids;
      return Ok(());
    }

    /** The entry agent a schema update asks for: resolved, and a member of the schema if it has relations. */
    method ResolveEntry(schemaId: string, present: Option<string>, change: Option<string>)
      returns (r: Result<Option<string>, Error>)
      requires UniqueNames(agents)
      ensures r == EntryFor(Contents(), schemaId, present, change)
    {
      if change.None? {
        return Ok(present);
      }
      if change.value == "" {
        return Ok(None);
      }
      var resolved := ResolveAgentRef(agents, change.value);
      if resolved.Err? {
        return Err(resolved.error);
      }
      if !MayBeEntry(Store(agents, schemas, relations), schemaId, Lower(resolved.value)) {
        return Err(InvalidInput);
      }
      return Ok(Some(Lower(resolved.value)));
    }

    method UpdateSchema(ref: string, patch: SchemaPatch) returns (r: Result<(), Error>)
      requires Consistent(Contents())
      modifies this
      ensures var outcome := old(SchemaOutcome(Contents(), ref, patch));
              match outcome
              case Err(e) => r == Err(e) && Contents() == old(Contents())
              case Ok(update) => r == Ok(()) && Contents() == WithSchema(old(Contents()), update)
    {
      var found := Locate(schemas, ref);
      if !found.Found? {
        return Err(if found.Missing? then NotFound else StorageFailure);
      }
      var schema := schemas[found.id];
      if patch.name.Some? {
        schema := schema.(name := patch.name.value);
      }
      if patch.description.Some? {
        schema := schema.(description := patch.description.value);
      }
      var entry := ResolveEntry(found.id, schema.entry, patch.entry);
      if entry.Err? {
        return Err(entry.error);
      }
      schema := schema.(entry := entry.value);
      if patch.chatEnabled.Some? {
        schema := schema.(chatEnabled := patch.chatEnabled.value);
      }
      if NameTaken(schemas, schema.name, found.id) {
        return Err(AlreadyExists);
      }
      if schema.entry.Some? && schema.entry.value !in agents {
        return Err(StorageFailure);
      }
      schemas := schemas[found.id := schema];
      return Ok(());
    }
  }
}
