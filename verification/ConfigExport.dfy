/** Exporting the configuration, and exporting followed by importing. */
module ConfigExport {
  import opened Wrappers
  import opened Digraph
  import opened Upserts
  import opened ConfigStore
  import opened ConfigImport
  import opened ImportLaws

  // ----- What an export lists

  function OrEmpty<T>(s: Option<seq<T>>): seq<T> {
    if s.Some? then s.value else []
  }

  /** API keys are not exported. */
  function ExportModel(name: string, row: ModelRow): ModelItem {
    ModelItem(name, row.typ, row.baseUrl, row.modelName)
  }

  /** Environment values are exported masked. */
  function ExportServer(name: string, row: ServerRow): ServerItem {
    ServerItem(name, row.typ, row.command, OrEmpty(row.args), row.url,
               if row.env.Some? then MaskedEnv(row.env.value) else map[], OrEmpty(row.forwardHeaders))
  }

  function ExportAgent(name: string, row: AgentRow, modelName: string, tools: seq<string>, servers: seq<string>): AgentItem {
    AgentItem(name, row.systemPrompt, modelName, row.lifecycle, row.toolExecution, row.maxSteps, row.maxContextSize,
              row.maxTurnDuration, row.temperature, row.topP, row.maxTokens, OrEmpty(row.stopSequences),
              OrEmpty(row.confirmBefore), tools, servers)
  }

  /** All tools of an agent by ascending sort order; ties come in any order. */
  ghost predicate IsToolOrder(tools: map<ToolKey, ToolRow>, keys: seq<ToolKey>) {
    && Distinct(keys)
    && (forall k :: k in keys <==> k in tools)
    && forall i, j :: 0 <= i < j < |keys| ==> tools[keys[i]].order <= tools[keys[j]].order
  }

  function KeyNames(keys: seq<ToolKey>): (r: seq<string>)
    ensures |r| == |keys| && forall i :: 0 <= i < |keys| ==> r[i] == keys[i].name
  {
    seq(|keys|, i requires 0 <= i < |keys| => keys[i].name)
  }

  ghost predicate NamesModel(db: Db, modelId: Option<nat>, modelName: string) {
    if modelId.None? then modelName == ""
    else modelName in db.models.rows && db.models.rows[modelName].id == modelId.value
  }

  ghost predicate ListsTools(db: Db, agentId: nat, names: seq<string>) {
    exists keys :: IsToolOrder(ToolsOf(db.tools, agentId), keys) && names == KeyNames(keys)
  }

  ghost predicate ListsServers(db: Db, agentId: nat, names: seq<string>) {
    Distinct(names)
    && forall n :: n in names <==> n in db.servers.rows && Link(agentId, db.servers.rows[n].id) in db.links
  }

  ghost predicate IsAgentExport(db: Db, item: AgentItem) {
    && item.name in db.agents.rows
    && var row := db.agents.rows[item.name];
       && item == ExportAgent(item.name, row, item.modelName, item.tools, item.servers)
       && NamesModel(db, row.modelId, item.modelName)
       && ListsTools(db, row.id, item.tools)
       && ListsServers(db, row.id, item.servers)
  }

  ghost predicate ModelsExported(db: Db, items: seq<ModelItem>) {
    && (forall i, j :: 0 <= i < j < |items| ==> items[i].name != items[j].name)
    && (forall item :: item in items ==>
          item.name in db.models.rows && item == ExportModel(item.name, db.models.rows[item.name]))
    && (forall n :: n in db.models.rows ==> exists item :: item in items && item.name == n)
  }

  ghost predicate ServersExported(db: Db, items: seq<ServerItem>) {
    && (forall i, j :: 0 <= i < j < |items| ==> items[i].name != items[j].name)
    && (forall item :: item in items ==>
          item.name in db.servers.rows && item == ExportServer(item.name, db.servers.rows[item.name]))
    && (forall n :: n in db.servers.rows ==> exists item :: item in items && item.name == n)
  }

  ghost predicate AgentsExported(db: Db, items: seq<AgentItem>) {
    && (forall i, j :: 0 <= i < j < |items| ==> items[i].name != items[j].name)
    && (forall item :: item in items ==> IsAgentExport(db, item))
    && (forall n :: n in db.agents.rows ==> exists item :: item in items && item.name == n)
  }

  /** Every row appears once, in whatever order the tables are read. */
  ghost predicate IsExport(db: Db, cfg: Config) {
    ModelsExported(db, cfg.models) && ServersExported(db, cfg.servers) && AgentsExported(db, cfg.agents)
  }

  /** Every name occurs among the items, and none twice. */
  ghost predicate ListsAll(names: seq<string>, rows: set<string>) {
    Distinct(names) && forall n :: n in rows <==> n in names
  }

  function NamesOf<T>(nameOf: T -> string, items: seq<T>): (r: seq<string>)
    ensures |r| == |items| && forall i :: 0 <= i < |items| ==> r[i] == nameOf(items[i])
  {
    seq(|items|, i requires 0 <= i < |items| => nameOf(items[i]))
  }

  lemma AllListed<T>(nameOf: T -> string, items: seq<T>, rows: set<string>)
    requires forall i, j :: 0 <= i < j < |items| ==> nameOf(items[i]) != nameOf(items[j])
    requires forall item :: item in items ==> nameOf(item) in rows
    requires forall n :: n in rows ==> exists item :: item in items && nameOf(item) == n
    ensures ListsAll(NamesOf(nameOf, items), rows) && |items| == |rows|
  {
    var names := NamesOf(nameOf, items);
    forall n
      ensures n in rows <==> n in names
    {
      if n in rows {
        var item :| item in items && nameOf(item) == n;
        var i :| 0 <= i < |items| && items[i] == item;
        assert names[i] == n;
      }
    }
    DistinctCount(names, rows);
  }

  function ModelItemName(item: ModelItem): string { item.name }

  function ServerItemName(item: ServerItem): string { item.name }

  function AgentItemName(item: AgentItem): string { item.name }

  /** Nothing is left out of an export, and nothing is listed twice. */
  lemma ExportIsComplete(db: Db, cfg: Config)
    requires IsExport(db, cfg)
    ensures ListsAll(NamesOf(ModelItemName, cfg.models), db.models.rows.Keys) && |cfg.models| == |db.models.rows|
    ensures ListsAll(NamesOf(ServerItemName, cfg.servers), db.servers.rows.Keys) && |cfg.servers| == |db.servers.rows|
    ensures ListsAll(NamesOf(AgentItemName, cfg.agents), db.agents.rows.Keys) && |cfg.agents| == |db.agents.rows|
  {
    AllModelsListed(db, cfg.models);
    AllServersListed(db, cfg.servers);
    AllAgentsListed(db, cfg.agents);
  }

  lemma AllModelsListed(db: Db, items: seq<ModelItem>)
    requires ModelsExported(db, items)
    ensures ListsAll(NamesOf(ModelItemName, items), db.models.rows.Keys) && |items| == |db.models.rows.Keys|
  {
    forall n | n in db.models.rows
      ensures exists item :: item in items && ModelItemName(item) == n
    {
      var item :| item in items && item.name == n;
      assert ModelItemName(item) == n;
    }
    AllListed(ModelItemName, items, db.models.rows.Keys);
  }

  lemma AllServersListed(db: Db, items: seq<ServerItem>)
    requires ServersExported(db, items)
    ensures ListsAll(NamesOf(ServerItemName, items), db.servers.rows.Keys) && |items| == |db.servers.rows.Keys|
  {
    forall n | n in db.servers.rows
      ensures exists item :: item in items && ServerItemName(item) == n
    {
      var item :| item in items && item.name == n;
      assert ServerItemName(item) == n;
    }
    AllListed(ServerItemName, items, db.servers.rows.Keys);
  }

  lemma AllAgentsListed(db: Db, items: seq<AgentItem>)
    requires AgentsExported(db, items)
    ensures ListsAll(NamesOf(AgentItemName, items), db.agents.rows.Keys) && |items| == |db.agents.rows.Keys|
  {
    forall n | n in db.agents.rows
      ensures exists item :: item in items && AgentItemName(item) == n
    {
      var item :| item in items && item.name == n;
      assert AgentItemName(item) == n;
    }
    forall item | item in items
      ensures AgentItemName(item) in db.agents.rows
    {
      assert IsAgentExport(db, item);
    }
    AllListed(AgentItemName, items, db.agents.rows.Keys);
  }

  // ----- Which databases survive the round trip

  ghost predicate CanonicalAgent(db: Db, row: AgentRow) {
    && row.lifecycle != "" && row.toolExecution != ""
    && row.maxSteps != 0 && row.maxContextSize != 0 && row.maxTurnDuration != 0
    && row.stopSequences != Some([]) && row.confirmBefore != Some([])
    && (row.modelId.Some? ==> forall n :: NamesModel(db, row.modelId, n) ==> n != "")
  }

  /** Builtin tools without configuration, numbered 0, 1, 2 and so on. */
  ghost predicate CanonicalTools(tools: map<ToolKey, ToolRow>) {
    && (forall k :: k in tools ==> k.kind == Builtin && tools[k].config == None && 0 <= tools[k].order < |tools|)
    && (forall k, l :: k in tools && l in tools && tools[k].order == tools[l].order ==> k == l)
  }

  ghost predicate AgentsCanonical(db: Db) {
    forall n :: n in db.agents.rows ==> CanonicalAgent(db, db.agents.rows[n])
  }

  ghost predicate ToolsCanonical(db: Db) {
    forall n :: n in db.agents.rows ==> CanonicalTools(ToolsOf(db.tools, db.agents.rows[n].id))
  }

  ghost predicate Canonical(db: Db) {
    AgentsCanonical(db) && ToolsCanonical(db)
  }

  // ----- Models and servers always survive

  lemma ModelsRoundTrip(db: Db, cfg: Config)
    requires IsExport(db, cfg)
    ensures WithModels(db, cfg.models) == db
  {
    forall e | e in ModelEntries(cfg.models)
      ensures WritesWhatIsThere(AssignModel, db.models, e)
    {
      var i :| 0 <= i < |cfg.models| && ModelEntries(cfg.models)[i] == e;
      ModelEntryAt(cfg.models, i);
      assert cfg.models[i] in cfg.models;
    }
    WritingWhatIsThere(AssignModel, BlankModel, db.models, ModelEntries(cfg.models));
  }

  /** The masks an export writes are dropped again, so stored secrets stay. */
  lemma ServerSurvives(name: string, row: ServerRow)
    ensures AssignServer(row, ServerPatchOf(ExportServer(name, row))) == row
  {
    if row.env.Some? {
      MaskedEnvIsClean(row.env.value);
    }
  }

  lemma ServersRoundTrip(db: Db, cfg: Config)
    requires IsExport(db, cfg)
    ensures WithServers(db, cfg.servers) == db
  {
    forall e | e in ServerEntries(cfg.servers)
      ensures WritesWhatIsThere(AssignServer, db.servers, e)
    {
      var i :| 0 <= i < |cfg.servers| && ServerEntries(cfg.servers)[i] == e;
      ServerEntryAt(cfg.servers, i);
      assert cfg.servers[i] in cfg.servers;
      ServerSurvives(e.name, db.servers.rows[e.name]);
    }
    WritingWhatIsThere(AssignServer, BlankServer, db.servers, ServerEntries(cfg.servers));
  }

  // ----- Agent rows

  lemma AgentSurvivesIff(db: Db, item: AgentItem)
    requires IdsUnique(ModelId, db.models) && IsAgentExport(db, item)
    ensures var row := db.agents.rows[item.name];
            AssignAgent(row, AgentPatchOf(db.models.rows, item)) == row <==> CanonicalAgent(db, row)
  {
    var row := db.agents.rows[item.name];
    if row.modelId.Some? {
      forall n | NamesModel(db, row.modelId, n)
        ensures n == item.modelName
      {
        assert ModelId(db.models.rows[n]) == ModelId(db.models.rows[item.modelName]);
      }
    }
  }

  lemma EntryOf(db: Db, cfg: Config, e: Entry<AgentPatch>)
    requires IsExport(db, cfg) && IdsUnique(ModelId, db.models)
    requires e in AgentEntries(db.models.rows, cfg.agents)
    ensures e.name in db.agents.rows
    ensures WritesWhatIsThere(AssignAgent, db.agents, e) <==> CanonicalAgent(db, db.agents.rows[e.name])
  {
    var i :| 0 <= i < |cfg.agents| && AgentEntries(db.models.rows, cfg.agents)[i] == e;
    AgentEntryAt(db.models.rows, cfg.agents, i);
    assert cfg.agents[i] in cfg.agents;
    AgentSurvivesIff(db, cfg.agents[i]);
  }

  lemma EntryNamed(db: Db, cfg: Config, name: string) returns (e: Entry<AgentPatch>)
    requires IsExport(db, cfg) && name in db.agents.rows
    ensures e in AgentEntries(db.models.rows, cfg.agents) && e.name == name
  {
    var item :| item in cfg.agents && item.name == name;
    var i :| 0 <= i < |cfg.agents| && cfg.agents[i] == item;
    AgentEntryAt(db.models.rows, cfg.agents, i);
    e := AgentEntries(db.models.rows, cfg.agents)[i];
  }

  lemma EntriesAreDistinct(db: Db, cfg: Config)
    requires IsExport(db, cfg)
    ensures DistinctNames(AgentEntries(db.models.rows, cfg.agents))
  {
    var entries := AgentEntries(db.models.rows, cfg.agents);
    forall i, j | 0 <= i < j < |entries| ensures entries[i].name != entries[j].name {
      AgentEntryAt(db.models.rows, cfg.agents, i);
      AgentEntryAt(db.models.rows, cfg.agents, j);
    }
  }

  lemma AgentsRoundTripIff(db: Db, cfg: Config)
    requires IsExport(db, cfg) && IdsUnique(ModelId, db.models)
    ensures WithAgents(db, cfg.agents) == db
       <==> AgentsCanonical(db)
  {
    AssignmentsMerge();
    var entries := AgentEntries(db.models.rows, cfg.agents);
    EntriesAreDistinct(db, cfg);
    forall e | e in entries ensures e.name in db.agents.rows {
      EntryOf(db, cfg, e);
    }
    UpsertAllUnchangedIff(AssignAgent, MergeAgent, BlankAgent, db.agents, entries);
    if WithAgents(db, cfg.agents) == db {
      forall n | n in db.agents.rows ensures CanonicalAgent(db, db.agents.rows[n]) {
        var e := EntryNamed(db, cfg, n);
        EntryOf(db, cfg, e);
      }
    }
    if AgentsCanonical(db) {
      forall e | e in entries ensures WritesWhatIsThere(AssignAgent, db.agents, e) {
        EntryOf(db, cfg, e);
      }
    }
  }

  // ----- Tools and links

  lemma {:induction false} DistinctCount<T>(s: seq<T>, all: set<T>)
    requires Distinct(s) && forall x :: x in s <==> x in all
    ensures |all| == |s|
  {
    if s != [] {
      var front, last := s[..|s| - 1], s[|s| - 1];
      assert s == front + [last];
      assert last !in front;
      DistinctCount(front, all - {last});
    }
  }

  /** Distinct positions below the count, in ascending order, are 0, 1, 2 and so on. */
  lemma {:induction false} AscendingIsIdentity(orders: seq<int>, low: int)
    requires forall i :: 0 <= i < |orders| ==> low <= orders[i] < low + |orders|
    requires forall i, j :: 0 <= i < j < |orders| ==> orders[i] < orders[j]
    ensures forall i :: 0 <= i < |orders| ==> orders[i] == low + i
  {
    if orders != [] {
      AtLeast(orders, low, |orders| - 1);
      assert orders[|orders| - 1] == low + |orders| - 1;
      var front := orders[..|orders| - 1];
      forall i | 0 <= i < |front| ensures front[i] < low + |front| {}
      AscendingIsIdentity(front, low);
    }
  }

  lemma {:induction false} AtLeast(orders: seq<int>, low: int, i: nat)
    requires i < |orders| && orders[0] >= low
    requires forall a, b :: 0 <= a < b < |orders| ==> orders[a] < orders[b]
    ensures orders[i] >= low + i
  {
    if i > 0 {
      AtLeast(orders, low, i - 1);
    }
  }

  lemma ToolsSurviveIff(tools: map<ToolKey, ToolRow>, agentId: nat, keys: seq<ToolKey>)
    requires IsToolOrder(tools, keys) && forall k :: k in tools ==> k.agentId == agentId
    ensures Distinct(KeyNames(keys)) && ToolsFor(agentId, KeyNames(keys)) == tools <==> CanonicalTools(tools)
  {
    var names := KeyNames(keys);
    DistinctCount(keys, tools.Keys);
    if Distinct(names) && ToolsFor(agentId, names) == tools {
      ToolsForHolds(agentId, names);
      forall k | k in tools
        ensures exists i :: 0 <= i < |names| && k == ToolKey(agentId, Builtin, names[i]) && tools[k] == ToolRow(i, None)
      {
        var i :| 0 <= i < |names| && names[i] == k.name;
        assert k == ToolKey(agentId, Builtin, names[i]);
      }
    }
    if CanonicalTools(tools) {
      CanonicalToolsAreListed(tools, agentId, keys);
    }
  }

  lemma CanonicalKeys(tools: map<ToolKey, ToolRow>, agentId: nat, keys: seq<ToolKey>)
    requires IsToolOrder(tools, keys) && CanonicalTools(tools)
    requires forall k :: k in tools ==> k.agentId == agentId
    ensures forall i :: 0 <= i < |keys| ==> keys[i] in tools && keys[i] == ToolKey(agentId, Builtin, KeyNames(keys)[i])
    ensures Distinct(KeyNames(keys))
  {
    forall i | 0 <= i < |keys| ensures keys[i] in tools {
      assert keys[i] in keys;
    }
    forall i, j | 0 <= i < j < |keys| ensures KeyNames(keys)[i] != KeyNames(keys)[j] {
      assert keys[i] != keys[j];
    }
  }

  lemma CanonicalOrder(tools: map<ToolKey, ToolRow>, keys: seq<ToolKey>)
    requires IsToolOrder(tools, keys) && CanonicalTools(tools) && |keys| == |tools|
    ensures forall i :: 0 <= i < |keys| ==> keys[i] in tools && tools[keys[i]] == ToolRow(i, None)
  {
    forall i | 0 <= i < |keys| ensures keys[i] in tools {
      assert keys[i] in keys;
    }
    var orders := seq(|keys|, i requires 0 <= i < |keys| => tools[keys[i]].order);
    forall i, j | 0 <= i < j < |orders| ensures orders[i] < orders[j] {
      assert keys[i] != keys[j];
    }
    AscendingIsIdentity(orders, 0);
    forall i | 0 <= i < |keys| ensures tools[keys[i]] == ToolRow(i, None) {
      assert orders[i] == i;
    }
  }

  lemma ListedToolsAreStored(tools: map<ToolKey, ToolRow>, agentId: nat, keys: seq<ToolKey>)
    requires IsToolOrder(tools, keys) && CanonicalTools(tools) && forall k :: k in tools ==> k.agentId == agentId
    ensures forall k :: k in ToolsFor(agentId, KeyNames(keys)) ==> k in tools
  {
    var names := KeyNames(keys);
    CanonicalKeys(tools, agentId, keys);
    ToolsForHolds(agentId, names);
    forall k | k in ToolsFor(agentId, names)
      ensures k in tools
    {
      var i :| 0 <= i < |names| && names[i] == k.name;
      assert k == keys[i];
    }
  }

  lemma StoredToolIsListed(tools: map<ToolKey, ToolRow>, agentId: nat, keys: seq<ToolKey>, key: ToolKey)
    requires IsToolOrder(tools, keys) && CanonicalTools(tools) && |keys| == |tools| && key in tools
    requires forall k :: k in tools ==> k.agentId == agentId
    ensures var listed := ToolsFor(agentId, KeyNames(keys)); key in listed && listed[key] == tools[key]
  {
    CanonicalKeys(tools, agentId, keys);
    CanonicalOrder(tools, keys);
    ToolsForHolds(agentId, KeyNames(keys));
    var i :| 0 <= i < |keys| && keys[i] == key;
  }

  lemma CanonicalToolsAreListed(tools: map<ToolKey, ToolRow>, agentId: nat, keys: seq<ToolKey>)
    requires IsToolOrder(tools, keys) && forall k :: k in tools ==> k.agentId == agentId
    requires CanonicalTools(tools) && |keys| == |tools|
    ensures Distinct(KeyNames(keys)) && ToolsFor(agentId, KeyNames(keys)) == tools
  {
    CanonicalKeys(tools, agentId, keys);
    ListedToolsAreStored(tools, agentId, keys);
    forall k | k in tools
      ensures k in ToolsFor(agentId, KeyNames(keys)) && tools[k] == ToolsFor(agentId, KeyNames(keys))[k]
    {
      StoredToolIsListed(tools, agentId, keys, k);
    }
  }

  lemma LinksSurvive(db: Db, agentId: nat, names: seq<string>)
    requires Consistent(db) && ListsServers(db, agentId, names)
    ensures LinksFor(agentId, db.servers.rows, names) == LinksOf(db.links, agentId)
  {
    forall l | l in LinksOf(db.links, agentId)
      ensures l in LinksFor(agentId, db.servers.rows, names)
    {
      assert HasServer(db, l.serverId);
      var n :| n in db.servers.rows && db.servers.rows[n].id == l.serverId;
      assert l == Link(agentId, db.servers.rows[n].id);
      assert n in names;
    }
  }

  /** One agent's tools and links come back exactly when its tools are canonical. */
  lemma AgentRelationsSurviveIff(db: Db, item: AgentItem)
    requires Consistent(db) && IsAgentExport(db, item)
    ensures var id := db.agents.rows[item.name].id;
            && LinksFor(id, db.servers.rows, item.servers) == LinksOf(db.links, id)
            && (RelationsFit(db.servers.rows, item) && ToolsFor(id, item.tools) == ToolsOf(db.tools, id)
                <==> CanonicalTools(ToolsOf(db.tools, id)))
  {
    var id := db.agents.rows[item.name].id;
    LinksSurvive(db, id, item.servers);
    var keys :| IsToolOrder(ToolsOf(db.tools, id), keys) && item.tools == KeyNames(keys);
    ToolsSurviveIff(ToolsOf(db.tools, id), id, keys);
  }

  lemma {:induction false} OnlyItemOf(items: seq<AgentItem>, i: nat)
    requires i < |items| && forall j, k :: 0 <= j < k < |items| ==> items[j].name != items[k].name
    ensures LastNamed(items, items[i].name) == Some(items[i])
  {
    if i < |items| - 1 {
      OnlyItemOf(items[..|items| - 1], i);
    }
  }

  lemma ExportedRelations(db: Db, cfg: Config, name: string) returns (item: AgentItem)
    requires Consistent(db) && IsExport(db, cfg) && name in db.agents.rows
    ensures item in cfg.agents && item.name == name && IsAgentExport(db, item)
    ensures LastFor(db, cfg.agents, db.agents.rows[name].id) == Some(item)
  {
    item :| item in cfg.agents && item.name == name;
    var i :| 0 <= i < |cfg.agents| && cfg.agents[i] == item;
    OnlyItemOf(cfg.agents, i);
    LastForIsLastNamed(db, cfg.agents, name);
  }

  lemma {:induction false} NoItemForStrangers(db: Db, items: seq<AgentItem>, agentId: nat)
    requires forall item :: item in items ==> item.name in db.agents.rows
    requires forall n :: n in db.agents.rows ==> db.agents.rows[n].id != agentId
    ensures LastFor(db, items, agentId) == None
  {
    if items != [] {
      assert items == items[..|items| - 1] + [items[|items| - 1]];
      NoItemForStrangers(db, items[..|items| - 1], agentId);
    }
  }

  lemma SyncedAgentSurvives(db: Db, cfg: Config, id: nat)
    requires Consistent(db) && IsExport(db, cfg) && ToolsCanonical(db)
    ensures ToolsOf(SyncAll(db, cfg.agents).tools, id) == ToolsOf(db.tools, id)
    ensures LinksOf(SyncAll(db, cfg.agents).links, id) == LinksOf(db.links, id)
  {
    SyncedAt(db, cfg.agents, id);
    if HasAgent(db, id) {
      var n :| n in db.agents.rows && db.agents.rows[n].id == id;
      var item := ExportedRelations(db, cfg, n);
      AgentRelationsSurviveIff(db, item);
    } else {
      NoItemForStrangers(db, cfg.agents, id);
    }
  }

  lemma CanonicalToolsSurvive(db: Db, cfg: Config)
    requires Consistent(db) && IsExport(db, cfg) && ToolsCanonical(db)
    ensures AllRelationsFit(db.servers.rows, cfg.agents) && SyncAll(db, cfg.agents) == db
  {
    forall item | item in cfg.agents ensures RelationsFit(db.servers.rows, item) {
      AgentRelationsSurviveIff(db, item);
    }
    forall id: nat
      ensures ToolsOf(SyncAll(db, cfg.agents).tools, id) == ToolsOf(db.tools, id)
      ensures LinksOf(SyncAll(db, cfg.agents).links, id) == LinksOf(db.links, id)
    {
      SyncedAgentSurvives(db, cfg, id);
    }
    SameAgentByAgent(SyncAll(db, cfg.agents), db);
    SyncKeepsRows(db, cfg.agents);
    SyncKeepsLimits(db, cfg.agents);
  }

  lemma SurvivingToolsAreCanonical(db: Db, cfg: Config)
    requires Consistent(db) && IsExport(db, cfg)
    requires AllRelationsFit(db.servers.rows, cfg.agents) && SyncAll(db, cfg.agents) == db
    ensures ToolsCanonical(db)
  {
    forall n | n in db.agents.rows ensures CanonicalTools(ToolsOf(db.tools, db.agents.rows[n].id)) {
      var item := ExportedRelations(db, cfg, n);
      SyncedAt(db, cfg.agents, db.agents.rows[n].id);
      AgentRelationsSurviveIff(db, item);
    }
  }

  // ----- The round trip

  lemma ExportedItemsFit(db: Db, cfg: Config)
    requires Consistent(db) && IsExport(db, cfg)
    ensures forall item :: item in cfg.models ==> ModelFits(db.limits, item)
    ensures forall item :: item in cfg.servers ==> ServerFits(db.limits, item)
    ensures AgentsCanonical(db) ==> AllAgentsFit(db.limits, db.models.rows, cfg.agents)
  {
    if AgentsCanonical(db) {
      forall item | item in cfg.agents ensures AgentFits(db.limits, db.models.rows, item) {
        assert IsAgentExport(db, item);
      }
    }
  }

  lemma ImportOfExport(db: Db, cfg: Config)
    requires IsExport(db, cfg)
    ensures Imported(db, cfg) == SyncAll(WithAgents(db, cfg.agents), cfg.agents)
    ensures Imported(db, cfg).agents == WithAgents(db, cfg.agents).agents
    ensures WithModels(db, cfg.models) == db && WithServers(db, cfg.servers) == db
  {
    ModelsRoundTrip(db, cfg);
    ServersRoundTrip(db, cfg);
    SyncKeepsRows(WithAgents(db, cfg.agents), cfg.agents);
  }

  lemma CanonicalSurvives(db: Db, cfg: Config)
    requires Consistent(db) && IsExport(db, cfg) && Canonical(db)
    ensures Fits(db, cfg) && Imported(db, cfg) == db
  {
    ImportOfExport(db, cfg);
    AgentsRoundTripIff(db, cfg);
    ExportedItemsFit(db, cfg);
    CanonicalToolsSurvive(db, cfg);
  }

  lemma SurvivorIsCanonical(db: Db, cfg: Config)
    requires Consistent(db) && IsExport(db, cfg) && Fits(db, cfg) && Imported(db, cfg) == db
    ensures Canonical(db)
  {
    ImportOfExport(db, cfg);
    assert WithAgents(db, cfg.agents) == db;
    AgentsRoundTripIff(db, cfg);
    SurvivingToolsAreCanonical(db, cfg);
  }

  /**
   Importing any export of a database into that database succeeds and changes nothing, secrets included, exactly
   when the database is canonical.
   */
  lemma RoundTripIff(db: Db, cfg: Config)
    requires Consistent(db) && IsExport(db, cfg)
    ensures Fits(db, cfg) && Imported(db, cfg) == db <==> Canonical(db)
  {
    if Canonical(db) {
      CanonicalSurvives(db, cfg);
    }
    if Fits(db, cfg) && Imported(db, cfg) == db {
      SurvivorIsCanonical(db, cfg);
    }
  }

  /** An agent bound to a model without a name comes back unbound, since an item without a model name names no model. */
  lemma NamelessBindingIsLost(db: Db, cfg: Config, name: string)
    requires IdsUnique(ModelId, db.models) && IsExport(db, cfg) && name in db.agents.rows
    requires "" in db.models.rows && db.agents.rows[name].modelId == Some(db.models.rows[""].id)
    ensures name in Imported(db, cfg).agents.rows && Imported(db, cfg).agents.rows[name].modelId == None
  {
    ImportOfExport(db, cfg);
    var i := ItemNamed(cfg.agents, name);
    assert cfg.agents[i] in cfg.agents;
    NamelessExport(db, cfg.agents[i]);
    NamelessItemUnbinds(db, cfg.agents, i);
  }

  lemma NamelessItemUnbinds(db: Db, items: seq<AgentItem>, i: nat)
    requires i < |items| && forall j, k :: 0 <= j < k < |items| ==> items[j].name != items[k].name
    requires items[i].modelName == ""
    ensures items[i].name in WithAgents(db, items).agents.rows
    ensures WithAgents(db, items).agents.rows[items[i].name].modelId == None
  {
    OnlyItemOf(items, i);
    AgentRowAfter(db, items, items[i].name);
  }

  lemma NamelessExport(db: Db, item: AgentItem)
    requires IdsUnique(ModelId, db.models) && IsAgentExport(db, item)
    requires "" in db.models.rows && db.agents.rows[item.name].modelId == Some(db.models.rows[""].id)
    ensures item.modelName == ""
  {
    assert ModelId(db.models.rows[item.modelName]) == ModelId(db.models.rows[""]);
  }

  lemma ItemNamed(items: seq<AgentItem>, name: string) returns (i: nat)
    requires exists item :: item in items && item.name == name
    ensures i < |items| && items[i].name == name
  {
    var item :| item in items && item.name == name;
    i :| 0 <= i < |items| && items[i] == item;
  }
}
