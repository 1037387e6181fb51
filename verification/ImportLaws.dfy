/** What every successful import guarantees: it can be repeated, and what it wrote resolves. */
module ImportLaws {
  import opened Wrappers
  import opened Upserts
  import opened ConfigStore
  import opened ConfigImport

  // ----- The second pass, agent by agent

  function ToolsOf(tools: map<ToolKey, ToolRow>, agentId: nat): map<ToolKey, ToolRow> {
    map k | k in tools && k.agentId == agentId :: tools[k]
  }

  function LinksOf(links: set<Link>, agentId: nat): set<Link> {
    set l | l in links && l.agentId == agentId
  }

  /** The item that writes an agent's tools and links last. */
  function LastFor(db: Db, items: seq<AgentItem>, agentId: nat): Option<AgentItem> {
    if items == [] then None
    else if AgentIdOf(db, items[|items| - 1].name) == agentId then Some(items[|items| - 1])
    else LastFor(db, items[..|items| - 1], agentId)
  }

  lemma SyncOne(db: Db, agentId: nat, item: AgentItem, other: nat)
    ensures var after := SyncAgent(db, agentId, item);
            && ToolsOf(after.tools, other)
               == (if other == agentId then ToolsFor(agentId, item.tools) else ToolsOf(db.tools, other))
            && LinksOf(after.links, other)
               == (if other == agentId then LinksFor(agentId, db.servers.rows, item.servers) else LinksOf(db.links, other))
  {
    ToolsForOwner(agentId, item.tools);
  }

  lemma {:induction false} SyncedAt(db: Db, items: seq<AgentItem>, agentId: nat)
    ensures var after := SyncAll(db, items);
            match LastFor(db, items, agentId)
            case None => ToolsOf(after.tools, agentId) == ToolsOf(db.tools, agentId)
                         && LinksOf(after.links, agentId) == LinksOf(db.links, agentId)
            case Some(item) => ToolsOf(after.tools, agentId) == ToolsFor(agentId, item.tools)
                               && LinksOf(after.links, agentId) == LinksFor(agentId, db.servers.rows, item.servers)
  {
    if items != [] {
      var front, last := items[..|items| - 1], items[|items| - 1];
      SyncedAt(db, front, agentId);
      SyncKeepsRows(db, front);
      SyncOne(SyncAll(db, front), AgentIdOf(db, last.name), last, agentId);
    }
  }

  lemma SameAgentByAgent(a: Db, b: Db)
    requires forall id: nat :: ToolsOf(a.tools, id) == ToolsOf(b.tools, id) && LinksOf(a.links, id) == LinksOf(b.links, id)
    ensures a.tools == b.tools && a.links == b.links
  {
    forall k
      ensures k in a.tools <==> k in b.tools
      ensures k in a.tools && k in b.tools ==> a.tools[k] == b.tools[k]
    {
      assert k in a.tools <==> k in ToolsOf(a.tools, k.agentId);
      assert k in b.tools <==> k in ToolsOf(b.tools, k.agentId);
      assert k in a.tools ==> a.tools[k] == ToolsOf(a.tools, k.agentId)[k];
      assert k in b.tools ==> b.tools[k] == ToolsOf(b.tools, k.agentId)[k];
    }
    forall l
      ensures l in a.links <==> l in b.links
    {
      assert l in a.links <==> l in LinksOf(a.links, l.agentId);
      assert l in b.links <==> l in LinksOf(b.links, l.agentId);
    }
  }

  lemma {:induction false} LastForSameRows(a: Db, b: Db, items: seq<AgentItem>, agentId: nat)
    requires a.agents == b.agents
    ensures LastFor(a, items, agentId) == LastFor(b, items, agentId)
  {
    if items != [] {
      LastForSameRows(a, b, items[..|items| - 1], agentId);
    }
  }

  lemma SyncAllIdempotent(db: Db, items: seq<AgentItem>)
    ensures SyncAll(SyncAll(db, items), items) == SyncAll(db, items)
  {
    var once := SyncAll(db, items);
    var twice := SyncAll(once, items);
    SyncKeepsRows(db, items);
    SyncKeepsRows(once, items);
    forall id: nat
      ensures ToolsOf(twice.tools, id) == ToolsOf(once.tools, id) && LinksOf(twice.links, id) == LinksOf(once.links, id)
    {
      SyncedAt(db, items, id);
      SyncedAt(once, items, id);
      LastForSameRows(db, once, items, id);
    }
    SameAgentByAgent(twice, once);
    SyncKeepsLimits(db, items);
    SyncKeepsLimits(once, items);
  }

  lemma {:induction false} SyncKeepsLimits(db: Db, items: seq<AgentItem>)
    ensures SyncAll(db, items).limits == db.limits
  {
    if items != [] {
      SyncKeepsLimits(db, items[..|items| - 1]);
    }
  }

  // ----- Importing twice

  /** Importing what was just imported succeeds again and changes nothing, repeated names included. */
  lemma ImportIsIdempotent(db: Db, cfg: Config)
    requires Fits(db, cfg)
    ensures Fits(Imported(db, cfg), cfg)
    ensures Imported(Imported(db, cfg), cfg) == Imported(db, cfg)
  {
    AssignmentsMerge();
    var rows := WithAgents(WithServers(WithModels(db, cfg.models), cfg.servers), cfg.agents);
    var once := Imported(db, cfg);
    SyncKeepsRows(rows, cfg.agents);
    SyncKeepsLimits(rows, cfg.agents);
    UpsertAllIdempotent(AssignModel, MergeModel, BlankModel, db.models, ModelEntries(cfg.models));
    UpsertAllIdempotent(AssignServer, MergeServer, BlankServer, db.servers, ServerEntries(cfg.servers));
    UpsertAllIdempotent(AssignAgent, MergeAgent, BlankAgent, db.agents, AgentEntries(once.models.rows, cfg.agents));
    assert WithModels(once, cfg.models) == once;
    assert WithServers(once, cfg.servers) == once;
    assert WithAgents(once, cfg.agents) == once;
    SyncAllIdempotent(rows, cfg.agents);
  }

  // ----- References

  function LastNamed(items: seq<AgentItem>, name: string): Option<AgentItem> {
    if items == [] then None
    else if items[|items| - 1].name == name then Some(items[|items| - 1])
    else LastNamed(items[..|items| - 1], name)
  }

  lemma {:induction false} LastNamedIsListed(items: seq<AgentItem>, name: string)
    ensures LastNamed(items, name).Some? <==> exists item :: item in items && item.name == name
    ensures LastNamed(items, name).Some? ==> LastNamed(items, name).value in items
  {
    if items != [] {
      var front, last := items[..|items| - 1], items[|items| - 1];
      LastNamedIsListed(front, name);
      assert items == front + [last] && last in items;
      assert forall item :: item in front ==> item in items;
    }
  }

  lemma {:induction false} LastWrites(models: map<string, ModelRow>, items: seq<AgentItem>, name: string)
    ensures Combined(MergeAgent, AgentEntries(models, items), name)
         == match LastNamed(items, name) case None => None case Some(item) => Some(AgentPatchOf(models, item))
  {
    if items != [] {
      var front := items[..|items| - 1];
      LastWrites(models, front, name);
      assert AgentEntries(models, items)[..|items| - 1] == AgentEntries(models, front);
    }
  }

  lemma {:induction false} LastForIsLastNamed(db: Db, items: seq<AgentItem>, name: string)
    requires IdsUnique(AgentId, db.agents) && name in db.agents.rows
    requires forall item :: item in items ==> item.name in db.agents.rows
    ensures LastFor(db, items, AgentIdOf(db, name)) == LastNamed(items, name)
  {
    if items != [] {
      var front, last := items[..|items| - 1], items[|items| - 1];
      assert items == front + [last];
      LastForIsLastNamed(db, front, name);
      assert AgentId(db.agents.rows[last.name]) == AgentIdOf(db, last.name);
      assert AgentId(db.agents.rows[name]) == AgentIdOf(db, name);
    }
  }

  /** An imported agent has the model, tools and servers its last item names, and every one of them exists. */
  ghost predicate AgentMatches(db: Db, item: AgentItem) {
    && item.name in db.agents.rows
    && (if item.modelName == "" then db.agents.rows[item.name].modelId == None
        else item.modelName in db.models.rows && db.agents.rows[item.name].modelId == Some(db.models.rows[item.modelName].id))
    && ToolsOf(db.tools, db.agents.rows[item.name].id) == ToolsFor(db.agents.rows[item.name].id, item.tools)
    && (forall n :: n in item.servers ==> n in db.servers.rows)
    && LinksOf(db.links, db.agents.rows[item.name].id)
       == LinksFor(db.agents.rows[item.name].id, db.servers.rows, item.servers)
  }

  lemma AgentRowAfter(db: Db, items: seq<AgentItem>, name: string)
    requires LastNamed(items, name).Some?
    ensures var after := WithAgents(db, items);
            name in after.agents.rows
            && after.agents.rows[name].modelId == ModelRef(db.models.rows, LastNamed(items, name).value.modelName)
  {
    AssignmentsMerge();
    LastWrites(db.models.rows, items, name);
    var start, id := RowAfter(AssignAgent, MergeAgent, BlankAgent, db.agents, AgentEntries(db.models.rows, items), name);
  }

  lemma ImportedReferencesResolve(db: Db, cfg: Config, name: string)
    requires Consistent(db) && Fits(db, cfg)
    requires LastNamed(cfg.agents, name).Some?
    ensures AgentMatches(Imported(db, cfg), LastNamed(cfg.agents, name).value)
  {
    var before := WithServers(WithModels(db, cfg.models), cfg.servers);
    var rows := WithAgents(before, cfg.agents);
    var item := LastNamed(cfg.agents, name).value;
    LastNamedIsListed(cfg.agents, name);
    assert item.name == name by { NamedByName(cfg.agents, name); }
    AgentRowAfter(before, cfg.agents, name);
    forall other | other in cfg.agents ensures other.name in rows.agents.rows {
      LastNamedIsListed(cfg.agents, other.name);
      AgentRowAfter(before, cfg.agents, other.name);
    }
    AssignmentsKeepIds();
    UpsertAllKeepsIds(AssignAgent, BlankAgent, AgentId, before.agents, AgentEntries(before.models.rows, cfg.agents));
    LastForIsLastNamed(rows, cfg.agents, name);
    SyncedAt(rows, cfg.agents, AgentIdOf(rows, name));
    SyncKeepsRows(rows, cfg.agents);
  }

  lemma {:induction false} NamedByName(items: seq<AgentItem>, name: string)
    requires LastNamed(items, name).Some?
    ensures LastNamed(items, name).value.name == name
  {
    if items[|items| - 1].name != name {
      NamedByName(items[..|items| - 1], name);
    }
  }

  // ----- The constraints hold afterwards

  lemma {:induction false} ModelTypesHold(limits: Limits, t: Table<ModelRow>, items: seq<ModelItem>)
    requires forall n :: n in t.rows ==> t.rows[n].typ in limits.modelTypes
    requires forall item :: item in items ==> ModelFits(limits, item)
    ensures forall n :: n in ModelsAfter(t, items).rows ==> ModelsAfter(t, items).rows[n].typ in limits.modelTypes
  {
    if items != [] {
      var front := items[..|items| - 1];
      assert items == front + [items[|items| - 1]];
      ModelTypesHold(limits, t, front);
      ModelsAfterOneMore(t, items, |front|);
      assert items[..|front| + 1] == items && items[|front|] in items;
    }
  }

  lemma {:induction false} ServerTypesHold(limits: Limits, t: Table<ServerRow>, items: seq<ServerItem>)
    requires forall n :: n in t.rows ==> t.rows[n].typ in limits.serverTypes
    requires forall item :: item in items ==> ServerFits(limits, item)
    ensures forall n :: n in ServersAfter(t, items).rows ==> ServersAfter(t, items).rows[n].typ in limits.serverTypes
  {
    if items != [] {
      var front := items[..|items| - 1];
      assert items == front + [items[|items| - 1]];
      ServerTypesHold(limits, t, front);
      ServersAfterOneMore(t, items, |front|);
      assert items[..|front| + 1] == items && items[|front|] in items;
    }
  }

  /** What the constraints ask of one agent row. */
  ghost predicate AgentRowHolds(limits: Limits, models: map<string, ModelRow>, row: AgentRow) {
    && row.lifecycle in limits.lifecycles
    && row.toolExecution in limits.toolExecutions
    && (row.modelId.Some? ==> exists n :: n in models && models[n].id == row.modelId.value)
  }

  lemma WrittenAgentHolds(limits: Limits, models: map<string, ModelRow>, row: AgentRow, item: AgentItem)
    requires AgentFits(limits, models, item)
    ensures AgentRowHolds(limits, models, AssignAgent(row, AgentPatchOf(models, item)))
  {}

  lemma {:induction false} AgentRowsHold(limits: Limits, models: map<string, ModelRow>, t: Table<AgentRow>, items: seq<AgentItem>)
    requires forall n :: n in t.rows ==> AgentRowHolds(limits, models, t.rows[n])
    requires AllAgentsFit(limits, models, items)
    ensures forall n :: n in AgentsAfter(t, models, items).rows ==>
      AgentRowHolds(limits, models, AgentsAfter(t, models, items).rows[n])
  {
    if items != [] {
      var front, last := items[..|items| - 1], items[|items| - 1];
      assert items == front + [last];
      AgentRowsHold(limits, models, t, front);
      AgentsAfterOneMore(t, models, items, |front|);
      assert items[..|front| + 1] == items && last in items;
      var before := AgentsAfter(t, models, front);
      var start := if last.name in before.rows then before.rows[last.name] else BlankAgent(before.nextId);
      WrittenAgentHolds(limits, models, start, last);
      var after := AgentsAfter(t, models, items);
      assert after.rows == before.rows[last.name := AssignAgent(start, AgentPatchOf(models, last))];
      forall n | n in after.rows ensures AgentRowHolds(limits, models, after.rows[n]) {
        if n != last.name {
          assert after.rows[n] == before.rows[n];
        }
      }
    }
  }

  ghost predicate ReferencesHold(db: Db) {
    && (forall k :: k in db.tools ==> HasAgent(db, k.agentId))
    && (forall l :: l in db.links ==> HasAgent(db, l.agentId) && HasServer(db, l.serverId))
  }

  lemma SyncOneReferencesHold(db: Db, item: AgentItem)
    requires ReferencesHold(db) && item.name in db.agents.rows
    ensures ReferencesHold(SyncAgent(db, AgentIdOf(db, item.name), item))
  {
    var id := AgentIdOf(db, item.name);
    var after := SyncAgent(db, id, item);
    ToolsForOwner(id, item.tools);
    assert HasAgent(after, id);
    forall k | k in after.tools ensures HasAgent(after, k.agentId) {
      assert k.agentId != id ==> k in db.tools && HasAgent(db, k.agentId);
    }
    forall l | l in after.links ensures HasAgent(after, l.agentId) && HasServer(after, l.serverId) {
      if l in db.links {
        assert HasAgent(db, l.agentId) && HasServer(db, l.serverId);
      }
    }
  }

  lemma {:induction false} SyncReferencesHold(db: Db, items: seq<AgentItem>)
    requires ReferencesHold(db) && forall item :: item in items ==> item.name in db.agents.rows
    ensures ReferencesHold(SyncAll(db, items))
  {
    if items != [] {
      var front, last := items[..|items| - 1], items[|items| - 1];
      assert items == front + [last];
      SyncReferencesHold(db, front);
      SyncKeepsRows(db, front);
      SyncOneReferencesHold(SyncAll(db, front), last);
    }
  }

  /** Rows that were referenced are still there under the same identifier. */
  ghost predicate KeepsRows(db: Db, after: Db) {
    && (forall n :: n in db.models.rows ==> n in after.models.rows && after.models.rows[n].id == db.models.rows[n].id)
    && (forall n :: n in db.servers.rows ==> n in after.servers.rows && after.servers.rows[n].id == db.servers.rows[n].id)
    && (forall n :: n in db.agents.rows ==> n in after.agents.rows && after.agents.rows[n].id == db.agents.rows[n].id)
  }

  lemma RowsKept(db: Db, cfg: Config)
    requires Consistent(db)
    ensures var after := WithAgents(WithServers(WithModels(db, cfg.models), cfg.servers), cfg.agents);
            && KeepsRows(db, after)
            && IdsUnique(ModelId, after.models) && IdsUnique(ServerId, after.servers) && IdsUnique(AgentId, after.agents)
  {
    AssignmentsKeepIds();
    var models := WithModels(db, cfg.models).models.rows;
    UpsertAllKeepsIds(AssignModel, BlankModel, ModelId, db.models, ModelEntries(cfg.models));
    UpsertAllKeepsIds(AssignServer, BlankServer, ServerId, db.servers, ServerEntries(cfg.servers));
    UpsertAllKeepsIds(AssignAgent, BlankAgent, AgentId, db.agents, AgentEntries(models, cfg.agents));
    forall n | n in db.models.rows ensures n in models && models[n].id == db.models.rows[n].id {
      assert ModelId(db.models.rows[n]) == ModelId(models[n]);
    }
    var after := WithAgents(WithServers(WithModels(db, cfg.models), cfg.servers), cfg.agents);
    forall n | n in db.servers.rows ensures after.servers.rows[n].id == db.servers.rows[n].id {
      assert ServerId(db.servers.rows[n]) == ServerId(after.servers.rows[n]);
    }
    forall n | n in db.agents.rows ensures after.agents.rows[n].id == db.agents.rows[n].id {
      assert AgentId(db.agents.rows[n]) == AgentId(after.agents.rows[n]);
    }
  }

  lemma ReferencesOutlive(db: Db, after: Db)
    requires Consistent(db) && KeepsRows(db, after) && after.tools == db.tools && after.links == db.links
    ensures ReferencesHold(after)
  {
    forall k | k in after.tools ensures HasAgent(after, k.agentId) {
      assert HasAgent(db, k.agentId);
      var n :| n in db.agents.rows && db.agents.rows[n].id == k.agentId;
      assert after.agents.rows[n].id == k.agentId;
    }
    forall l | l in after.links ensures HasAgent(after, l.agentId) && HasServer(after, l.serverId) {
      assert HasAgent(db, l.agentId) && HasServer(db, l.serverId);
      var n :| n in db.agents.rows && db.agents.rows[n].id == l.agentId;
      assert after.agents.rows[n].id == l.agentId;
      var m :| m in db.servers.rows && db.servers.rows[m].id == l.serverId;
      assert after.servers.rows[m].id == l.serverId;
    }
  }

  /** Every successful import leaves a database whose constraints hold. */
  lemma ImportKeepsConsistent(db: Db, cfg: Config)
    requires Consistent(db) && Fits(db, cfg)
    ensures Consistent(Imported(db, cfg))
  {
    var before := WithServers(WithModels(db, cfg.models), cfg.servers);
    var rows := WithAgents(before, cfg.agents);
    RowsKept(db, cfg);
    ModelTypesHold(db.limits, db.models, cfg.models);
    ServerTypesHold(db.limits, db.servers, cfg.servers);
    forall n | n in db.agents.rows ensures AgentRowHolds(db.limits, before.models.rows, db.agents.rows[n]) {
      if db.agents.rows[n].modelId.Some? {
        assert HasModel(db, db.agents.rows[n].modelId.value);
        var m :| m in db.models.rows && db.models.rows[m].id == db.agents.rows[n].modelId.value;
        assert before.models.rows[m].id == db.models.rows[m].id;
      }
    }
    AgentRowsHold(db.limits, before.models.rows, db.agents, cfg.agents);
    ReferencesOutlive(db, rows);
    forall item | item in cfg.agents ensures item.name in rows.agents.rows {
      LastNamedIsListed(cfg.agents, item.name);
      AgentRowAfter(before, cfg.agents, item.name);
    }
    SyncReferencesHold(rows, cfg.agents);
    SyncKeepsRows(rows, cfg.agents);
    SyncKeepsLimits(rows, cfg.agents);
    ConsistentFromParts(Imported(db, cfg));
  }

  lemma ConsistentFromParts(db: Db)
    requires IdsUnique(ModelId, db.models) && IdsUnique(ServerId, db.servers) && IdsUnique(AgentId, db.agents)
    requires forall n :: n in db.models.rows ==> db.models.rows[n].typ in db.limits.modelTypes
    requires forall n :: n in db.servers.rows ==> db.servers.rows[n].typ in db.limits.serverTypes
    requires forall n :: n in db.agents.rows ==> AgentRowHolds(db.limits, db.models.rows, db.agents.rows[n])
    requires ReferencesHold(db)
    ensures Consistent(db)
  {}
}
