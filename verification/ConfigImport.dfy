/** Importing a configuration: upserts by name, then each agent's tools and links replaced, all or nothing. */
module ConfigImport {
  import opened Wrappers
  import opened Digraph
  import opened Upserts
  import opened ConfigStore

  datatype Error = ConstraintViolation | ModelNotFound | ServerNotFound

  // ----- What a successful import leaves

  function WithModels(db: Db, items: seq<ModelItem>): Db {
    db.(models := ModelsAfter(db.models, items))
  }

  function WithServers(db: Db, items: seq<ServerItem>): Db {
    db.(servers := ServersAfter(db.servers, items))
  }

  function WithAgents(db: Db, items: seq<AgentItem>): Db {
    db.(agents := AgentsAfter(db.agents, db.models.rows, items))
  }

  function AgentIdOf(db: Db, name: string): nat {
    if name in db.agents.rows then db.agents.rows[name].id else 0
  }

  /** The second pass: each item in turn replaces its agent's tools and links. */
  function SyncAll(db: Db, items: seq<AgentItem>): Db {
    if items == [] then db
    else
      var item := items[|items| - 1];
      SyncAgent(SyncAll(db, items[..|items| - 1]), AgentIdOf(db, item.name), item)
  }

  function Imported(db: Db, cfg: Config): Db {
    SyncAll(WithAgents(WithServers(WithModels(db, cfg.models), cfg.servers), cfg.agents), cfg.agents)
  }

  // ----- When an import succeeds

  predicate ModelFits(limits: Limits, item: ModelItem) {
    item.typ in limits.modelTypes
  }

  predicate ModelsFit(limits: Limits, items: seq<ModelItem>) {
    forall item :: item in items ==> ModelFits(limits, item)
  }

  lemma ModelsFitNext(limits: Limits, items: seq<ModelItem>, i: nat)
    requires i < |items|
    ensures ModelsFit(limits, items[..i + 1]) <==> ModelsFit(limits, items[..i]) && ModelFits(limits, items[i])
    ensures ModelsFit(limits, items) ==> ModelFits(limits, items[i])
  {
    assert items[..i + 1] == items[..i] + [items[i]];
  }

  predicate ServerFits(limits: Limits, item: ServerItem) {
    item.typ in limits.serverTypes
  }

  predicate ServersFit(limits: Limits, items: seq<ServerItem>) {
    forall item :: item in items ==> ServerFits(limits, item)
  }

  lemma ServersFitNext(limits: Limits, items: seq<ServerItem>, i: nat)
    requires i < |items|
    ensures ServersFit(limits, items[..i + 1]) <==> ServersFit(limits, items[..i]) && ServerFits(limits, items[i])
    ensures ServersFit(limits, items) ==> ServerFits(limits, items[i])
  {
    assert items[..i + 1] == items[..i] + [items[i]];
  }

  predicate AgentFits(limits: Limits, models: map<string, ModelRow>, item: AgentItem) {
    && (item.modelName != "" ==> item.modelName in models)
    && WithDefaults(item).lifecycle in limits.lifecycles
    && WithDefaults(item).toolExecution in limits.toolExecutions
  }

  ghost predicate RelationsFit(servers: map<string, ServerRow>, item: AgentItem) {
    && Distinct(item.tools)
    && Distinct(item.servers)
    && forall n :: n in item.servers ==> n in servers
  }

  ghost predicate AllAgentsFit(limits: Limits, models: map<string, ModelRow>, items: seq<AgentItem>) {
    forall item :: item in items ==> AgentFits(limits, models, item)
  }

  ghost predicate AllRelationsFit(servers: map<string, ServerRow>, items: seq<AgentItem>) {
    forall item :: item in items ==> RelationsFit(servers, item)
  }

  /** Types are allowed, every reference resolves after the rows are written, and no agent lists anything twice. */
  ghost predicate Fits(db: Db, cfg: Config) {
    && ModelsFit(db.limits, cfg.models)
    && ServersFit(db.limits, cfg.servers)
    && AllAgentsFit(db.limits, WithModels(db, cfg.models).models.rows, cfg.agents)
    && AllRelationsFit(WithServers(db, cfg.servers).servers.rows, cfg.agents)
  }

  // ----- The importer

  lemma {:induction false} SyncKeepsRows(db: Db, items: seq<AgentItem>)
    ensures var after := SyncAll(db, items);
            after.models == db.models && after.servers == db.servers && after.agents == db.agents
  {
    if items != [] {
      SyncKeepsRows(db, items[..|items| - 1]);
    }
  }

  lemma UpsertSnoc<R, P>(assign: (R, P) -> R, blank: nat -> R, t: Table<R>, front: seq<Entry<P>>, e: Entry<P>)
    ensures UpsertAll(assign, blank, t, front + [e]) == Upsert(assign, blank, UpsertAll(assign, blank, t, front), e)
  {
    assert (front + [e])[..|front|] == front;
  }

  function ModelsAfter(t: Table<ModelRow>, items: seq<ModelItem>): Table<ModelRow> {
    UpsertAll(AssignModel, BlankModel, t, ModelEntries(items))
  }

  lemma ModelsAfterOneMore(t: Table<ModelRow>, items: seq<ModelItem>, i: nat)
    requires i < |items|
    ensures ModelsAfter(t, items[..i + 1])
         == Upsert(AssignModel, BlankModel, ModelsAfter(t, items[..i]), Entry(items[i].name, ModelPatchOf(items[i])))
  {
    assert items[..i + 1][..i] == items[..i];
    UpsertSnoc(AssignModel, BlankModel, t, ModelEntries(items[..i]), Entry(items[i].name, ModelPatchOf(items[i])));
  }

  function ServersAfter(t: Table<ServerRow>, items: seq<ServerItem>): Table<ServerRow> {
    UpsertAll(AssignServer, BlankServer, t, ServerEntries(items))
  }

  lemma ServersAfterOneMore(t: Table<ServerRow>, items: seq<ServerItem>, i: nat)
    requires i < |items|
    ensures ServersAfter(t, items[..i + 1])
         == Upsert(AssignServer, BlankServer, ServersAfter(t, items[..i]), Entry(items[i].name, ServerPatchOf(items[i])))
  {
    assert items[..i + 1][..i] == items[..i];
    UpsertSnoc(AssignServer, BlankServer, t, ServerEntries(items[..i]), Entry(items[i].name, ServerPatchOf(items[i])));
  }

  function AgentsAfter(t: Table<AgentRow>, models: map<string, ModelRow>, items: seq<AgentItem>): Table<AgentRow> {
    UpsertAll(AssignAgent, BlankAgent, t, AgentEntries(models, items))
  }

  lemma AgentsAfterOneMore(t: Table<AgentRow>, models: map<string, ModelRow>, items: seq<AgentItem>, i: nat)
    requires i < |items|
    ensures AgentsAfter(t, models, items[..i + 1])
         == Upsert(AssignAgent, BlankAgent, AgentsAfter(t, models, items[..i]),
                   Entry(items[i].name, AgentPatchOf(models, items[i])))
  {
    assert items[..i + 1][..i] == items[..i];
    UpsertSnoc(AssignAgent, BlankAgent, t, AgentEntries(models, items[..i]),
               Entry(items[i].name, AgentPatchOf(models, items[i])));
  }

  lemma FitsSnoc(limits: Limits, models: map<string, ModelRow>, servers: map<string, ServerRow>, items: seq<AgentItem>, i: nat)
    requires i < |items|
    ensures AllAgentsFit(limits, models, items[..i + 1])
       <==> AllAgentsFit(limits, models, items[..i]) && AgentFits(limits, models, items[i])
    ensures AllRelationsFit(servers, items[..i + 1])
       <==> AllRelationsFit(servers, items[..i]) && RelationsFit(servers, items[i])
    ensures AllAgentsFit(limits, models, items) ==> AgentFits(limits, models, items[i])
    ensures AllRelationsFit(servers, items) ==> RelationsFit(servers, items[i])
  {
    assert items[..i + 1] == items[..i] + [items[i]];
  }

  /** The identifiers remembered for the items are those of their rows. */
  ghost predicate IdsRecorded(ids: map<string, nat>, rows: map<string, AgentRow>, items: seq<AgentItem>) {
    forall item :: item in items ==> item.name in ids && item.name in rows && ids[item.name] == rows[item.name].id
  }

  lemma IdRecorded(ids: map<string, nat>, rows: map<string, AgentRow>, later: map<string, AgentRow>,
                   items: seq<AgentItem>, i: nat)
    requires i < |items| && IdsRecorded(ids, rows, items[..i])
    requires forall n :: n in rows ==> n in later && later[n].id == rows[n].id
    requires items[i].name in later
    ensures IdsRecorded(ids[items[i].name := later[items[i].name].id], later, items[..i + 1])
  {
    assert items[..i + 1] == items[..i] + [items[i]];
  }

  /** Inserting the next tool of an agent meets an old key exactly when the name is repeated. */
  lemma ToolInserted(others: map<ToolKey, ToolRow>, agentId: nat, names: seq<string>, i: nat)
    requires i < |names| && Distinct(names[..i])
    requires forall k :: k in others ==> k.agentId != agentId
    ensures var key := ToolKey(agentId, Builtin, names[i]);
            var present := others + ToolsFor(agentId, names[..i]);
            && (key in present <==> names[i] in names[..i])
            && present[key := ToolRow(i, None)] == others + ToolsFor(agentId, names[..i + 1])
  {
    ToolsForHolds(agentId, names[..i]);
    assert names[..i + 1][..i] == names[..i];
  }

  class Importer {
    var models: Table<ModelRow>
    var servers: Table<ServerRow>
    var agents: Table<AgentRow>
    var tools: map<ToolKey, ToolRow>
    var links: set<Link>
    const limits: Limits

    ghost function Contents(): Db
      reads this
    {
      Db(models, servers, agents, tools, links, limits)
    }

    constructor (db: Db)
      ensures Contents() == db
    {
      models, servers, agents, tools, links := db.models, db.servers, db.agents, db.tools, db.links;
      limits := db.limits;
    }

    method WriteModel(m: ModelItem)
      modifies this`models
      ensures models == Upsert(AssignModel, BlankModel, old(models), Entry(m.name, ModelPatchOf(m)))
    {
      if m.name in models.rows {
        var existing := models.rows[m.name];
        models := models.(rows := models.rows[m.name := existing.(typ := m.typ, baseUrl := m.baseUrl, modelName := m.modelName)]);
      } else {
        var created := ModelRow(models.nextId, m.typ, m.baseUrl, m.modelName, "chat", false, "", "", "{}");
        models := Table(models.rows[m.name := created], models.nextId + 1);
      }
    }

    method ImportModels(items: seq<ModelItem>) returns (r: Result<(), Error>)
      modifies this`models
      ensures r.Ok? <==> ModelsFit(limits, items)
      ensures r.Ok? ==> Contents() == WithModels(old(Contents()), items)
    {
      for i := 0 to |items|
        invariant ModelsFit(limits, items[..i])
        invariant models == ModelsAfter(old(models), items[..i])
      {
        ModelsAfterOneMore(old(models), items, i);
        ModelsFitNext(limits, items, i);
        var fits := ModelFits(limits, items[i]);
        if !fits {
          return Err(ConstraintViolation);
        }
        WriteModel(items[i]);
      }
      assert items[..|items|] == items;
      return Ok(());
    }

    method WriteServer(s: ServerItem)
      modifies this`servers
      ensures servers == Upsert(AssignServer, BlankServer, old(servers), Entry(s.name, ServerPatchOf(s)))
    {
      var args := NonEmpty(s.args);
      var clean := CleanEnv(s.env);
      var env := if clean == map[] then None else Some(clean);
      var headers := NonEmpty(s.forwardHeaders);
      if s.name in servers.rows {
        var existing := servers.rows[s.name].(typ := s.typ, command := s.command, url := s.url);
        if args.Some? {
          existing := existing.(args := args);
        }
        if env.Some? {
          existing := existing.(env := env);
        }
        if headers.Some? {
          existing := existing.(forwardHeaders := headers);
        }
        servers := servers.(rows := servers.rows[s.name := existing]);
      } else {
        var created := ServerRow(servers.nextId, s.typ, s.command, s.url, args, env, headers, "none", "", "", "", true);
        servers := Table(servers.rows[s.name := created], servers.nextId + 1);
      }
    }

    method ImportServers(items: seq<ServerItem>) returns (r: Result<(), Error>)
      modifies this`servers
      ensures r.Ok? <==> ServersFit(limits, items)
      ensures r.Ok? ==> Contents() == WithServers(old(Contents()), items)
    {
      for i := 0 to |items|
        invariant ServersFit(limits, items[..i])
        invariant servers == ServersAfter(old(servers), items[..i])
      {
        ServersAfterOneMore(old(servers), items, i);
        ServersFitNext(limits, items, i);
        var fits := ServerFits(limits, items[i]);
        if !fits {
          return Err(ConstraintViolation);
        }
        WriteServer(items[i]);
      }
      assert items[..|items|] == items;
      return Ok(());
    }

    method WriteAgent(item: AgentItem) returns (id: nat)
      modifies this`agents
      ensures agents == Upsert(AssignAgent, BlankAgent, old(agents), Entry(item.name, AgentPatchOf(models.rows, item)))
      ensures item.name in agents.rows && id == agents.rows[item.name].id
      ensures forall n :: n in old(agents).rows ==> n in agents.rows && agents.rows[n].id == old(agents).rows[n].id
    {
      var patch := AgentPatchOf(models.rows, item);
      if item.name in agents.rows {
        var existing := agents.rows[item.name];
        agents := agents.(rows := agents.rows[item.name := AssignAgent(existing, patch)]);
        return existing.id;
      } else {
        var created := AssignAgent(BlankAgent(agents.nextId), patch);
        agents := Table(agents.rows[item.name := created], agents.nextId + 1);
        return created.id;
      }
    }

    method CheckAgent(item: AgentItem) returns (r: Result<(), Error>)
      ensures r.Ok? <==> AgentFits(limits, models.rows, item)
    {
      if item.modelName != "" && item.modelName !in models.rows {
        return Err(ModelNotFound);
      }
      if WithDefaults(item).lifecycle !in limits.lifecycles || WithDefaults(item).toolExecution !in limits.toolExecutions {
        return Err(ConstraintViolation);
      }
      return Ok(());
    }

    /** The first pass over agents; `ids` remembers the row of each name for the second. */
    method UpsertAgents(items: seq<AgentItem>) returns (r: Result<map<string, nat>, Error>)
      modifies this`agents
      ensures r.Ok? <==> AllAgentsFit(limits, models.rows, items)
      ensures r.Ok? ==> Contents() == WithAgents(old(Contents()), items)
      ensures r.Ok? ==> IdsRecorded(r.value, agents.rows, items)
    {
      var ids: map<string, nat> := map[];
      ghost var known := models.rows;
      for i := 0 to |items|
        invariant models.rows == known
        invariant AllAgentsFit(limits, known, items[..i])
        invariant agents == AgentsAfter(old(agents), known, items[..i])
        invariant IdsRecorded(ids, agents.rows, items[..i])
      {
        AgentsAfterOneMore(old(agents), known, items, i);
        FitsSnoc(limits, known, servers.rows, items, i);
        var check := CheckAgent(items[i]);
        if check.Err? {
          return Err(check.error);
        }
        ghost var before := agents.rows;
        var id := WriteAgent(items[i]);
        IdRecorded(ids, before, agents.rows, items, i);
        ids := ids[items[i].name := id];
      }
      assert items[..|items|] == items;
      return Ok(ids);
    }

    method SyncTools(agentId: nat, names: seq<string>) returns (r: Result<(), Error>)
      modifies this`tools
      ensures r.Ok? <==> Distinct(names)
      ensures r.Ok? ==> tools == WithoutTools(old(tools), agentId) + ToolsFor(agentId, names)
    {
      tools := WithoutTools(tools, agentId);
      ghost var others := tools;
      for i := 0 to |names|
        invariant Distinct(names[..i])
        invariant tools == others + ToolsFor(agentId, names[..i])
      {
        ToolInserted(others, agentId, names, i);
        var key := ToolKey(agentId, Builtin, names[i]);
        if key in tools {
          var k :| 0 <= k < i && names[k] == names[i];
          return Err(ConstraintViolation);
        }
        assert names[..i + 1] == names[..i] + [names[i]];
        tools := tools[key := ToolRow(i, None)];
      }
      assert names[..|names|] == names;
      return Ok(());
    }

    method SyncLinks(agentId: nat, names: seq<string>) returns (r: Result<(), Error>)
      requires IdsUnique(ServerId, servers)
      modifies this`links
      ensures r.Ok? <==> Distinct(names) && forall n :: n in names ==> n in servers.rows
      ensures r.Ok? ==> links == WithoutLinks(old(links), agentId) + LinksFor(agentId, servers.rows, names)
    {
      links := WithoutLinks(links, agentId);
      ghost var others := links;
      for i := 0 to |names|
        invariant Distinct(names[..i]) && forall n :: n in names[..i] ==> n in servers.rows
        invariant links == others + LinksFor(agentId, servers.rows, names[..i])
      {
        assert names[..i + 1] == names[..i] + [names[i]];
        if names[i] !in servers.rows {
          return Err(ServerNotFound);
        }
        var link := Link(agentId, servers.rows[names[i]].id);
        if link in links {
          var n :| n in names[..i] && n in servers.rows && ServerId(servers.rows[n]) == ServerId(servers.rows[names[i]]);
          var k :| 0 <= k < i && names[k] == n;
          return Err(ConstraintViolation);
        }
        links := links + {link};
      }
      assert names[..|names|] == names;
      return Ok(());
    }

    method SyncAgentRelations(agentId: nat, item: AgentItem) returns (r: Result<(), Error>)
      requires IdsUnique(ServerId, servers)
      modifies this`tools, this`links
      ensures r.Ok? <==> RelationsFit(servers.rows, item)
      ensures r.Ok? ==> Contents() == SyncAgent(old(Contents()), agentId, item)
    {
      r := SyncTools(agentId, item.tools);
      if r.Ok? {
        r := SyncLinks(agentId, item.servers);
      }
    }

    /** The second pass. */
    method SyncAgents(ids: map<string, nat>, items: seq<AgentItem>) returns (r: Result<(), Error>)
      requires IdsUnique(ServerId, servers) && IdsRecorded(ids, agents.rows, items)
      modifies this`tools, this`links
      ensures r.Ok? <==> AllRelationsFit(servers.rows, items)
      ensures r.Ok? ==> Contents() == SyncAll(old(Contents()), items)
    {
      ghost var start := Contents();
      for i := 0 to |items|
        invariant AllRelationsFit(servers.rows, items[..i])
        invariant Contents() == SyncAll(start, items[..i])
      {
        assert items[..i + 1][..i] == items[..i] && items[i] in items;
        SyncKeepsRows(start, items[..i]);
        FitsSnoc(limits, models.rows, servers.rows, items, i);
        var done := SyncAgentRelations(ids[items[i].name], items[i]);
        if done.Err? {
          return Err(done.error);
        }
      }
      assert items[..|items|] == items;
      return Ok(());
    }

    method ImportAgents(items: seq<AgentItem>) returns (r: Result<(), Error>)
      requires IdsUnique(ServerId, servers)
      modifies this`agents, this`tools, this`links
      ensures r.Ok? <==> AllAgentsFit(limits, models.rows, items) && AllRelationsFit(servers.rows, items)
      ensures r.Ok? ==> Contents() == SyncAll(WithAgents(old(Contents()), items), items)
    {
      var written := UpsertAgents(items);
      if written.Err? {
        return Err(written.error);
      }
      r := SyncAgents(written.value, items);
    }

    method RunTransaction(cfg: Config) returns (r: Result<(), Error>)
      requires Consistent(Contents())
      modifies this
      ensures r.Ok? <==> Fits(old(Contents()), cfg)
      ensures r.Ok? ==> Contents() == Imported(old(Contents()), cfg)
    {
      AssignmentsKeepIds();
      UpsertAllKeepsIds(AssignServer, BlankServer, ServerId, servers, ServerEntries(cfg.servers));
      r := ImportModels(cfg.models);
      if r.Err? {
        return;
      }
      r := ImportServers(cfg.servers);
      if r.Err? {
        return;
      }
      r := ImportAgents(cfg.agents);
    }

    /** A failure anywhere leaves the tables as they were. */
    method ImportYaml(cfg: Config) returns (r: Result<(), Error>)
      requires Consistent(Contents())
      modifies this
      ensures r.Ok? <==> Fits(old(Contents()), cfg)
      ensures Contents() == if r.Ok? then Imported(old(Contents()), cfg) else old(Contents())
    {
      var models0, servers0, agents0, tools0, links0 := models, servers, agents, tools, links;
      r := RunTransaction(cfg);
      if r.Err? {
        models, servers, agents, tools, links := models0, servers0, agents0, tools0, links0;
      }
    }
  }
}
