/** What a successful import writes, field by field, told from the items alone; the last item of a name counts. */
module ImportFields {
  import opened Wrappers
  import opened Digraph
  import opened Upserts
  import opened ConfigStore
  import opened ConfigImport
  import opened ImportLaws

  // ----- Models

  lemma ModelRowAfter(db: Db, cfg: Config, name: string) returns (start: ModelRow, id: nat)
    ensures var rows := Imported(db, cfg).models.rows;
            match Combined(MergeModel, ModelEntries(cfg.models), name)
            case None => (name in rows <==> name in db.models.rows)
                         && (name in rows && name in db.models.rows ==> rows[name] == db.models.rows[name])
            case Some(p) => name in rows && rows[name] == AssignModel(start, p)
    ensures if name in db.models.rows then start == db.models.rows[name]
            else start == BlankModel(id) && db.models.nextId <= id
  {
    AssignmentsMerge();
    start, id := RowAfter(AssignModel, MergeModel, BlankModel, db.models, ModelEntries(cfg.models), name);
    SyncKeepsRows(WithAgents(WithServers(WithModels(db, cfg.models), cfg.servers), cfg.agents), cfg.agents);
  }

  /** An imported model has the type, address and name its last item gives; everything else is kept, or the column's default. */
  lemma ImportedModel(db: Db, cfg: Config, i: nat)
    requires i < |cfg.models| && forall j :: i < j < |cfg.models| ==> cfg.models[j].name != cfg.models[i].name
    ensures var item := cfg.models[i];
            && item.name in Imported(db, cfg).models.rows
            && var row := Imported(db, cfg).models.rows[item.name];
               && row.typ == item.typ && row.baseUrl == item.baseUrl && row.modelName == item.modelName
               && if item.name in db.models.rows
                  then var old_row := db.models.rows[item.name];
                       && row.id == old_row.id && row.kind == old_row.kind && row.isDefault == old_row.isDefault
                       && row.apiKey == old_row.apiKey && row.apiVersion == old_row.apiVersion && row.config == old_row.config
                  else && db.models.nextId <= row.id && row.kind == "chat" && !row.isDefault
                       && row.apiKey == "" && row.apiVersion == "" && row.config == "{}"
  {
    var entries := ModelEntries(cfg.models);
    forall j | i <= j < |cfg.models|
      ensures entries[j] == Entry(cfg.models[j].name, ModelPatchOf(cfg.models[j]))
    {
      ModelEntryAt(cfg.models, j);
    }
    LastEntryWins(MergeModel, entries, i);
    var start, id := ModelRowAfter(db, cfg, cfg.models[i].name);
  }

  // ----- Servers

  lemma ServerRowAfter(db: Db, cfg: Config, name: string) returns (start: ServerRow, id: nat)
    ensures var rows := Imported(db, cfg).servers.rows;
            match Combined(MergeServer, ServerEntries(cfg.servers), name)
            case None => (name in rows <==> name in db.servers.rows)
                         && (name in rows && name in db.servers.rows ==> rows[name] == db.servers.rows[name])
            case Some(p) => name in rows && rows[name] == AssignServer(start, p)
    ensures if name in db.servers.rows then start == db.servers.rows[name]
            else start == BlankServer(id) && db.servers.nextId <= id
  {
    AssignmentsMerge();
    start, id := RowAfter(AssignServer, MergeServer, BlankServer, db.servers, ServerEntries(cfg.servers), name);
    SyncKeepsRows(WithAgents(WithServers(WithModels(db, cfg.models), cfg.servers), cfg.agents), cfg.agents);
  }

  lemma {:induction false} ServerWrites(items: seq<ServerItem>, i: nat)
    requires i < |items| && forall j :: i < j < |items| ==> items[j].name != items[i].name
    ensures var written := Combined(MergeServer, ServerEntries(items), items[i].name);
            && written.Some? && written.value.typ == items[i].typ && written.value.command == items[i].command
            && written.value.url == items[i].url
  {
    var front := items[..|items| - 1];
    assert ServerEntries(items)[..|items| - 1] == ServerEntries(front);
    if i < |items| - 1 {
      ServerWrites(front, i);
    }
  }

  /** An imported server has the type, command and address its last item gives; how it authenticates is kept, or the default. */
  lemma ImportedServer(db: Db, cfg: Config, i: nat)
    requires i < |cfg.servers| && forall j :: i < j < |cfg.servers| ==> cfg.servers[j].name != cfg.servers[i].name
    ensures var item := cfg.servers[i];
            && item.name in Imported(db, cfg).servers.rows
            && var row := Imported(db, cfg).servers.rows[item.name];
               && row.typ == item.typ && row.command == item.command && row.url == item.url
               && if item.name in db.servers.rows
                  then var old_row := db.servers.rows[item.name];
                       && row.id == old_row.id && row.authType == old_row.authType && row.authKeyEnv == old_row.authKeyEnv
                       && row.authTokenEnv == old_row.authTokenEnv && row.authClientId == old_row.authClientId
                       && row.enabled == old_row.enabled
                  else && db.servers.nextId <= row.id && row.authType == "none" && row.authKeyEnv == ""
                       && row.authTokenEnv == "" && row.authClientId == "" && row.enabled
  {
    ServerWrites(cfg.servers, i);
    var start, id := ServerRowAfter(db, cfg, cfg.servers[i].name);
  }

  /** The last item of the name that brings something, or -1 if none does. */
  ghost predicate LastToBring<T>(brought: ServerItem -> Option<T>, items: seq<ServerItem>, name: string, i: int) {
    && -1 <= i < |items|
    && (i >= 0 ==> items[i].name == name && brought(items[i]).Some?)
    && forall j :: i < j < |items| && items[j].name == name ==> brought(items[j]).None?
  }

  lemma {:induction false} LastBroughtIsWritten<T>(brought: ServerItem -> Option<T>, written: ServerPatch -> Option<T>,
                                                   items: seq<ServerItem>, name: string, i: int)
    requires forall item :: written(ServerPatchOf(item)) == brought(item)
    requires forall p, q :: written(MergeServer(p, q)) == OrElse(written(q), written(p))
    requires LastToBring(brought, items, name, i)
    ensures var all := Combined(MergeServer, ServerEntries(items), name);
            all.Some? ==> written(all.value) == if i >= 0 then brought(items[i]) else None
    ensures i >= 0 ==> Combined(MergeServer, ServerEntries(items), name).Some?
  {
    if items != [] {
      var front, last := items[..|items| - 1], items[|items| - 1];
      assert ServerEntries(items)[..|items| - 1] == ServerEntries(front);
      if i < |front| {
        LastBroughtIsWritten(brought, written, front, name, i);
      }
    }
  }

  function ItemArgs(item: ServerItem): Option<seq<string>> {
    NonEmpty(item.args)
  }

  function ItemHeaders(item: ServerItem): Option<seq<string>> {
    NonEmpty(item.forwardHeaders)
  }

  /** The environment values that are not placeholders, if there are any. */
  function ItemEnv(item: ServerItem): Option<map<string, string>> {
    var meant := map k | k in item.env && !IsEnvPlaceholder(item.env[k]) :: item.env[k];
    if meant == map[] then None else Some(meant)
  }

  /** A value is a placeholder exactly when it is some text between a dollar sign with an opening brace and a closing one. */
  lemma PlaceholderIff(v: string)
    ensures IsEnvPlaceholder(v) <==> exists m: string :: v == "${" + m + "}"
  {
    if IsEnvPlaceholder(v) {
      assert v == "${" + v[2..|v| - 1] + "}";
    }
  }

  /** Arguments are those of the last item that brings any; if none does, they are kept. */
  lemma ImportedArguments(db: Db, cfg: Config, name: string, i: int)
    requires LastToBring(ItemArgs, cfg.servers, name, i)
    ensures i >= 0 ==> name in Imported(db, cfg).servers.rows
    ensures name in Imported(db, cfg).servers.rows ==>
      Imported(db, cfg).servers.rows[name].args
      == if i >= 0 then Some(cfg.servers[i].args) else if name in db.servers.rows then db.servers.rows[name].args else None
  {
    LastBroughtIsWritten(ItemArgs, (p: ServerPatch) => p.args, cfg.servers, name, i);
    var start, id := ServerRowAfter(db, cfg, name);
  }

  lemma ImportedHeaders(db: Db, cfg: Config, name: string, i: int)
    requires LastToBring(ItemHeaders, cfg.servers, name, i)
    ensures i >= 0 ==> name in Imported(db, cfg).servers.rows
    ensures name in Imported(db, cfg).servers.rows ==>
      Imported(db, cfg).servers.rows[name].forwardHeaders
      == if i >= 0 then Some(cfg.servers[i].forwardHeaders)
         else if name in db.servers.rows then db.servers.rows[name].forwardHeaders else None
  {
    LastBroughtIsWritten(ItemHeaders, (p: ServerPatch) => p.forwardHeaders, cfg.servers, name, i);
    var start, id := ServerRowAfter(db, cfg, name);
  }

  lemma ImportedEnvironment(db: Db, cfg: Config, name: string, i: int)
    requires LastToBring(ItemEnv, cfg.servers, name, i)
    ensures i >= 0 ==> name in Imported(db, cfg).servers.rows
    ensures name in Imported(db, cfg).servers.rows ==>
      Imported(db, cfg).servers.rows[name].env
      == if i >= 0 then ItemEnv(cfg.servers[i]) else if name in db.servers.rows then db.servers.rows[name].env else None
  {
    LastBroughtIsWritten(ItemEnv, (p: ServerPatch) => p.env, cfg.servers, name, i);
    var start, id := ServerRowAfter(db, cfg, name);
  }

  // ----- Agents

  lemma AgentRowImported(db: Db, cfg: Config, name: string) returns (start: AgentRow, id: nat)
    ensures var rows := Imported(db, cfg).agents.rows;
            match Combined(MergeAgent, AgentEntries(WithModels(db, cfg.models).models.rows, cfg.agents), name)
            case None => (name in rows <==> name in db.agents.rows)
                         && (name in rows && name in db.agents.rows ==> rows[name] == db.agents.rows[name])
            case Some(p) => name in rows && rows[name] == AssignAgent(start, p)
    ensures if name in db.agents.rows then start == db.agents.rows[name]
            else start == BlankAgent(id) && db.agents.nextId <= id
  {
    AssignmentsMerge();
    var models := WithModels(db, cfg.models).models.rows;
    start, id := RowAfter(AssignAgent, MergeAgent, BlankAgent, db.agents, AgentEntries(models, cfg.agents), name);
    SyncKeepsRows(WithAgents(WithServers(WithModels(db, cfg.models), cfg.servers), cfg.agents), cfg.agents);
  }

  predicate OrDefault<T(==)>(written: T, given: T, empty: T, default: T) {
    written == if given == empty then default else given
  }

  /** A list is stored as it is given, an empty one as nothing. */
  predicate StoredList(written: Option<seq<string>>, given: seq<string>) {
    if given == [] then written == None else written == Some(given)
  }

  /** The row says what the item says, defaults filled in. */
  predicate CarriesItem(row: AgentRow, item: AgentItem) {
    && row.systemPrompt == item.systemPrompt
    && OrDefault(row.lifecycle, item.lifecycle, "", "persistent")
    && OrDefault(row.toolExecution, item.toolExecution, "", "sequential")
    && OrDefault(row.maxSteps, item.maxSteps, 0, 50)
    && OrDefault(row.maxContextSize, item.maxContextSize, 0, 16000)
    && OrDefault(row.maxTurnDuration, item.maxTurnDuration, 0, 120)
    && row.temperature == item.temperature && row.topP == item.topP && row.maxTokens == item.maxTokens
    && StoredList(row.stopSequences, item.stopSequences) && StoredList(row.confirmBefore, item.confirmBefore)
  }

  /** An imported agent carries its last item; it keeps its identifier, and whether it is a system agent. */
  lemma ImportedAgent(db: Db, cfg: Config, i: nat)
    requires i < |cfg.agents| && forall j :: i < j < |cfg.agents| ==> cfg.agents[j].name != cfg.agents[i].name
    ensures var item := cfg.agents[i];
            && item.name in Imported(db, cfg).agents.rows
            && var row := Imported(db, cfg).agents.rows[item.name];
               && CarriesItem(row, item)
               && if item.name in db.agents.rows
                  then row.id == db.agents.rows[item.name].id && row.isSystem == db.agents.rows[item.name].isSystem
                  else db.agents.nextId <= row.id && !row.isSystem
  {
    var models := WithModels(db, cfg.models).models.rows;
    var entries := AgentEntries(models, cfg.agents);
    forall j | i <= j < |cfg.agents|
      ensures entries[j] == Entry(cfg.agents[j].name, AgentPatchOf(models, cfg.agents[j]))
    {
      AgentEntryAt(models, cfg.agents, j);
    }
    LastEntryWins(MergeAgent, entries, i);
    var start, id := AgentRowImported(db, cfg, cfg.agents[i].name);
  }

  // ----- What an import leaves alone

  /** A row whose name no item brings is as it was, and no row appears without one. */
  lemma UnnamedRowsStay(db: Db, cfg: Config, name: string)
    ensures var after := Imported(db, cfg);
            && ((forall item :: item in cfg.models ==> item.name != name) ==>
                  (name in after.models.rows <==> name in db.models.rows)
                  && (name in db.models.rows ==> after.models.rows[name] == db.models.rows[name]))
            && ((forall item :: item in cfg.servers ==> item.name != name) ==>
                  (name in after.servers.rows <==> name in db.servers.rows)
                  && (name in db.servers.rows ==> after.servers.rows[name] == db.servers.rows[name]))
            && ((forall item :: item in cfg.agents ==> item.name != name) ==>
                  (name in after.agents.rows <==> name in db.agents.rows)
                  && (name in db.agents.rows ==> after.agents.rows[name] == db.agents.rows[name]))
  {
    var models := WithModels(db, cfg.models).models.rows;
    UnnamedModel(cfg.models, name);
    UnnamedServer(cfg.servers, name);
    UnnamedAgent(models, cfg.agents, name);
    var m, m' := ModelRowAfter(db, cfg, name);
    var s, s' := ServerRowAfter(db, cfg, name);
    var a, a' := AgentRowImported(db, cfg, name);
  }

  lemma UnnamedModel(items: seq<ModelItem>, name: string)
    ensures (forall item :: item in items ==> item.name != name) ==> Combined(MergeModel, ModelEntries(items), name) == None
  {
    CombinedIffNamed(MergeModel, ModelEntries(items), name);
    forall i | 0 <= i < |items|
      ensures ModelEntries(items)[i].name == items[i].name
    {
      ModelEntryAt(items, i);
    }
  }

  lemma UnnamedServer(items: seq<ServerItem>, name: string)
    ensures (forall item :: item in items ==> item.name != name) ==> Combined(MergeServer, ServerEntries(items), name) == None
  {
    CombinedIffNamed(MergeServer, ServerEntries(items), name);
    forall i | 0 <= i < |items|
      ensures ServerEntries(items)[i].name == items[i].name
    {
      ServerEntryAt(items, i);
    }
  }

  lemma UnnamedAgent(models: map<string, ModelRow>, items: seq<AgentItem>, name: string)
    ensures (forall item :: item in items ==> item.name != name) ==>
      Combined(MergeAgent, AgentEntries(models, items), name) == None
  {
    CombinedIffNamed(MergeAgent, AgentEntries(models, items), name);
    forall i | 0 <= i < |items|
      ensures AgentEntries(models, items)[i].name == items[i].name
    {
      AgentEntryAt(models, items, i);
    }
  }

  // ----- Tools and links

  /** The agent has the tools listed, in this order, and no others. */
  ghost predicate HasTools(tools: map<ToolKey, ToolRow>, agentId: nat, names: seq<string>) {
    && (forall k :: k in tools && k.agentId == agentId ==> k.kind == Builtin && k.name in names)
    && (forall i :: 0 <= i < |names| ==>
          ToolKey(agentId, Builtin, names[i]) in tools
          && tools[ToolKey(agentId, Builtin, names[i])] == ToolRow(i, None))
  }

  /** The agent is linked to the servers listed, and to no others. */
  ghost predicate HasServers(links: set<Link>, agentId: nat, servers: map<string, ServerRow>, names: seq<string>) {
    && (forall n :: n in names ==> n in servers && Link(agentId, servers[n].id) in links)
    && (forall l :: l in links && l.agentId == agentId ==> exists n :: n in names && n in servers && servers[n].id == l.serverId)
  }

  /** The tools and links of an imported agent are those its last item lists. */
  lemma ImportedTools(db: Db, cfg: Config, i: nat)
    requires Consistent(db) && Fits(db, cfg)
    requires i < |cfg.agents| && forall j :: i < j < |cfg.agents| ==> cfg.agents[j].name != cfg.agents[i].name
    ensures var after := Imported(db, cfg);
            && cfg.agents[i].name in after.agents.rows
            && HasTools(after.tools, after.agents.rows[cfg.agents[i].name].id, cfg.agents[i].tools)
            && HasServers(after.links, after.agents.rows[cfg.agents[i].name].id, after.servers.rows, cfg.agents[i].servers)
  {
    var after, item := Imported(db, cfg), cfg.agents[i];
    LastNamedAt(cfg.agents, i);
    ImportedReferencesResolve(db, cfg, item.name);
    assert item in cfg.agents;
    var id := after.agents.rows[item.name].id;
    ToolsForHolds(id, item.tools);
    forall k | k in after.tools && k.agentId == id
      ensures k.kind == Builtin && k.name in item.tools
    {
      assert k in ToolsOf(after.tools, id);
    }
    forall j | 0 <= j < |item.tools|
      ensures ToolKey(id, Builtin, item.tools[j]) in after.tools
      ensures after.tools[ToolKey(id, Builtin, item.tools[j])] == ToolRow(j, None)
    {
      assert ToolKey(id, Builtin, item.tools[j]) in ToolsOf(after.tools, id);
    }
    forall n | n in item.servers
      ensures Link(id, after.servers.rows[n].id) in after.links
    {
      assert Link(id, after.servers.rows[n].id) in LinksOf(after.links, id);
    }
    forall l | l in after.links && l.agentId == id
      ensures exists n :: n in item.servers && n in after.servers.rows && after.servers.rows[n].id == l.serverId
    {
      assert l in LinksOf(after.links, id);
    }
  }

  lemma {:induction false} LastNamedAt(items: seq<AgentItem>, i: nat)
    requires i < |items| && forall j :: i < j < |items| ==> items[j].name != items[i].name
    ensures LastNamed(items, items[i].name) == Some(items[i])
  {
    if i < |items| - 1 {
      LastNamedAt(items[..|items| - 1], i);
    }
  }
}
