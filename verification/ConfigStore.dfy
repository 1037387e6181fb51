/** The configuration tables and the records that export writes and import reads. */
module ConfigStore {
  import opened Wrappers
  import opened Digraph
  import opened Upserts

  // ----- Rows

  datatype ModelRow = ModelRow(id: nat, typ: string, baseUrl: string, modelName: string,
                               kind: string, isDefault: bool, apiKey: string, apiVersion: string, config: string)

  datatype ServerRow = ServerRow(id: nat, typ: string, command: string, url: string, args: Option<seq<string>>,
                                 env: Option<map<string, string>>, forwardHeaders: Option<seq<string>>,
                                 authType: string, authKeyEnv: string, authTokenEnv: string, authClientId: string,
                                 enabled: bool)

  datatype AgentRow = AgentRow(id: nat, modelId: Option<nat>, systemPrompt: string, lifecycle: string,
                               toolExecution: string, maxSteps: int, maxContextSize: int, maxTurnDuration: int,
                               temperature: Option<real>, topP: Option<real>, maxTokens: Option<int>,
                               stopSequences: Option<seq<string>>, confirmBefore: Option<seq<string>>, isSystem: bool)

  datatype ToolKind = Builtin | Custom

  /** The unique index of the tool table. */
  datatype ToolKey = ToolKey(agentId: nat, kind: ToolKind, name: string)

  datatype ToolRow = ToolRow(order: int, config: Option<string>)

  datatype Link = Link(agentId: nat, serverId: nat)

  /** The values the check constraints allow. */
  datatype Limits = Limits(modelTypes: set<string>, serverTypes: set<string>, lifecycles: set<string>,
                           toolExecutions: set<string>)

  const MIGRATED_LIMITS := Limits(
    {"ollama", "openai_compatible", "anthropic", "azure_openai"},
    {"stdio", "http", "sse", "streamable-http"},
    {"persistent", "spawn"},
    {"sequential", "parallel"})

  datatype Db = Db(models: Table<ModelRow>, servers: Table<ServerRow>, agents: Table<AgentRow>,
                   tools: map<ToolKey, ToolRow>, links: set<Link>, limits: Limits)

  function ModelId(r: ModelRow): nat { r.id }

  function ServerId(r: ServerRow): nat { r.id }

  function AgentId(r: AgentRow): nat { r.id }

  /** Identifiers are unique, references resolve, and the check constraints hold. */
  ghost predicate Consistent(db: Db) {
    && IdsUnique(ModelId, db.models) && IdsUnique(ServerId, db.servers) && IdsUnique(AgentId, db.agents)
    && (forall n :: n in db.models.rows ==> db.models.rows[n].typ in db.limits.modelTypes)
    && (forall n :: n in db.servers.rows ==> db.servers.rows[n].typ in db.limits.serverTypes)
    && (forall n :: n in db.agents.rows ==>
          && db.agents.rows[n].lifecycle in db.limits.lifecycles
          && db.agents.rows[n].toolExecution in db.limits.toolExecutions
          && (db.agents.rows[n].modelId.Some? ==> HasModel(db, db.agents.rows[n].modelId.value)))
    && (forall k :: k in db.tools ==> HasAgent(db, k.agentId))
    && (forall l :: l in db.links ==> HasAgent(db, l.agentId) && HasServer(db, l.serverId))
  }

  ghost predicate HasModel(db: Db, id: nat) {
    exists n :: n in db.models.rows && db.models.rows[n].id == id
  }

  ghost predicate HasServer(db: Db, id: nat) {
    exists n :: n in db.servers.rows && db.servers.rows[n].id == id
  }

  ghost predicate HasAgent(db: Db, id: nat) {
    exists n :: n in db.agents.rows && db.agents.rows[n].id == id
  }

  // ----- Records

  datatype ModelItem = ModelItem(name: string, typ: string, baseUrl: string, modelName: string)

  datatype ServerItem = ServerItem(name: string, typ: string, command: string, args: seq<string>, url: string,
                                   env: map<string, string>, forwardHeaders: seq<string>)

  datatype AgentItem = AgentItem(name: string, systemPrompt: string, modelName: string, lifecycle: string,
                                 toolExecution: string, maxSteps: int, maxContextSize: int, maxTurnDuration: int,
                                 temperature: Option<real>, topP: Option<real>, maxTokens: Option<int>,
                                 stopSequences: seq<string>, confirmBefore: seq<string>,
                                 tools: seq<string>, servers: seq<string>)

  datatype Config = Config(models: seq<ModelItem>, servers: seq<ServerItem>, agents: seq<AgentItem>)

  // ----- What an item writes

  datatype ModelPatch = ModelPatch(typ: string, baseUrl: string, modelName: string)

  datatype ServerPatch = ServerPatch(typ: string, command: string, url: string, args: Option<seq<string>>,
                                     env: Option<map<string, string>>, forwardHeaders: Option<seq<string>>)

  datatype AgentPatch = AgentPatch(modelId: Option<nat>, systemPrompt: string, lifecycle: string, toolExecution: string,
                                   maxSteps: int, maxContextSize: int, maxTurnDuration: int,
                                   temperature: Option<real>, topP: Option<real>, maxTokens: Option<int>,
                                   stopSequences: Option<seq<string>>, confirmBefore: Option<seq<string>>)

  /** The API key and everything else an item does not carry stay. */
  function AssignModel(r: ModelRow, p: ModelPatch): ModelRow {
    r.(typ := p.typ, baseUrl := p.baseUrl, modelName := p.modelName)
  }

  function BlankModel(id: nat): ModelRow {
    ModelRow(id, "", "", "", "chat", false, "", "", "{}")
  }

  function MergeModel(first: ModelPatch, later: ModelPatch): ModelPatch {
    later
  }

  /** Arguments, environment and headers are kept unless the item brings some. */
  function AssignServer(r: ServerRow, p: ServerPatch): ServerRow {
    r.(typ := p.typ, command := p.command, url := p.url, args := OrElse(p.args, r.args), env := OrElse(p.env, r.env),
       forwardHeaders := OrElse(p.forwardHeaders, r.forwardHeaders))
  }

  function BlankServer(id: nat): ServerRow {
    ServerRow(id, "", "", "", None, None, None, "none", "", "", "", true)
  }

  function MergeServer(first: ServerPatch, later: ServerPatch): ServerPatch {
    later.(args := OrElse(later.args, first.args), env := OrElse(later.env, first.env),
           forwardHeaders := OrElse(later.forwardHeaders, first.forwardHeaders))
  }

  function AssignAgent(r: AgentRow, p: AgentPatch): AgentRow {
    AgentRow(r.id, p.modelId, p.systemPrompt, p.lifecycle, p.toolExecution, p.maxSteps, p.maxContextSize,
             p.maxTurnDuration, p.temperature, p.topP, p.maxTokens, p.stopSequences, p.confirmBefore, r.isSystem)
  }

  function BlankAgent(id: nat): AgentRow {
    AgentRow(id, None, "", "", "", 0, 0, 0, None, None, None, None, None, false)
  }

  function MergeAgent(first: AgentPatch, later: AgentPatch): AgentPatch {
    later
  }

  lemma AssignmentsMerge()
    ensures Merges(AssignModel, MergeModel) && Absorbs(AssignModel)
    ensures Merges(AssignServer, MergeServer) && Absorbs(AssignServer)
    ensures Merges(AssignAgent, MergeAgent) && Absorbs(AssignAgent)
  {}

  lemma AssignmentsKeepIds()
    ensures forall r, p :: ModelId(AssignModel(r, p)) == ModelId(r)
    ensures forall r, p :: ServerId(AssignServer(r, p)) == ServerId(r)
    ensures forall r, p :: AgentId(AssignAgent(r, p)) == AgentId(r)
  {}

  // ----- Placeholders

  const PLACEHOLDER_START := "${"

  function MaskOf(name: string): string {
    PLACEHOLDER_START + name + "}"
  }

  predicate IsEnvPlaceholder(v: string) {
    PLACEHOLDER_START <= v && |v| > 0 && v[|v| - 1] == '}'
  }

  /** Values that only stand for what is stored are dropped. */
  function CleanEnv(env: map<string, string>): map<string, string> {
    map k | k in env && !IsEnvPlaceholder(env[k]) :: env[k]
  }

  function MaskedEnv(env: map<string, string>): map<string, string> {
    map k | k in env :: MaskOf(k)
  }

  lemma MaskedEnvIsClean(env: map<string, string>)
    ensures CleanEnv(MaskedEnv(env)) == map[]
  {}

  function NonEmpty<T>(s: seq<T>): Option<seq<T>> {
    if s == [] then None else Some(s)
  }

  function ModelPatchOf(item: ModelItem): ModelPatch {
    ModelPatch(item.typ, item.baseUrl, item.modelName)
  }

  function ServerPatchOf(item: ServerItem): ServerPatch {
    var clean := CleanEnv(item.env);
    ServerPatch(item.typ, item.command, item.url, NonEmpty(item.args), if clean == map[] then None else Some(clean),
                NonEmpty(item.forwardHeaders))
  }

  function WithDefaults(item: AgentItem): AgentItem {
    item.(lifecycle := if item.lifecycle == "" then "persistent" else item.lifecycle,
          toolExecution := if item.toolExecution == "" then "sequential" else item.toolExecution,
          maxSteps := if item.maxSteps == 0 then 50 else item.maxSteps,
          maxContextSize := if item.maxContextSize == 0 then 16000 else item.maxContextSize,
          maxTurnDuration := if item.maxTurnDuration == 0 then 120 else item.maxTurnDuration)
  }

  /** The model an item names; no name means no model. */
  function ModelRef(models: map<string, ModelRow>, name: string): Option<nat> {
    if name != "" && name in models then Some(models[name].id) else None
  }

  function AgentPatchOf(models: map<string, ModelRow>, item: AgentItem): AgentPatch {
    var full := WithDefaults(item);
    AgentPatch(ModelRef(models, item.modelName), full.systemPrompt, full.lifecycle, full.toolExecution, full.maxSteps,
               full.maxContextSize, full.maxTurnDuration, full.temperature, full.topP, full.maxTokens,
               NonEmpty(full.stopSequences), NonEmpty(full.confirmBefore))
  }

  function ModelEntries(items: seq<ModelItem>): (r: seq<Entry<ModelPatch>>)
    ensures |r| == |items|
  {
    if items == [] then []
    else
      var last := items[|items| - 1];
      ModelEntries(items[..|items| - 1]) + [Entry(last.name, ModelPatchOf(last))]
  }

  function ServerEntries(items: seq<ServerItem>): (r: seq<Entry<ServerPatch>>)
    ensures |r| == |items|
  {
    if items == [] then []
    else
      var last := items[|items| - 1];
      ServerEntries(items[..|items| - 1]) + [Entry(last.name, ServerPatchOf(last))]
  }

  function AgentEntries(models: map<string, ModelRow>, items: seq<AgentItem>): (r: seq<Entry<AgentPatch>>)
    ensures |r| == |items|
  {
    if items == [] then []
    else
      var last := items[|items| - 1];
      AgentEntries(models, items[..|items| - 1]) + [Entry(last.name, AgentPatchOf(models, last))]
  }

  lemma {:induction false} ModelEntryAt(items: seq<ModelItem>, i: nat)
    requires i < |items|
    ensures ModelEntries(items)[i] == Entry(items[i].name, ModelPatchOf(items[i]))
  {
    if i < |items| - 1 {
      ModelEntryAt(items[..|items| - 1], i);
    }
  }

  lemma {:induction false} ServerEntryAt(items: seq<ServerItem>, i: nat)
    requires i < |items|
    ensures ServerEntries(items)[i] == Entry(items[i].name, ServerPatchOf(items[i]))
  {
    if i < |items| - 1 {
      ServerEntryAt(items[..|items| - 1], i);
    }
  }

  lemma {:induction false} AgentEntryAt(models: map<string, ModelRow>, items: seq<AgentItem>, i: nat)
    requires i < |items|
    ensures AgentEntries(models, items)[i] == Entry(items[i].name, AgentPatchOf(models, items[i]))
  {
    if i < |items| - 1 {
      AgentEntryAt(models, items[..|items| - 1], i);
    }
  }

  // ----- Tools and links of one agent

  function ToolsFor(agentId: nat, names: seq<string>): map<ToolKey, ToolRow> {
    if names == [] then map[]
    else ToolsFor(agentId, names[..|names| - 1])[ToolKey(agentId, Builtin, names[|names| - 1]) := ToolRow(|names| - 1, None)]
  }

  function LinksFor(agentId: nat, servers: map<string, ServerRow>, names: seq<string>): set<Link> {
    set n | n in names && n in servers :: Link(agentId, servers[n].id)
  }

  function WithoutTools(tools: map<ToolKey, ToolRow>, agentId: nat): map<ToolKey, ToolRow> {
    map k | k in tools && k.agentId != agentId :: tools[k]
  }

  function WithoutLinks(links: set<Link>, agentId: nat): set<Link> {
    set l | l in links && l.agentId != agentId
  }

  /** All tools and links of the agent are replaced by the item's. */
  function SyncAgent(db: Db, agentId: nat, item: AgentItem): Db {
    db.(tools := WithoutTools(db.tools, agentId) + ToolsFor(agentId, item.tools),
        links := WithoutLinks(db.links, agentId) + LinksFor(agentId, db.servers.rows, item.servers))
  }

  lemma {:induction false} ToolsForHolds(agentId: nat, names: seq<string>)
    requires Distinct(names)
    ensures forall k :: k in ToolsFor(agentId, names) <==> k.agentId == agentId && k.kind == Builtin && k.name in names
    ensures forall i :: 0 <= i < |names| ==>
      ToolKey(agentId, Builtin, names[i]) in ToolsFor(agentId, names)
      && ToolsFor(agentId, names)[ToolKey(agentId, Builtin, names[i])] == ToolRow(i, None)
  {
    if names != [] {
      var front, last := names[..|names| - 1], names[|names| - 1];
      assert names == front + [last];
      ToolsForHolds(agentId, front);
    }
  }

  lemma {:induction false} ToolsForOwner(agentId: nat, names: seq<string>)
    ensures forall k :: k in ToolsFor(agentId, names) ==> k.agentId == agentId
  {
    if names != [] {
      ToolsForOwner(agentId, names[..|names| - 1]);
    }
  }
}
