/** The export loops: each lists its table in the order the rows happen to be read. */
module ConfigExporter {
  import opened Wrappers
  import opened Digraph
  import opened ConfigStore
  import opened ImportLaws
  import opened ConfigExport

  method ExportModels(db: Db) returns (items: seq<ModelItem>)
    ensures ModelsExported(db, items)
  {
    items := [];
    var left := db.models.rows.Keys;
    while left != {}
      invariant left <= db.models.rows.Keys
      invariant forall i, j :: 0 <= i < j < |items| ==> items[i].name != items[j].name
      invariant forall item :: item in items ==>
        item.name in db.models.rows && item.name !in left && item == ExportModel(item.name, db.models.rows[item.name])
      invariant forall n :: n in db.models.rows && n !in left ==> exists item :: item in items && item.name == n
    {
      var name :| name in left;
      var item := ExportModel(name, db.models.rows[name]);
      ghost var before := items;
      items := items + [item];
      left := left - {name};
      assert forall listed :: listed in before ==> listed in items;
      assert item in items && item.name == name;
    }
  }

  method ExportServers(db: Db) returns (items: seq<ServerItem>)
    ensures ServersExported(db, items)
  {
    items := [];
    var left := db.servers.rows.Keys;
    while left != {}
      invariant left <= db.servers.rows.Keys
      invariant forall i, j :: 0 <= i < j < |items| ==> items[i].name != items[j].name
      invariant forall item :: item in items ==>
        item.name in db.servers.rows && item.name !in left && item == ExportServer(item.name, db.servers.rows[item.name])
      invariant forall n :: n in db.servers.rows && n !in left ==> exists item :: item in items && item.name == n
    {
      var name :| name in left;
      var item := ExportServer(name, db.servers.rows[name]);
      ghost var before := items;
      items := items + [item];
      left := left - {name};
      assert forall listed :: listed in before ==> listed in items;
      assert item in items && item.name == name;
    }
  }

  // ----- Reads behind one agent

  lemma {:induction false} HasFirst(tools: map<ToolKey, ToolRow>, left: set<ToolKey>) returns (first: ToolKey)
    requires left != {} && left <= tools.Keys
    ensures first in left && forall k :: k in left ==> tools[first].order <= tools[k].order
  {
    var some :| some in left;
    if left == {some} {
      first := some;
    } else {
      var rest := HasFirst(tools, left - {some});
      first := if tools[some].order <= tools[rest].order then some else rest;
      forall k | k in left ensures tools[first].order <= tools[k].order {
        assert k == some || k in left - {some};
      }
    }
  }

  /** The tools query, ordered by sort order. */
  method ToolsInOrder(tools: map<ToolKey, ToolRow>) returns (keys: seq<ToolKey>)
    ensures IsToolOrder(tools, keys)
  {
    keys := [];
    var left := tools.Keys;
    while left != {}
      invariant left <= tools.Keys
      invariant Distinct(keys) && forall k :: k in keys <==> k in tools && k !in left
      invariant forall i, j :: 0 <= i < j < |keys| ==> tools[keys[i]].order <= tools[keys[j]].order
      invariant forall i, k :: 0 <= i < |keys| && k in left ==> tools[keys[i]].order <= tools[k].order
    {
      ghost var first := HasFirst(tools, left);
      var next :| next in left && forall l :: l in left ==> tools[next].order <= tools[l].order;
      keys := keys + [next];
      left := left - {next};
    }
  }

  /** The names of the servers an agent is linked to. */
  method LinkedServers(db: Db, agentId: nat) returns (names: seq<string>)
    requires Consistent(db)
    ensures ListsServers(db, agentId, names)
  {
    names := [];
    var left := LinksOf(db.links, agentId);
    while left != {}
      invariant left <= LinksOf(db.links, agentId)
      invariant Distinct(names)
      invariant forall n :: n in names <==>
        n in db.servers.rows && Link(agentId, db.servers.rows[n].id) in LinksOf(db.links, agentId) - left
    {
      var link :| link in left;
      assert HasServer(db, link.serverId);
      var name :| name in db.servers.rows && db.servers.rows[name].id == link.serverId;
      forall n | n in db.servers.rows && db.servers.rows[n].id == link.serverId ensures n == name {
        assert ServerId(db.servers.rows[n]) == ServerId(db.servers.rows[name]);
      }
      assert link == Link(agentId, db.servers.rows[name].id);
      names := names + [name];
      left := left - {link};
    }
  }

  method ModelNameOf(db: Db, modelId: Option<nat>) returns (name: string)
    requires modelId.Some? ==> HasModel(db, modelId.value)
    ensures NamesModel(db, modelId, name)
  {
    name := "";
    if modelId.Some? {
      name :| name in db.models.rows && db.models.rows[name].id == modelId.value;
    }
  }

  method ExportOneAgent(db: Db, name: string) returns (item: AgentItem)
    requires Consistent(db) && name in db.agents.rows
    ensures item.name == name && IsAgentExport(db, item)
  {
    var row := db.agents.rows[name];
    var modelName := ModelNameOf(db, row.modelId);
    var keys := ToolsInOrder(ToolsOf(db.tools, row.id));
    var servers := LinkedServers(db, row.id);
    item := ExportAgent(name, row, modelName, KeyNames(keys), servers);
  }

  /** All agents but those left are listed. */
  ghost predicate ListedExcept(db: Db, items: seq<AgentItem>, left: set<string>) {
    && (forall i, j :: 0 <= i < j < |items| ==> items[i].name != items[j].name)
    && (forall item :: item in items ==> item.name !in left && IsAgentExport(db, item))
    && (forall n :: n in db.agents.rows && n !in left ==> exists item :: item in items && item.name == n)
  }

  lemma ListOneMore(db: Db, items: seq<AgentItem>, left: set<string>, item: AgentItem)
    requires ListedExcept(db, items, left) && item.name in left && IsAgentExport(db, item)
    ensures ListedExcept(db, items + [item], left - {item.name})
  {
    forall n | n in db.agents.rows && n !in left - {item.name}
      ensures exists listed :: listed in items + [item] && listed.name == n
    {
      if n == item.name {
        assert item in items + [item];
      } else {
        var listed :| listed in items && listed.name == n;
        assert listed in items + [item];
      }
    }
  }

  method ExportAgents(db: Db) returns (items: seq<AgentItem>)
    requires Consistent(db)
    ensures AgentsExported(db, items)
  {
    items := [];
    var left := db.agents.rows.Keys;
    while left != {}
      invariant left <= db.agents.rows.Keys
      invariant ListedExcept(db, items, left)
    {
      var name :| name in left;
      var item := ExportOneAgent(db, name);
      ListOneMore(db, items, left, item);
      items := items + [item];
      left := left - {name};
    }
  }

  method BuildExportConfig(db: Db) returns (cfg: Config)
    requires Consistent(db)
    ensures IsExport(db, cfg)
  {
    var agents := ExportAgents(db);
    var models := ExportModels(db);
    var servers := ExportServers(db);
    cfg := Config(models, servers, agents);
  }
}
