/** What an export shows of API keys and environment values, and what an import does to those that are stored. */
module ImportSecrets {
  import opened Wrappers
  import opened Upserts
  import opened ConfigStore
  import opened ConfigImport
  import opened ConfigExport

  /** The environment that the last item of a server with a value that is not a placeholder brings. */
  function LastEnv(items: seq<ServerItem>, name: string): Option<map<string, string>> {
    if items == [] then None
    else
      var last := items[|items| - 1];
      if last.name == name && CleanEnv(last.env) != map[] then Some(CleanEnv(last.env))
      else LastEnv(items[..|items| - 1], name)
  }

  lemma {:induction false} CombinedEnv(items: seq<ServerItem>, name: string)
    ensures match Combined(MergeServer, ServerEntries(items), name)
            case None => LastEnv(items, name) == None
            case Some(patch) => patch.env == LastEnv(items, name)
  {
    if items != [] {
      var front := items[..|items| - 1];
      CombinedEnv(front, name);
      assert ServerEntries(items)[..|items| - 1] == ServerEntries(front);
    }
  }

  /** The environment of a stored server after a whole import, repeated names included. */
  lemma EnvironmentAfter(db: Db, cfg: Config, name: string)
    requires name in db.servers.rows
    ensures name in Imported(db, cfg).servers.rows
    ensures Imported(db, cfg).servers.rows[name].env == OrElse(LastEnv(cfg.servers, name), db.servers.rows[name].env)
  {
    AssignmentsMerge();
    CombinedEnv(cfg.servers, name);
    var start, id := RowAfter(AssignServer, MergeServer, BlankServer, db.servers, ServerEntries(cfg.servers), name);
    SyncKeepsRows(WithAgents(WithServers(WithModels(db, cfg.models), cfg.servers), cfg.agents), cfg.agents);
  }

  /** A stored environment survives an import exactly when no item brings real values or the last to do so brings the same. */
  lemma EnvironmentSurvivesIff(db: Db, cfg: Config, name: string)
    requires name in db.servers.rows
    ensures name in Imported(db, cfg).servers.rows
    ensures Imported(db, cfg).servers.rows[name].env == db.servers.rows[name].env
       <==> LastEnv(cfg.servers, name).None? || LastEnv(cfg.servers, name) == db.servers.rows[name].env
  {
    EnvironmentAfter(db, cfg, name);
  }

  predicate Holds(env: Option<map<string, string>>, key: string, value: string) {
    env.Some? && key in env.value && env.value[key] == value
  }

  /** One stored value survives exactly when no item of its server brings real values or the last to do so repeats it. */
  lemma SecretSurvivesIff(db: Db, cfg: Config, name: string, key: string, value: string)
    requires name in db.servers.rows && Holds(db.servers.rows[name].env, key, value)
    ensures name in Imported(db, cfg).servers.rows
    ensures Holds(Imported(db, cfg).servers.rows[name].env, key, value)
       <==> LastEnv(cfg.servers, name).None? || Holds(LastEnv(cfg.servers, name), key, value)
  {
    EnvironmentAfter(db, cfg, name);
  }

  /** Changing one of two values and leaving the other masked, as it was exported, loses the other. */
  lemma MaskedNeighbourIsLost(db: Db, item: ServerItem, changed: string, masked: string, updated: string, secret: string)
    requires item.name in db.servers.rows && changed != masked && !IsEnvPlaceholder(updated)
    requires item.env == map[changed := updated, masked := MaskOf(masked)]
    requires Holds(db.servers.rows[item.name].env, masked, secret)
    ensures var after := Imported(db, Config([], [item], []));
            item.name in after.servers.rows && after.servers.rows[item.name].env == Some(map[changed := updated])
  {
    EnvironmentAfter(db, Config([], [item], []), item.name);
    assert IsEnvPlaceholder(MaskOf(masked));
    assert CleanEnv(item.env) == map[changed := updated];
    assert changed in CleanEnv(item.env);
  }

  /** No import touches an API key of a model that exists. */
  lemma ApiKeysSurvive(db: Db, cfg: Config, name: string)
    requires name in db.models.rows
    ensures name in Imported(db, cfg).models.rows
    ensures Imported(db, cfg).models.rows[name].apiKey == db.models.rows[name].apiKey
  {
    AssignmentsMerge();
    var start, id := RowAfter(AssignModel, MergeModel, BlankModel, db.models, ModelEntries(cfg.models), name);
    SyncKeepsRows(WithAgents(WithServers(WithModels(db, cfg.models), cfg.servers), cfg.agents), cfg.agents);
  }

  // ----- Exports

  /** The same server, with the same environment names, whatever their values. */
  ghost predicate SameButValues(a: ServerRow, b: ServerRow) {
    && b == a.(env := b.env)
    && (a.env.None? <==> b.env.None?)
    && (a.env.Some? && b.env.Some? ==> a.env.value.Keys == b.env.value.Keys)
  }

  ghost predicate SameButSecrets(a: Db, b: Db) {
    && a.agents == b.agents && a.tools == b.tools && a.links == b.links
    && a.models.rows.Keys == b.models.rows.Keys && a.servers.rows.Keys == b.servers.rows.Keys
    && (forall n :: n in a.models.rows ==> b.models.rows[n] == a.models.rows[n].(apiKey := b.models.rows[n].apiKey))
    && (forall n :: n in a.servers.rows ==> SameButValues(a.servers.rows[n], b.servers.rows[n]))
  }

  lemma SameServerItem(name: string, a: ServerRow, b: ServerRow)
    requires SameButValues(a, b)
    ensures ExportServer(name, a) == ExportServer(name, b)
  {
    if a.env.Some? {
      assert MaskedEnv(a.env.value) == MaskedEnv(b.env.value);
    }
  }

  /** An export tells no secret: databases that differ in secrets only have the same exports. */
  lemma ExportHidesSecrets(a: Db, b: Db, cfg: Config)
    requires SameButSecrets(a, b) && IsExport(a, cfg)
    ensures IsExport(b, cfg)
  {
    forall n | n in a.servers.rows
      ensures ExportServer(n, a.servers.rows[n]) == ExportServer(n, b.servers.rows[n])
    {
      SameServerItem(n, a.servers.rows[n], b.servers.rows[n]);
    }
    forall n | n in a.models.rows
      ensures ExportModel(n, a.models.rows[n]) == ExportModel(n, b.models.rows[n])
    {}
    forall item | item in cfg.agents
      ensures IsAgentExport(b, item)
    {
      assert IsAgentExport(a, item);
    }
  }

  /** Every environment name is exported with a placeholder of that name for its value. */
  lemma ExportMasks(db: Db, cfg: Config, item: ServerItem)
    requires IsExport(db, cfg) && item in cfg.servers
    ensures item.name in db.servers.rows
    ensures var env := db.servers.rows[item.name].env;
            item.env.Keys == if env.Some? then env.value.Keys else {}
    ensures forall k :: k in item.env ==> item.env[k] == "${" + k + "}"
  {
    var row := db.servers.rows[item.name];
    assert item == ExportServer(item.name, row);
  }
}
