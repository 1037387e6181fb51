/** The seed cascade run at every boot: the documentation server, the builder assistant and its schema. */
module BootSeed {
  import opened Wrappers
  import opened Digraph
  import opened Upserts
  import opened ConfigStore

  datatype SchemaRow = SchemaRow(id: nat, description: string, entry: Option<nat>, chatEnabled: bool, isSystem: bool)

  datatype Site = Site(db: Db, schemas: Table<SchemaRow>)

  /** What the code brings along: the documentation address, the assistant's prompt and its builtin tools. */
  datatype Factory = Factory(docsUrl: string, prompt: string, tools: seq<string>)

  const DOCS_SERVER := "bytebrew-docs"
  const ASSISTANT := "builder-assistant"
  const BUILDER_SCHEMA := "builder-schema"
  const BUILDER_DESCRIPTION := "System schema for the AI builder assistant"

  /** All model names, in the order the repository lists them. */
  ghost predicate IsListing(models: map<string, ModelRow>, listing: seq<string>) {
    Distinct(listing) && forall n :: n in listing <==> n in models
  }

  // ----- Choosing a model

  predicate HasKey(models: map<string, ModelRow>, name: string) {
    name in models && models[name].apiKey != ""
  }

  predicate Usable(models: map<string, ModelRow>, name: string) {
    name != "" && HasKey(models, name)
  }

  predicate IsDefaultChat(models: map<string, ModelRow>, name: string) {
    name in models && models[name].isDefault && models[name].kind == "chat"
  }

  predicate IsChatWithKey(models: map<string, ModelRow>, name: string) {
    HasKey(models, name) && (models[name].kind == "" || models[name].kind == "chat")
  }

  function FirstDefault(models: map<string, ModelRow>, listing: seq<string>): Option<string> {
    if listing == [] then None
    else if IsDefaultChat(models, listing[0]) then Some(listing[0])
    else FirstDefault(models, listing[1..])
  }

  function FirstWithKey(models: map<string, ModelRow>, listing: seq<string>): string {
    if listing == [] then ""
    else if IsChatWithKey(models, listing[0]) then listing[0]
    else FirstWithKey(models, listing[1..])
  }

  /** The default chat model if it has a key, else the first chat model that has one, else none. */
  function DefaultModel(models: map<string, ModelRow>, listing: seq<string>): string {
    var preferred := FirstDefault(models, listing);
    if preferred.Some? && HasKey(models, preferred.value) then preferred.value else FirstWithKey(models, listing)
  }

  ghost predicate IdsDiffer(models: map<string, ModelRow>) {
    forall a, b :: a in models && b in models && models[a].id == models[b].id ==> a == b
  }

  function NameOfModel(models: map<string, ModelRow>, modelId: Option<nat>): string
    requires IdsDiffer(models)
  {
    var names := set n | n in models && Some(models[n].id) == modelId;
    if names == {} then ""
    else
      assert forall a, b :: a in names && b in names ==> a == b;
      var n :| n in names;
      n
  }

  /** A usable binding is kept; anything else is replaced by the default choice. */
  function Binding(models: map<string, ModelRow>, listing: seq<string>, bound: string): string {
    if Usable(models, bound) then bound else DefaultModel(models, listing)
  }

  // ----- The seeders

  function SeededDocs(db: Db, url: string): Db {
    if url == "" || DOCS_SERVER in db.servers.rows then db
    else db.(servers := Table(
               db.servers.rows[DOCS_SERVER := BlankServer(db.servers.nextId).(typ := "sse", url := url)],
               db.servers.nextId + 1))
  }

  /** The factory settings as a row; the turn limit is not part of them. */
  function FactoryRow(id: nat, modelId: Option<nat>, prompt: string, maxTurnDuration: int): AgentRow {
    AgentRow(id, modelId, prompt, "persistent", "sequential", 50, 16000, maxTurnDuration, None, None, None, None, None, true)
  }

  function WithAssistant(db: Db, factory: Factory, row: AgentRow, nextId: nat): Db {
    SyncAgentTo(db.(agents := Table(db.agents.rows[ASSISTANT := row], nextId)), row.id, factory)
  }

  function SyncAgentTo(db: Db, agentId: nat, factory: Factory): Db {
    db.(tools := WithoutTools(db.tools, agentId) + ToolsFor(agentId, factory.tools),
        links := WithoutLinks(db.links, agentId) + LinksFor(agentId, db.servers.rows, [DOCS_SERVER]))
  }

  /** The column default that an omitted turn limit gets when the row is inserted, but not when it is updated. */
  const TURN_LIMIT_DEFAULT := 120

  function SeededAssistant(db: Db, factory: Factory, listing: seq<string>): Db
    requires IdsUnique(ModelId, db.models)
  {
    ModelIdsDiffer(db.models);
    if ASSISTANT in db.agents.rows then
      var existing := db.agents.rows[ASSISTANT];
      var name := Binding(db.models.rows, listing, NameOfModel(db.models.rows, existing.modelId));
      WithAssistant(db, factory, FactoryRow(existing.id, ModelRef(db.models.rows, name), factory.prompt, 0), db.agents.nextId)
    else
      var name := DefaultModel(db.models.rows, listing);
      var id := db.agents.nextId;
      WithAssistant(db, factory, FactoryRow(id, ModelRef(db.models.rows, name), factory.prompt, TURN_LIMIT_DEFAULT), id + 1)
  }

  lemma ModelIdsDiffer(models: Table<ModelRow>)
    requires IdsUnique(ModelId, models)
    ensures IdsDiffer(models.rows)
  {
    forall a, b | a in models.rows && b in models.rows && models.rows[a].id == models.rows[b].id
      ensures a == b
    {
      assert ModelId(models.rows[a]) == ModelId(models.rows[b]);
    }
  }

  function AssistantId(db: Db): Option<nat> {
    if ASSISTANT in db.agents.rows then Some(db.agents.rows[ASSISTANT].id) else None
  }

  function SeededSchema(schemas: Table<SchemaRow>, assistant: Option<nat>): Table<SchemaRow> {
    if BUILDER_SCHEMA in schemas.rows then
      var s := schemas.rows[BUILDER_SCHEMA];
      var entry := if s.entry.None? then assistant else s.entry;
      schemas.(rows := schemas.rows[BUILDER_SCHEMA := s.(entry := entry, chatEnabled := true)])
    else
      Table(schemas.rows[BUILDER_SCHEMA := SchemaRow(schemas.nextId, BUILDER_DESCRIPTION, assistant, true, true)],
            schemas.nextId + 1)
  }

  function Boot(site: Site, factory: Factory, listing: seq<string>): Site
    requires IdsUnique(ModelId, site.db.models)
  {
    var db := SeededAssistant(SeededDocs(site.db, factory.docsUrl), factory, listing);
    Site(db, SeededSchema(site.schemas, AssistantId(db)))
  }

  class Seeder {
    var db: Db
    var schemas: Table<SchemaRow>

    ghost function Contents(): Site
      reads this
    {
      Site(db, schemas)
    }

    constructor (site: Site)
      ensures Contents() == site
    {
      db, schemas := site.db, site.schemas;
    }

    method ModelHasUsableKey(listing: seq<string>, name: string) returns (usable: bool)
      requires IsListing(db.models.rows, listing)
      ensures usable == Usable(db.models.rows, name)
    {
      if name == "" {
        return false;
      }
      for i := 0 to |listing|
        invariant name !in listing[..i]
      {
        if listing[i] == name {
          return db.models.rows[name].apiKey != "";
        }
      }
      assert listing[..|listing|] == listing;
      return false;
    }

    method EnsureDefaultModel(listing: seq<string>) returns (name: string)
      requires IsListing(db.models.rows, listing)
      ensures name == DefaultModel(db.models.rows, listing)
    {
      var preferred := FirstDefault(db.models.rows, listing);
      if preferred.Some? && HasKey(db.models.rows, preferred.value) {
        return preferred.value;
      }
      assert listing[0..] == listing;
      for i := 0 to |listing|
        invariant FirstWithKey(db.models.rows, listing) == FirstWithKey(db.models.rows, listing[i..])
      {
        assert listing[i..][1..] == listing[i + 1..];
        if IsChatWithKey(db.models.rows, listing[i]) {
          return listing[i];
        }
      }
      return "";
    }

    method SeedDocs(url: string)
      modifies this`db
      ensures db == SeededDocs(old(db), url)
    {
      if url == "" || DOCS_SERVER in db.servers.rows {
        return;
      }
      var server := ServerRow(db.servers.nextId, "sse", "", url, None, None, None, "none", "", "", "", true);
      db := db.(servers := Table(db.servers.rows[DOCS_SERVER := server], db.servers.nextId + 1));
    }

    method SeedAssistant(factory: Factory, listing: seq<string>)
      requires IdsUnique(ModelId, db.models) && IsListing(db.models.rows, listing)
      modifies this`db
      ensures db == SeededAssistant(old(db), factory, listing)
    {
      ModelIdsDiffer(db.models);
      if ASSISTANT in db.agents.rows {
        var existing := db.agents.rows[ASSISTANT];
        var name := NameOfModel(db.models.rows, existing.modelId);
        var usable := ModelHasUsableKey(listing, name);
        if name == "" || !usable {
          name := EnsureDefaultModel(listing);
        }
        var row := FactoryRow(existing.id, ModelRef(db.models.rows, name), factory.prompt, 0);
        db := WithAssistant(db, factory, row, db.agents.nextId);
        return;
      }
      var name := EnsureDefaultModel(listing);
      var row := FactoryRow(db.agents.nextId, ModelRef(db.models.rows, name), factory.prompt, TURN_LIMIT_DEFAULT);
      db := WithAssistant(db, factory, row, db.agents.nextId + 1);
    }

    method SeedSchema()
      modifies this`schemas
      ensures schemas == SeededSchema(old(schemas), AssistantId(db))
    {
      var assistant := AssistantId(db);
      if BUILDER_SCHEMA in schemas.rows {
        var s := schemas.rows[BUILDER_SCHEMA];
        if s.entry.None? && assistant.Some? {
          s := s.(entry := assistant);
        }
        schemas := schemas.(rows := schemas.rows[BUILDER_SCHEMA := s.(chatEnabled := true)]);
        return;
      }
      var row := SchemaRow(schemas.nextId, BUILDER_DESCRIPTION, assistant, true, true);
      schemas := Table(schemas.rows[BUILDER_SCHEMA := row], schemas.nextId + 1);
    }

    method BootstrapSeeds(factory: Factory, listing: seq<string>)
      requires IdsUnique(ModelId, db.models) && IsListing(db.models.rows, listing)
      modifies this
      ensures Contents() == Boot(old(Contents()), factory, listing)
    {
      SeedDocs(factory.docsUrl);
      SeedAssistant(factory, listing);
      SeedSchema();
    }
  }

  // ----- After a boot

  lemma {:induction false} FirstWithKeyIsUsable(models: map<string, ModelRow>, listing: seq<string>)
    ensures FirstWithKey(models, listing) == "" || Usable(models, FirstWithKey(models, listing))
  {
    if listing != [] {
      FirstWithKeyIsUsable(models, listing[1..]);
    }
  }

  /** The choice is no model or a model with a key; a model without a name counts as none. */
  lemma BindingIsUsable(models: map<string, ModelRow>, listing: seq<string>, bound: string)
    ensures Binding(models, listing, bound) == "" || Usable(models, Binding(models, listing, bound))
  {
    FirstWithKeyIsUsable(models, listing);
  }

  lemma NameOfRef(models: Table<ModelRow>, name: string)
    requires IdsUnique(ModelId, models) && (name == "" || name in models.rows)
    ensures IdsDiffer(models.rows)
    ensures NameOfModel(models.rows, ModelRef(models.rows, name)) == name
  {
    ModelIdsDiffer(models);
    var names := set n | n in models.rows && Some(models.rows[n].id) == ModelRef(models.rows, name);
    if name == "" {
      assert names == {};
    } else {
      assert name in names;
      assert forall n :: n in names ==> n == name;
    }
  }

  /** After every boot the assistant is unbound or bound to a model that has a key. */
  lemma AssistantBindingUsable(site: Site, factory: Factory, listing: seq<string>)
    requires IdsUnique(ModelId, site.db.models)
    ensures var db := Boot(site, factory, listing).db;
            && ASSISTANT in db.agents.rows
            && (db.agents.rows[ASSISTANT].modelId.Some? ==>
                  exists n :: Usable(db.models.rows, n) && db.models.rows[n].id == db.agents.rows[ASSISTANT].modelId.value)
  {
    ModelIdsDiffer(site.db.models);
    var bound := if ASSISTANT in site.db.agents.rows
                 then NameOfModel(site.db.models.rows, site.db.agents.rows[ASSISTANT].modelId) else "";
    BindingIsUsable(site.db.models.rows, listing, bound);
  }

  /** A binding to a named model with a key is left as it is. */
  lemma UsableBindingPreserved(site: Site, factory: Factory, listing: seq<string>, name: string)
    requires IdsUnique(ModelId, site.db.models) && ASSISTANT in site.db.agents.rows
    requires Usable(site.db.models.rows, name)
    requires site.db.agents.rows[ASSISTANT].modelId == Some(site.db.models.rows[name].id)
    ensures Boot(site, factory, listing).db.agents.rows[ASSISTANT].modelId == site.db.agents.rows[ASSISTANT].modelId
  {
    NameOfRef(site.db.models, name);
  }

  /** With an address, a boot leaves the documentation server in place and linked to the assistant; no server row changes. */
  lemma DocsInPlace(site: Site, factory: Factory, listing: seq<string>)
    requires IdsUnique(ModelId, site.db.models)
    ensures var before, after := site.db.servers.rows, Boot(site, factory, listing).db.servers.rows;
            && (forall n :: n in before ==> n in after && after[n] == before[n])
            && (forall n :: n in after ==> n in before || (n == DOCS_SERVER && factory.docsUrl != ""))
            && (factory.docsUrl != "" ==> DOCS_SERVER in after)
            && (factory.docsUrl != "" && DOCS_SERVER !in before ==>
                  after[DOCS_SERVER]
                  == ServerRow(site.db.servers.nextId, "sse", "", factory.docsUrl, None, None, None, "none", "", "", "", true))
    ensures var db := Boot(site, factory, listing).db;
            && ASSISTANT in db.agents.rows
            && (DOCS_SERVER in db.servers.rows ==>
                  Link(db.agents.rows[ASSISTANT].id, db.servers.rows[DOCS_SERVER].id) in db.links)
  {
    ModelIdsDiffer(site.db.models);
  }

  lemma EntryAgentKept(site: Site, factory: Factory, listing: seq<string>)
    requires IdsUnique(ModelId, site.db.models)
    requires BUILDER_SCHEMA in site.schemas.rows && site.schemas.rows[BUILDER_SCHEMA].entry.Some?
    ensures Boot(site, factory, listing).schemas.rows[BUILDER_SCHEMA].entry == site.schemas.rows[BUILDER_SCHEMA].entry
  {}

  // ----- Booting twice

  lemma SyncToTwice(db: Db, agentId: nat, factory: Factory)
    ensures SyncAgentTo(SyncAgentTo(db, agentId, factory), agentId, factory) == SyncAgentTo(db, agentId, factory)
  {
    var once := SyncAgentTo(db, agentId, factory);
    ToolsForOwner(agentId, factory.tools);
    assert WithoutTools(once.tools, agentId) == WithoutTools(db.tools, agentId);
    assert WithoutLinks(once.links, agentId) == WithoutLinks(db.links, agentId);
  }

  lemma WritingAssistantTwice(db: Db, factory: Factory, first: AgentRow, later: AgentRow, nextId: nat)
    requires first.id == later.id
    ensures WithAssistant(WithAssistant(db, factory, first, nextId), factory, later, nextId)
         == WithAssistant(db, factory, later, nextId)
  {
    SyncToTwice(db.(agents := Table(db.agents.rows[ASSISTANT := later], nextId)), first.id, factory);
    assert db.agents.rows[ASSISTANT := first][ASSISTANT := later] == db.agents.rows[ASSISTANT := later];
  }

  /** What the second boot makes of the first one's database: the same, but for the turn limit it writes as zero. */
  lemma SecondBootDb(site: Site, factory: Factory, listing: seq<string>)
    requires IdsUnique(ModelId, site.db.models)
    ensures var once := Boot(site, factory, listing);
            && IdsUnique(ModelId, once.db.models) && ASSISTANT in once.db.agents.rows
            && var row := once.db.agents.rows[ASSISTANT];
               Boot(once, factory, listing).db
               == once.db.(agents := Table(once.db.agents.rows[ASSISTANT := row.(maxTurnDuration := 0)], once.db.agents.nextId))
  {
    var once := Boot(site, factory, listing);
    var seeded := SeededDocs(site.db, factory.docsUrl);
    assert SeededDocs(once.db, factory.docsUrl) == once.db;
    ModelIdsDiffer(site.db.models);
    var bound := if ASSISTANT in site.db.agents.rows
                 then NameOfModel(site.db.models.rows, site.db.agents.rows[ASSISTANT].modelId) else "";
    var name := Binding(site.db.models.rows, listing, bound);
    BindingIsUsable(site.db.models.rows, listing, bound);
    NameOfRef(site.db.models, name);
    assert Binding(site.db.models.rows, listing, name) == name;
    var row := once.db.agents.rows[ASSISTANT];
    WritingAssistantTwice(seeded, factory, row, row.(maxTurnDuration := 0), once.db.agents.nextId);
  }

  lemma SchemaTwice(schemas: Table<SchemaRow>, assistant: Option<nat>)
    ensures SeededSchema(SeededSchema(schemas, assistant), assistant) == SeededSchema(schemas, assistant)
  {
    var once := SeededSchema(schemas, assistant);
    assert once.rows[BUILDER_SCHEMA := once.rows[BUILDER_SCHEMA]] == once.rows;
  }

  lemma SecondBootSchemas(site: Site, factory: Factory, listing: seq<string>)
    requires IdsUnique(ModelId, site.db.models)
    ensures var once := Boot(site, factory, listing);
            IdsUnique(ModelId, once.db.models) && Boot(once, factory, listing).schemas == once.schemas
  {
    var once := Boot(site, factory, listing);
    SecondBootDb(site, factory, listing);
    assert AssistantId(Boot(once, factory, listing).db) == AssistantId(once.db);
    SchemaTwice(site.schemas, AssistantId(once.db));
  }

  /**
   A second boot changes nothing exactly when the assistant existed before the first: a freshly created assistant
   has the column's turn limit, and the next boot overwrites it with zero.
   */
  lemma BootIdempotentIff(site: Site, factory: Factory, listing: seq<string>)
    requires IdsUnique(ModelId, site.db.models)
    ensures var once := Boot(site, factory, listing);
            && IdsUnique(ModelId, once.db.models)
            && (Boot(once, factory, listing) == once <==> ASSISTANT in site.db.agents.rows)
  {
    var once := Boot(site, factory, listing);
    SecondBootDb(site, factory, listing);
    SecondBootSchemas(site, factory, listing);
    var row := once.db.agents.rows[ASSISTANT];
    if ASSISTANT in site.db.agents.rows {
      assert once.db.agents.rows[ASSISTANT := row] == once.db.agents.rows;
    } else {
      assert row.maxTurnDuration == 120;
    }
  }

  /** From the second boot on, booting changes nothing. */
  lemma ThirdBootChangesNothing(site: Site, factory: Factory, listing: seq<string>)
    requires IdsUnique(ModelId, site.db.models)
    ensures var once := Boot(site, factory, listing);
            && IdsUnique(ModelId, once.db.models)
            && var twice := Boot(once, factory, listing);
               IdsUnique(ModelId, twice.db.models) && Boot(twice, factory, listing) == twice
  {
    var once := Boot(site, factory, listing);
    SecondBootDb(site, factory, listing);
    BootIdempotentIff(once, factory, listing);
  }
}
