/** What one boot leaves behind, row by row, and which model it binds the assistant to. */
module BootEffects {
  import opened Wrappers
  import opened Digraph
  import opened Upserts
  import opened ConfigStore
  import opened ImportFields
  import opened BootSeed

  // ----- The model that is chosen

  ghost predicate First(listing: seq<string>, i: int, wanted: string -> bool) {
    0 <= i < |listing| && wanted(listing[i]) && forall j :: 0 <= j < i ==> !wanted(listing[j])
  }

  ghost function DefaultFor(models: map<string, ModelRow>): string -> bool {
    n => n in models && models[n].isDefault && models[n].kind == "chat"
  }

  /** A model counts as one for chat if its kind says so or says nothing. */
  ghost function FallbackFor(models: map<string, ModelRow>): string -> bool {
    n => n in models && models[n].apiKey != "" && (models[n].kind == "chat" || models[n].kind == "")
  }

  lemma {:induction false} FirstDefaultIs(models: map<string, ModelRow>, listing: seq<string>, i: int)
    requires First(listing, i, DefaultFor(models))
    ensures FirstDefault(models, listing) == Some(listing[i])
  {
    if i > 0 {
      assert !DefaultFor(models)(listing[0]);
      FirstDefaultIs(models, listing[1..], i - 1);
    }
  }

  lemma {:induction false} NoDefault(models: map<string, ModelRow>, listing: seq<string>)
    requires forall n :: n in listing ==> !DefaultFor(models)(n)
    ensures FirstDefault(models, listing) == None
  {
    if listing != [] {
      assert !DefaultFor(models)(listing[0]);
      NoDefault(models, listing[1..]);
    }
  }

  lemma {:induction false} FirstFallbackIs(models: map<string, ModelRow>, listing: seq<string>, i: int)
    requires First(listing, i, FallbackFor(models))
    ensures FirstWithKey(models, listing) == listing[i]
  {
    if i > 0 {
      assert !FallbackFor(models)(listing[0]);
      FirstFallbackIs(models, listing[1..], i - 1);
    }
  }

  lemma {:induction false} NoFallback(models: map<string, ModelRow>, listing: seq<string>)
    requires forall n :: n in listing ==> !FallbackFor(models)(n)
    ensures FirstWithKey(models, listing) == ""
  {
    if listing != [] {
      assert !FallbackFor(models)(listing[0]);
      NoFallback(models, listing[1..]);
    }
  }

  /** The first listed default chat model, and it has a key. */
  ghost predicate PreferredAt(models: map<string, ModelRow>, listing: seq<string>, i: int) {
    First(listing, i, DefaultFor(models)) && models[listing[i]].apiKey != ""
  }

  /** The default chat model is chosen if it has a key; failing that the first chat model with a key; failing that none. */
  lemma ChosenModel(models: map<string, ModelRow>, listing: seq<string>, i: int)
    ensures PreferredAt(models, listing, i) ==> DefaultModel(models, listing) == listing[i]
    ensures (forall j :: !PreferredAt(models, listing, j)) && First(listing, i, FallbackFor(models)) ==>
      DefaultModel(models, listing) == listing[i]
    ensures (forall j :: !PreferredAt(models, listing, j)) && (forall n :: n in listing ==> !FallbackFor(models)(n)) ==>
      DefaultModel(models, listing) == ""
  {
    if PreferredAt(models, listing, i) {
      FirstDefaultIs(models, listing, i);
    } else if forall j :: !PreferredAt(models, listing, j) {
      PreferredOrFallback(models, listing);
      if First(listing, i, FallbackFor(models)) {
        FirstFallbackIs(models, listing, i);
      } else if forall n :: n in listing ==> !FallbackFor(models)(n) {
        NoFallback(models, listing);
      }
    }
  }

  lemma PreferredOrFallback(models: map<string, ModelRow>, listing: seq<string>)
    requires forall j :: !PreferredAt(models, listing, j)
    ensures DefaultModel(models, listing) == FirstWithKey(models, listing)
  {
    if FirstDefault(models, listing).Some? {
      var i := FirstDefaultAt(models, listing);
      assert !PreferredAt(models, listing, i);
    }
  }

  lemma {:induction false} FirstDefaultAt(models: map<string, ModelRow>, listing: seq<string>) returns (i: nat)
    requires FirstDefault(models, listing).Some?
    ensures First(listing, i, DefaultFor(models)) && FirstDefault(models, listing) == Some(listing[i])
  {
    if IsDefaultChat(models, listing[0]) {
      i := 0;
    } else {
      var k := FirstDefaultAt(models, listing[1..]);
      i := k + 1;
      assert forall j :: 0 < j < i ==> listing[j] == listing[1..][j - 1];
    }
  }

  // ----- The assistant

  /** The model is named, stored under this identifier, and has a key. */
  ghost predicate UsableUnder(models: map<string, ModelRow>, id: Option<nat>, name: string) {
    name != "" && name in models && models[name].apiKey != "" && id == Some(models[name].id)
  }

  /** The identifier of the chosen model; a model without a name, or none, leaves the assistant unbound. */
  ghost predicate BoundTo(models: map<string, ModelRow>, modelId: Option<nat>, name: string) {
    if name == "" then modelId == None else name in models && modelId == Some(models[name].id)
  }

  lemma NameHasId(models: Table<ModelRow>, modelId: Option<nat>)
    requires IdsUnique(ModelId, models)
    ensures IdsDiffer(models.rows)
    ensures var n := NameOfModel(models.rows, modelId);
            n != "" ==> n in models.rows && Some(models.rows[n].id) == modelId
  {
    ModelIdsDiffer(models);
  }

  lemma BoundByBoot(site: Site, factory: Factory, listing: seq<string>)
    requires IdsUnique(ModelId, site.db.models)
    ensures IdsDiffer(site.db.models.rows)
    ensures var models, agents := site.db.models.rows, site.db.agents.rows;
            var after := Boot(site, factory, listing).db.agents.rows;
            && ASSISTANT in after
            && after[ASSISTANT].modelId
               == ModelRef(models, if ASSISTANT in agents
                                   then Binding(models, listing, NameOfModel(models, agents[ASSISTANT].modelId))
                                   else DefaultModel(models, listing))
  {
    ModelIdsDiffer(site.db.models);
  }

  lemma DefaultIsBound(models: map<string, ModelRow>, listing: seq<string>)
    ensures BoundTo(models, ModelRef(models, DefaultModel(models, listing)), DefaultModel(models, listing))
  {
    BindingIsUsable(models, listing, "");
    assert Binding(models, listing, "") == DefaultModel(models, listing);
  }

  /** The assistant keeps a usable binding, and is bound to the chosen model otherwise. */
  lemma AssistantBinding(site: Site, factory: Factory, listing: seq<string>)
    requires IdsUnique(ModelId, site.db.models)
    ensures var models, agents := site.db.models.rows, site.db.agents.rows;
            var after := Boot(site, factory, listing).db.agents.rows;
            && ASSISTANT in after
            && if ASSISTANT in agents && exists n :: UsableUnder(models, agents[ASSISTANT].modelId, n)
               then after[ASSISTANT].modelId == agents[ASSISTANT].modelId
               else BoundTo(models, after[ASSISTANT].modelId, DefaultModel(models, listing))
  {
    var models, agents := site.db.models.rows, site.db.agents.rows;
    BoundByBoot(site, factory, listing);
    DefaultIsBound(models, listing);
    if ASSISTANT in agents {
      var modelId := agents[ASSISTANT].modelId;
      if n :| UsableUnder(models, modelId, n) {
        UsableBindingPreserved(site, factory, listing, n);
      } else {
        NameHasId(site.db.models, modelId);
        assert !UsableUnder(models, modelId, NameOfModel(models, modelId));
      }
    }
  }

  /** Whatever the assistant was before, its other settings are the factory's; its turn limit tells whether it was there. */
  lemma AssistantSettings(site: Site, factory: Factory, listing: seq<string>)
    requires IdsUnique(ModelId, site.db.models)
    ensures var agents := site.db.agents;
            var after := Boot(site, factory, listing).db.agents.rows;
            && ASSISTANT in after
            && var row := after[ASSISTANT];
               && row.systemPrompt == factory.prompt && row.lifecycle == "persistent" && row.toolExecution == "sequential"
               && row.maxSteps == 50 && row.maxContextSize == 16000 && row.isSystem
               && row.temperature == None && row.topP == None && row.maxTokens == None
               && row.stopSequences == None && row.confirmBefore == None
               && row.maxTurnDuration == (if ASSISTANT in agents.rows then 0 else 120)
               && row.id == (if ASSISTANT in agents.rows then agents.rows[ASSISTANT].id else agents.nextId)
  {
    ModelIdsDiffer(site.db.models);
  }

  lemma ToolsWritten(tools: map<ToolKey, ToolRow>, agentId: nat, names: seq<string>)
    requires Distinct(names)
    ensures HasTools(WithoutTools(tools, agentId) + ToolsFor(agentId, names), agentId, names)
  {
    ToolsForHolds(agentId, names);
  }

  lemma LinksWritten(links: set<Link>, agentId: nat, servers: map<string, ServerRow>)
    ensures HasServers(WithoutLinks(links, agentId) + LinksFor(agentId, servers, [DOCS_SERVER]), agentId, servers,
                       if DOCS_SERVER in servers then [DOCS_SERVER] else [])
  {}

  /** The assistant has the factory's tools in their order, and the documentation server if there is one, and nothing else. */
  lemma AssistantTools(site: Site, factory: Factory, listing: seq<string>)
    requires IdsUnique(ModelId, site.db.models) && Distinct(factory.tools)
    ensures var db := Boot(site, factory, listing).db;
            && ASSISTANT in db.agents.rows
            && HasTools(db.tools, db.agents.rows[ASSISTANT].id, factory.tools)
            && HasServers(db.links, db.agents.rows[ASSISTANT].id, db.servers.rows,
                          if DOCS_SERVER in db.servers.rows then [DOCS_SERVER] else [])
  {
    ModelIdsDiffer(site.db.models);
    var db := Boot(site, factory, listing).db;
    var before := SeededDocs(site.db, factory.docsUrl);
    ToolsWritten(before.tools, db.agents.rows[ASSISTANT].id, factory.tools);
    LinksWritten(before.links, db.agents.rows[ASSISTANT].id, db.servers.rows);
  }

  /** A boot writes no model, no other agent, and no other agent's tools or links. */
  lemma OthersStay(site: Site, factory: Factory, listing: seq<string>)
    requires IdsUnique(ModelId, site.db.models)
    ensures var before, after := site.db, Boot(site, factory, listing).db;
            && after.models == before.models && after.limits == before.limits
            && after.agents.rows.Keys == before.agents.rows.Keys + {ASSISTANT}
            && (forall n :: n in before.agents.rows && n != ASSISTANT ==> after.agents.rows[n] == before.agents.rows[n])
            && var id := after.agents.rows[ASSISTANT].id;
               && (forall k: ToolKey :: k.agentId != id ==>
                     (k in after.tools <==> k in before.tools) && (k in before.tools ==> after.tools[k] == before.tools[k]))
               && (forall l: Link :: l.agentId != id ==> (l in after.links <==> l in before.links))
  {
    ModelIdsDiffer(site.db.models);
    var id := Boot(site, factory, listing).db.agents.rows[ASSISTANT].id;
    ToolsForOwner(id, factory.tools);
  }

  // ----- The schema

  /** The builder's schema can be chatted with and has an entry agent: the one it had, or else the assistant. */
  lemma SchemaAfterBoot(site: Site, factory: Factory, listing: seq<string>)
    requires IdsUnique(ModelId, site.db.models)
    ensures var before, after := site.schemas, Boot(site, factory, listing).schemas;
            var agents := Boot(site, factory, listing).db.agents.rows;
            && ASSISTANT in agents
            && after.rows.Keys == before.rows.Keys + {BUILDER_SCHEMA}
            && (forall s :: s in before.rows && s != BUILDER_SCHEMA ==> after.rows[s] == before.rows[s])
            && var row := after.rows[BUILDER_SCHEMA];
               && row.chatEnabled
               && if BUILDER_SCHEMA in before.rows
                  then var had := before.rows[BUILDER_SCHEMA];
                       && row.id == had.id && row.description == had.description && row.isSystem == had.isSystem
                       && row.entry == if had.entry.Some? then had.entry else Some(agents[ASSISTANT].id)
                  else && row.id == before.nextId && row.isSystem && row.entry == Some(agents[ASSISTANT].id)
                       && row.description == "System schema for the AI builder assistant"
  {
    ModelIdsDiffer(site.db.models);
  }
}
