/** The guard against spawn cycles: an ancestor chain carried on the context of every nested spawn. */
module SpawnGuard {
  import opened Wrappers
  import opened Digraph
  import opened RelationService
  import opened RelationRuns

  /** The part of a context the guard reads: agent names from the root down. */
  datatype Context = Context(ancestors: seq<string>)

  const ROOT := Context([])

  datatype Mode = SpawnMode | PersistentMode | OtherMode

  datatype Route = Pool | Manager

  datatype Spawned = Spawned(route: Route, ctx: Context)

  /** Schema-bound agents; the three code agents take the pool path. */
  predicate IsChatAgent(name: string) {
    name !in {"coder", "researcher", "reviewer"}
  }

  function WithSpawnAncestor(ctx: Context, name: string): Context {
    Context(ctx.ancestors + [name])
  }

  /** Refused with the offending chain, or routed with the extended context. */
  function Spawn(ctx: Context, name: string, mode: Mode): Result<Spawned, seq<string>> {
    if name in ctx.ancestors then Err(ctx.ancestors + [name])
    else Ok(Spawned(if mode != PersistentMode && !IsChatAgent(name) then Pool else Manager,
                    WithSpawnAncestor(ctx, name)))
  }

  method SpawnAgent(ctx: Context, name: string, mode: Mode) returns (r: Result<Spawned, seq<string>>)
    ensures r == Spawn(ctx, name, mode)
  {
    var ancestors := ctx.ancestors;
    for i := 0 to |ancestors|
      invariant name !in ancestors[..i]
    {
      if ancestors[i] == name {
        return Err(ancestors + [name]);
      }
    }
    assert ancestors[..|ancestors|] == ancestors;
    var extended := WithSpawnAncestor(ctx, name);
    if mode != PersistentMode && !IsChatAgent(name) {
      return Ok(Spawned(Pool, extended));
    }
    return Ok(Spawned(Manager, extended));
  }

  // ----- Shared storage

  /** The chain as stored: a new block per context, so no context written before is touched. */
  method ExtendChain(prev: array<string>, name: string) returns (next: array<string>)
    ensures fresh(next) && next[..] == prev[..] + [name]
  {
    next := new string[prev.Length + 1];
    forall i | 0 <= i < prev.Length {
      next[i] := prev[i];
    }
    next[prev.Length] := name;
  }

  /** Two spawns from one context see the same ancestors, each extended by its own name only. */
  method SpawnSiblings(prev: array<string>, a: string, b: string) returns (left: array<string>, right: array<string>)
    ensures prev[..] == old(prev[..])
    ensures left[..] == prev[..] + [a] && right[..] == prev[..] + [b]
  {
    left := ExtendChain(prev, a);
    right := ExtendChain(prev, b);
  }

  // ----- Chains of nested spawns

  datatype Call = Call(name: string, mode: Mode)

  function Names(chain: seq<Call>): (r: seq<string>)
    ensures |r| == |chain| && forall i :: 0 <= i < |chain| ==> r[i] == chain[i].name
  {
    if chain == [] then [] else [chain[0].name] + Names(chain[1..])
  }

  /** Each spawn runs in the context its parent was given. */
  function Nest(ctx: Context, chain: seq<Call>): Result<Context, seq<string>>
    decreases |chain|
  {
    if chain == [] then Ok(ctx)
    else match Spawn(ctx, chain[0].name, chain[0].mode)
      case Err(cycle) => Err(cycle)
      case Ok(spawned) => Nest(spawned.ctx, chain[1..])
  }

  /** A chain passes the guard exactly when no name repeats; the context then lists it root to leaf. */
  lemma {:induction false} ChainPassesIffDistinct(ctx: Context, chain: seq<Call>)
    requires Distinct(ctx.ancestors)
    ensures Nest(ctx, chain).Ok? <==> Distinct(ctx.ancestors + Names(chain))
    ensures Nest(ctx, chain).Ok? ==> Nest(ctx, chain).value.ancestors == ctx.ancestors + Names(chain)
    decreases |chain|
  {
    if chain != [] {
      var name := chain[0].name;
      assert ctx.ancestors + Names(chain) == (ctx.ancestors + [name]) + Names(chain[1..]);
      if name in ctx.ancestors {
        var i :| 0 <= i < |ctx.ancestors| && ctx.ancestors[i] == name;
        var all := ctx.ancestors + Names(chain);
        assert all[i] == all[|ctx.ancestors|];
      } else {
        ChainPassesIffDistinct(WithSpawnAncestor(ctx, name), chain[1..]);
      }
    } else {
      assert ctx.ancestors + Names(chain) == ctx.ancestors;
    }
  }

  /**
   What a spawn at the end of a chain that passed is answered: refused exactly for a name in the chain; otherwise the three
   code agents go to the pool unless they are persistent, and everything else goes to the manager.
   */
  lemma SpawnAfterChain(chain: seq<Call>, call: Call)
    requires Nest(ROOT, chain).Ok?
    ensures match Spawn(Nest(ROOT, chain).value, call.name, call.mode)
            case Err(cycle) => call.name in Names(chain) && cycle == Names(chain) + [call.name]
            case Ok(spawned) =>
              && call.name !in Names(chain) && spawned.ctx.ancestors == Names(chain) + [call.name]
              && (spawned.route == Pool <==>
                    !call.mode.PersistentMode? && (call.name == "coder" || call.name == "researcher" || call.name == "reviewer"))
  {
    ChainPassesIffDistinct(ROOT, chain);
    assert [] + Names(chain) == Names(chain);
  }

  /** Nesting is never deeper than the number of agents there are. */
  lemma DepthBound(chain: seq<Call>, agents: set<string>)
    requires Nest(ROOT, chain).Ok?
    requires forall name :: name in Names(chain) ==> name in agents
    ensures |chain| <= |agents|
  {
    ChainPassesIffDistinct(ROOT, chain);
    assert [] + Names(chain) == Names(chain);
    Pigeonhole(Names(chain), agents);
  }

  lemma NamesAfterFirst(ancestors: seq<string>, chain: seq<Call>)
    requires chain != []
    ensures ancestors + Names(chain) == (ancestors + [chain[0].name]) + Names(chain[1..])
    ensures ancestors + [chain[0].name] <= ancestors + Names(chain)
  {
    Regroup(ancestors, chain[0].name, Names(chain[1..]));
  }

  lemma Regroup<T>(a: seq<T>, x: T, b: seq<T>)
    ensures a + ([x] + b) == (a + [x]) + b && a + [x] <= a + ([x] + b)
  {}

  /** The refusal names the chain down to the first agent that is already among its ancestors. */
  lemma {:induction false} RefusalShowsCycle(ctx: Context, chain: seq<Call>) returns (path: seq<string>, name: string)
    requires Distinct(ctx.ancestors) && Nest(ctx, chain).Err?
    ensures Nest(ctx, chain).error == path + [name]
    ensures path + [name] <= ctx.ancestors + Names(chain)
    ensures Distinct(path) && name in path
    decreases |chain|
  {
    NamesAfterFirst(ctx.ancestors, chain);
    if chain[0].name in ctx.ancestors {
      path, name := ctx.ancestors, chain[0].name;
    } else {
      path, name := RefusalShowsCycle(WithSpawnAncestor(ctx, chain[0].name), chain[1..]);
    }
  }

  /** The spawns along a walk of agents, in some modes. */
  ghost predicate SpawnsAlong(store: Store, walk: seq<string>, chain: seq<Call>) {
    |chain| == |walk| && forall i :: 0 <= i < |walk| ==> walk[i] in store.agents && chain[i].name == store.agents[walk[i]].name
  }

  lemma SpawnsDistinctIff(store: Store, walk: seq<string>, chain: seq<Call>)
    requires UniqueNames(store.agents) && SpawnsAlong(store, walk, chain)
    ensures Distinct(Names(chain)) <==> Distinct(walk)
  {
    if Distinct(Names(chain)) {
      forall i, j | 0 <= i < j < |walk|
        ensures walk[i] != walk[j]
      {
        assert Names(chain)[i] != Names(chain)[j];
      }
    }
    if Distinct(walk) {
      forall i, j | 0 <= i < j < |chain|
        ensures Names(chain)[i] != Names(chain)[j]
      {
        assert walk[i] != walk[j];
      }
    }
  }

  /** Spawning along a walk of relations passes the guard exactly when the walk visits no agent twice. */
  lemma DelegationPassesIff(store: Store, walk: seq<string>, chain: seq<Call>)
    requires Consistent(store) && SpawnsAlong(store, walk, chain)
    ensures Nest(ROOT, chain).Ok? <==> Distinct(walk)
  {
    SpawnsDistinctIff(store, walk, chain);
    ChainPassesIffDistinct(ROOT, chain);
    assert [] + Names(chain) == Names(chain);
  }

  function SpawnWalk(store: Store, walk: seq<string>): (chain: seq<Call>)
    requires forall i :: 0 <= i < |walk| ==> walk[i] in store.agents
    ensures SpawnsAlong(store, walk, chain)
  {
    seq(|walk|, i requires 0 <= i < |walk| => Call(store.agents[walk[i]].name, SpawnMode))
  }

  ghost predicate NeverRefused(store: Store, schemaId: string) {
    forall walk, chain :: IsWalk(GraphOf(store, schemaId), walk) && SpawnsAlong(store, walk, chain) ==> Nest(ROOT, chain).Ok?
  }

  /** Delegating along a schema's relations is never mistaken for a cycle exactly when the schema has none. */
  lemma NeverRefusedIffAcyclic(store: Store, schemaId: string)
    requires Consistent(store)
    ensures NeverRefused(store, schemaId) <==> Acyclic(GraphOf(store, schemaId))
  {
    var edges := GraphOf(store, schemaId);
    if Acyclic(edges) {
      forall walk, chain | IsWalk(edges, walk) && SpawnsAlong(store, walk, chain)
        ensures Nest(ROOT, chain).Ok?
      {
        AcyclicWalkIsDistinct(edges, walk);
        DelegationPassesIff(store, walk, chain);
      }
    }
    if walk :| ClosedWalk(edges, walk) {
      forall i | 0 <= i < |walk|
        ensures walk[i] in store.agents
      {
        assert i < |walk| - 1 ==> Edge(walk[i], walk[i + 1]) in edges;
        assert i > 0 ==> Edge(walk[i - 1], walk[i - 1 + 1]) in edges;
      }
      DelegationPassesIff(store, walk, SpawnWalk(store, walk));
    }
  }

  /** So it is after every run of requests spelled as stored, from a schema without relations. */
  lemma DelegationNeverRefused(start: Store, reqs: seq<Request>, schemaId: string)
    requires Consistent(start)
    requires forall r :: r in start.relations ==> start.relations[r].schemaId != schemaId
    requires forall req :: req in reqs ==> SpelledAsStoredIn(req)
    ensures NeverRefused(Run(start, reqs), schemaId)
  {
    RunFromEmptySchemaIsAcyclic(start, reqs, schemaId);
    NeverRefusedIffAcyclic(Run(start, reqs), schemaId);
  }
}
