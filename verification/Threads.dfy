/** The thread registry: opaque thread ids and the call chains they stand for. */
module Threads {
  import opened Results
  import opened Chains

  /** Where a response goes: the new last segment and the id of the pruned chain. */
  datatype Target = Target(name: string, thread: string)

  /** The registry as a value: chain to id, id to chain, and the root. */
  datatype Registry = Registry(
    chains: map<string, string>,
    uuids: map<string, string>,
    rootUuid: Option<string>,
    rootChain: string)

  const EMPTY := Registry(map[], map[], None, "system")

  function Bind(r: Registry, chain: string, id: string): Registry {
    r.(chains := r.chains[chain := id], uuids := r.uuids[id := chain])
  }

  function Extended(chain: string, hop: string): string {
    if chain == "" then hop else chain + [DOT] + hop
  }

  function ChainOf(r: Registry, id: string): string {
    if id in r.uuids then r.uuids[id] else ""
  }

  /** The id bound to `chain`, binding `uuid` to it if there is none. */
  function WithChain(r: Registry, chain: string, uuid: string): (Registry, string) {
    if chain in r.chains then (r, r.chains[chain]) else (Bind(r, chain, uuid), uuid)
  }

  function WithRoot(r: Registry, organism: string, uuid: string): (Registry, string) {
    if r.rootUuid.Some? then (r, r.rootUuid.value)
    else
      var chain := "system" + [DOT] + organism;
      (Bind(r, chain, uuid).(rootUuid := Some(uuid), rootChain := chain), uuid)
  }

  /** The chain an external thread is registered under. */
  function ExternalChain(r: Registry, initiator: string, target: string): string {
    var pair := initiator + [DOT] + target;
    if r.rootUuid.Some? then r.rootChain + [DOT] + pair else pair
  }

  function WithThread(r: Registry, id: string, initiator: string, target: string): (Registry, string) {
    if id in r.uuids then (r, id) else WithChain(r, ExternalChain(r, initiator, target), id)
  }

  function WithHop(r: Registry, id: string, hop: string, uuid: string): (Registry, string) {
    WithChain(r, Extended(ChainOf(r, id), hop), uuid)
  }

  function Cleaned(r: Registry, id: string): Registry {
    if id in r.uuids then r.(uuids := r.uuids - {id}, chains := r.chains - {r.uuids[id]}) else r
  }

  function Pruned(r: Registry, id: string, uuid: string): (Registry, Option<Target>) {
    if id !in r.uuids then (r, None)
    else
      var parts := Split(r.uuids[id]);
      var n := |parts| - 1;
      if n == 0 then (Cleaned(r, id), None)
      else
        var (r', thread) := WithChain(r, Join(parts[..n]), uuid);
        (r', Some(Target(parts[n - 1], thread)))
  }

  /**
   The registry object. Ids come from outside: `uuid` stands for the next random uuid, used
   only if the operation needs a new one.
   */
  class ThreadRegistry {
    var chainToUuid: map<string, string>
    var uuidToChain: map<string, string>
    var rootUuid: Option<string>
    var rootChain: string

    ghost function View(): Registry
      reads this
    {
      Registry(chainToUuid, uuidToChain, rootUuid, rootChain)
    }

    constructor ()
      ensures View() == EMPTY
    {
      chainToUuid := map[];
      uuidToChain := map[];
      rootUuid := None;
      rootChain := "system";
    }

    method InitializeRoot(organism: string, uuid: string) returns (id: string)
      modifies this
      ensures (View(), id) == WithRoot(old(View()), organism, uuid)
    {
      if rootUuid.Some? {
        return rootUuid.value;
      }
      rootChain := "system" + [DOT] + organism;
      id := uuid;
      chainToUuid := chainToUuid[rootChain := id];
      uuidToChain := uuidToChain[id := rootChain];
      rootUuid := Some(id);
    }

    method Lookup(id: string) returns (chain: Option<string>)
      ensures chain.Some? <==> id in View().uuids
      ensures chain.Some? ==> chain.value == View().uuids[id]
    {
      chain := if id in uuidToChain then Some(uuidToChain[id]) else None;
    }

    method GetOrCreate(chain: string, uuid: string) returns (id: string)
      modifies this
      ensures (View(), id) == WithChain(old(View()), chain, uuid)
    {
      if chain in chainToUuid {
        return chainToUuid[chain];
      }
      id := uuid;
      chainToUuid := chainToUuid[chain := id];
      uuidToChain := uuidToChain[id := chain];
    }

    method StartChain(initiator: string, target: string, uuid: string) returns (id: string)
      modifies this
      ensures (View(), id) == WithChain(old(View()), initiator + [DOT] + target, uuid)
    {
      id := GetOrCreate(initiator + [DOT] + target, uuid);
    }

    /** Two outcomes: the id is bound from now on, or its chain already has another id. */
    method RegisterThread(id: string, initiator: string, target: string) returns (bound: string)
      modifies this
      ensures (View(), bound) == WithThread(old(View()), id, initiator, target)
      ensures
        || (bound == id && (id in old(View()).uuids || (
              && id in View().uuids && View().uuids[id] == ExternalChain(old(View()), initiator, target))))
        || (View() == old(View()) && id !in View().uuids
            && ExternalChain(View(), initiator, target) in View().chains
            && bound == View().chains[ExternalChain(View(), initiator, target)])
    {
      if id in uuidToChain {
        return id;
      }
      var chain := initiator + [DOT] + target;
      if rootUuid.Some? {
        chain := rootChain + [DOT] + chain;
      }
      if chain in chainToUuid {
        return chainToUuid[chain];
      }
      chainToUuid := chainToUuid[chain := id];
      uuidToChain := uuidToChain[id := chain];
      bound := id;
    }

    method ExtendChain(current: string, hop: string, uuid: string) returns (id: string)
      modifies this
      ensures (View(), id) == WithHop(old(View()), current, hop, uuid)
    {
      var chain := if current in uuidToChain then uuidToChain[current] else "";
      var newChain := if chain == "" then hop else chain + [DOT] + hop;
      if newChain in chainToUuid {
        return chainToUuid[newChain];
      }
      id := uuid;
      chainToUuid := chainToUuid[newChain := id];
      uuidToChain := uuidToChain[id := newChain];
    }

    method PruneForResponse(id: string, uuid: string) returns (target: Option<Target>)
      modifies this
      ensures (View(), target) == Pruned(old(View()), id, uuid)
    {
      if id !in uuidToChain {
        return None;
      }
      var parts := Split(uuidToChain[id]);
      if |parts| <= 1 {
        Cleanup(id);
        return None;
      }
      var pruned := parts[..|parts| - 1];
      var name := pruned[|pruned| - 1];
      var prunedChain := Join(pruned);
      var thread;
      if prunedChain in chainToUuid {
        thread := chainToUuid[prunedChain];
      } else {
        thread := uuid;
        chainToUuid := chainToUuid[prunedChain := thread];
        uuidToChain := uuidToChain[thread := prunedChain];
      }
      target := Some(Target(name, thread));
    }

    method Cleanup(id: string)
      modifies this
      ensures View() == Cleaned(old(View()), id)
    {
      if id in uuidToChain {
        var chain := uuidToChain[id];
        uuidToChain := uuidToChain - {id};
        chainToUuid := chainToUuid - {chain};
      }
    }

    method Clear()
      modifies this
      ensures View() == EMPTY
    {
      chainToUuid := map[];
      uuidToChain := map[];
      rootUuid := None;
      rootChain := "system";
    }
  }

  // ---- The maps are inverse ----

  ghost predicate Inverse(r: Registry) {
    && (forall c :: c in r.chains ==> r.chains[c] in r.uuids && r.uuids[r.chains[c]] == c)
    && (forall u :: u in r.uuids ==> r.uuids[u] in r.chains && r.chains[r.uuids[u]] == u)
  }

  ghost predicate Deep(chain: string) {
    |Split(chain)| >= 2
  }

  lemma BindKeepsInverse(r: Registry, chain: string, id: string)
    requires Inverse(r) && id !in r.uuids
    ensures Inverse(Bind(r, chain, id)) <==> chain !in r.chains
  {
    var r' := Bind(r, chain, id);
    if chain in r.chains {
      assert r.chains[chain] in r'.uuids && r'.uuids[r.chains[chain]] == chain;
      assert r'.chains[chain] == id;
    }
  }

  /** Booting keeps the maps inverse exactly if the root chain is not taken yet. */
  lemma BootKeepsInverse(r: Registry, organism: string, uuid: string)
    requires Inverse(r) && uuid !in r.uuids
    ensures Inverse(WithRoot(r, organism, uuid).0)
      <==> (r.rootUuid.Some? || "system" + [DOT] + organism !in r.chains)
  {
    var chain := "system" + [DOT] + organism;
    BindKeepsInverse(r, chain, uuid);
    var b := Bind(r, chain, uuid);
    var r' := b.(rootUuid := Some(uuid), rootChain := chain);
    assert r'.chains == b.chains && r'.uuids == b.uuids;
    assert Inverse(r') <==> Inverse(b);
  }

  // ---- The pipeline's operations ----

  /** What the route stage and the workers do with the registry. */
  datatype Op =
    | Register(id: string, initiator: string, target: string)
    | Extend(id: string, hop: string, uuid: string)
    | Prune(id: string, uuid: string)

  function Do(r: Registry, op: Op): Registry {
    match op
    case Register(id, initiator, target) => WithThread(r, id, initiator, target).0
    case Extend(id, hop, uuid) => WithHop(r, id, hop, uuid).0
    case Prune(id, uuid) => Pruned(r, id, uuid).0
  }

  /** A generated uuid is one the registry does not know. */
  predicate FreshOp(r: Registry, op: Op) {
    op.Register? || op.uuid !in r.uuids
  }

  ghost predicate FreshOps(r: Registry, ops: seq<Op>)
    decreases |ops|
  {
    ops == [] || (FreshOp(r, ops[0]) && FreshOps(Do(r, ops[0]), ops[1..]))
  }

  function DoAll(r: Registry, ops: seq<Op>): Registry
    decreases |ops|
  {
    if ops == [] then r else DoAll(Do(r, ops[0]), ops[1..])
  }

  /** Every binding of a deep chain is kept, and no binding that is left has changed. */
  ghost predicate KeepsDeep(r: Registry, r': Registry) {
    && (forall u :: u in r.uuids && Deep(r.uuids[u]) ==> u in r'.uuids)
    && (forall u :: u in r.uuids && u in r'.uuids ==> r'.uuids[u] == r.uuids[u])
  }

  lemma WithChainKeeps(r: Registry, chain: string, id: string)
    requires Inverse(r) && id !in r.uuids
    ensures Inverse(WithChain(r, chain, id).0) && KeepsDeep(r, WithChain(r, chain, id).0)
  {
  }

  lemma CleanedKeeps(r: Registry, id: string)
    requires Inverse(r) && (id in r.uuids ==> !Deep(r.uuids[id]))
    ensures Inverse(Cleaned(r, id)) && KeepsDeep(r, Cleaned(r, id))
  {
    hide Deep;
  }

  /** One operation keeps the maps inverse and every binding of a deep chain. */
  lemma OpKeeps(r: Registry, op: Op)
    requires Inverse(r) && FreshOp(r, op)
    ensures Inverse(Do(r, op)) && KeepsDeep(r, Do(r, op))
  {
    hide Inverse, KeepsDeep, Split, Join, ExternalChain, WithChain, Cleaned;
    Unchanged(r);
    match op
    case Register(id, initiator, target) =>
      if id !in r.uuids {
        WithChainKeeps(r, ExternalChain(r, initiator, target), id);
      }
    case Extend(id, hop, uuid) => WithChainKeeps(r, Extended(ChainOf(r, id), hop), uuid);
    case Prune(id, uuid) =>
      if id in r.uuids {
        var parts := Split(r.uuids[id]);
        if |parts| == 1 {
          CleanedKeeps(r, id);
        } else {
          WithChainKeeps(r, Join(parts[..|parts| - 1]), uuid);
        }
      }
  }

  lemma Unchanged(r: Registry)
    ensures KeepsDeep(r, r)
  {
  }

  /** The maps stay exact inverses, and deep chains keep their ids, through every interleaving. */
  lemma {:induction false} OpsKeep(r: Registry, ops: seq<Op>)
    requires Inverse(r) && FreshOps(r, ops)
    ensures Inverse(DoAll(r, ops))
    ensures forall u :: u in r.uuids && Deep(r.uuids[u]) ==>
      u in DoAll(r, ops).uuids && DoAll(r, ops).uuids[u] == r.uuids[u]
    decreases |ops|
  {
    if ops != [] {
      OpKeeps(r, ops[0]);
      OpsKeep(Do(r, ops[0]), ops[1..]);
    }
  }

  /** From boot on: whatever the pipeline does, the maps are inverse and the root stays bound. */
  lemma BootedRegistryStaysInverse(organism: string, uuid: string, ops: seq<Op>)
    requires FreshOps(WithRoot(EMPTY, organism, uuid).0, ops)
    ensures var r := DoAll(WithRoot(EMPTY, organism, uuid).0, ops);
      Inverse(r) && uuid in r.uuids && r.uuids[uuid] == "system" + [DOT] + organism
  {
    BootKeepsInverse(EMPTY, organism, uuid);
    var r := WithRoot(EMPTY, organism, uuid).0;
    SplitConcat("system", organism);
    assert Deep(r.uuids[uuid]);
    OpsKeep(r, ops);
  }

  // ---- The root ----

  /** Booting binds the id it returns to the root chain, and remembers it. */
  lemma BootBindsRoot(r: Registry, organism: string, uuid: string)
    requires Inverse(r) && uuid !in r.uuids && r.rootUuid.None? && "system" + [DOT] + organism !in r.chains
    ensures var (r', id) := WithRoot(r, organism, uuid);
      && Inverse(r') && id in r'.uuids && r'.uuids[id] == "system" + [DOT] + organism
      && r'.rootUuid == Some(id) && r'.rootChain == "system" + [DOT] + organism
      && (forall u :: u in r.uuids ==> u in r'.uuids && r'.uuids[u] == r.uuids[u])
  {
    BootKeepsInverse(r, organism, uuid);
  }

  lemma {:induction false} OpsKeepRoot(r: Registry, ops: seq<Op>)
    ensures DoAll(r, ops).rootUuid == r.rootUuid && DoAll(r, ops).rootChain == r.rootChain
    decreases |ops|
  {
    hide Split, Join, ExternalChain;
    if ops != [] {
      OpsKeepRoot(Do(r, ops[0]), ops[1..]);
    }
  }

  /** Booting again, after anything, returns the first id, which is still bound, and changes nothing. */
  lemma BootedOnce(r: Registry, organism: string, uuid: string, ops: seq<Op>, other: string, uuid': string)
    requires Inverse(r) && uuid !in r.uuids && r.rootUuid.None? && "system" + [DOT] + organism !in r.chains
    requires FreshOps(WithRoot(r, organism, uuid).0, ops)
    ensures var (r', id) := WithRoot(r, organism, uuid);
      var later := DoAll(r', ops);
      && WithRoot(later, other, uuid') == (later, id)
      && id in later.uuids && later.uuids[id] == "system" + [DOT] + organism
  {
    BootBindsRoot(r, organism, uuid);
    var (r', id) := WithRoot(r, organism, uuid);
    OpsKeepRoot(r', ops);
    hide Split, Do, DoAll, FreshOps;
    DeepRoot(organism);
    OpsKeep(r', ops);
  }

  lemma DeepRoot(organism: string)
    ensures Deep("system" + [DOT] + organism)
  {
    SplitConcat("system", organism);
  }

  // ---- Call and return ----

  /** What extending does to a bound thread. */
  lemma ExtendBinds(r: Registry, t: string, hop: string, uuid: string)
    requires Inverse(r) && uuid !in r.uuids && t in r.uuids && r.uuids[t] != ""
    ensures var (r', u) := WithHop(r, t, hop, uuid);
      && Inverse(r') && u in r'.uuids && r'.uuids[u] == r.uuids[t] + [DOT] + hop
      && t in r'.uuids && r'.uuids[t] == r.uuids[t]
      && (u != uuid ==> r' == r)
  {
    OpKeeps(r, Extend(t, hop, uuid));
  }

  /**
   The id of an extended chain is bound to the caller's chain and the hop, for every caller; what
   was bound stays.
   */
  lemma HopIsBound(r: Registry, t: string, hop: string, uuid: string)
    requires Inverse(r) && uuid !in r.uuids
    ensures var (r', u) := WithHop(r, t, hop, uuid);
      && Inverse(r') && u in r'.uuids && r'.uuids[u] == Extended(ChainOf(r, t), hop)
      && (forall x :: x in r.uuids ==> x in r'.uuids && r'.uuids[x] == r.uuids[x])
  {
    WithChainKeeps(r, Extended(ChainOf(r, t), hop), uuid);
  }

  /** Two calls from one thread to one callee share their id. */
  lemma ExtendTwice(r: Registry, t: string, hop: string, uuid: string, uuid': string)
    requires Inverse(r) && uuid !in r.uuids && t in r.uuids && r.uuids[t] != ""
    ensures var (r', u) := WithHop(r, t, hop, uuid);
      WithHop(r', t, hop, uuid') == (r', u)
  {
    ExtendBinds(r, t, hop, uuid);
  }

  lemma DotFreeReturns(r: Registry, t: string, u: string, hop: string, uuid: string)
    requires Inverse(r) && uuid !in r.uuids && t in r.uuids && u in r.uuids && DotFree(hop)
    requires r.uuids[u] == r.uuids[t] + [DOT] + hop
    ensures var parts := Split(r.uuids[t]);
      Pruned(r, u, uuid) == (r, Some(Target(parts[|parts| - 1], t)))
  {
    hide Split, Join, DotFree;
    var chain := r.uuids[t];
    SplitConcat(chain, hop);
    SplitDotFree(hop);
    var all := Split(r.uuids[u]);
    assert all[..|all| - 1] == Split(chain);
    JoinSplit(chain);
  }

  lemma DottedDoesNot(r: Registry, t: string, u: string, hop: string, uuid: string)
    requires Inverse(r) && uuid !in r.uuids && t in r.uuids && u in r.uuids && !DotFree(hop)
    requires r.uuids[u] == r.uuids[t] + [DOT] + hop
    ensures Pruned(r, u, uuid).1.Some? ==> Pruned(r, u, uuid).1.value.thread != t
  {
    var chain := r.uuids[t];
    JoinSplit(hop);
    assert |Split(hop)| >= 2;
    hide Split, Join, DotFree;
    SplitConcat(chain, hop);
    var all := Split(r.uuids[u]);
    var pruned := Join(all[..|all| - 1]);
    PrunedParts(all);
    assert |Split(pruned)| > |Split(chain)|;
    assert pruned in r.chains ==> r.chains[pruned] != t;
  }

  lemma PrunedParts(parts: seq<string>)
    requires |parts| >= 2 && forall i :: 0 <= i < |parts| ==> DOT !in parts[i]
    ensures Split(Join(parts[..|parts| - 1])) == parts[..|parts| - 1]
  {
    SplitJoin(parts[..|parts| - 1]);
  }

  /** Pruning a bound extension of a bound chain returns to it exactly for a dot-free hop. */
  lemma PruneReturns(r: Registry, t: string, u: string, hop: string, uuid: string)
    requires Inverse(r) && uuid !in r.uuids && t in r.uuids && u in r.uuids
    requires r.uuids[u] == r.uuids[t] + [DOT] + hop
    ensures var parts := Split(r.uuids[t]);
      Pruned(r, u, uuid).1 == Some(Target(parts[|parts| - 1], t)) <==> DotFree(hop)
    ensures DotFree(hop) ==> Pruned(r, u, uuid).0 == r
  {
    hide Split, Join, Pruned, Inverse, DotFree;
    if DotFree(hop) {
      DotFreeReturns(r, t, u, hop, uuid);
    } else {
      DottedDoesNot(r, t, u, hop, uuid);
    }
  }

  /**
   Call and return is a stack. If `t` stands for a chain of two or more segments and a call from
   it to `hop` got the id `u`, then after any interleaving of pipeline operations the response on
   `u` goes to the last segment of that chain, on thread `t`. A hop with a dot in it always
   breaks this; nothing else does.
   */
  lemma CallReturn(r: Registry, t: string, hop: string, uuid: string, ops: seq<Op>, uuid': string)
    requires Inverse(r) && uuid !in r.uuids && t in r.uuids && Deep(r.uuids[t])
    requires FreshOps(WithHop(r, t, hop, uuid).0, ops)
    requires uuid' !in DoAll(WithHop(r, t, hop, uuid).0, ops).uuids
    ensures var (r1, u) := WithHop(r, t, hop, uuid);
      var parts := Split(r.uuids[t]);
      Pruned(DoAll(r1, ops), u, uuid').1 == Some(Target(parts[|parts| - 1], t)) <==> DotFree(hop)
  {
    ExtendBinds(r, t, hop, uuid);
    var (r1, u) := WithHop(r, t, hop, uuid);
    assert Deep(r1.uuids[u]) by {
      SplitConcat(r.uuids[t], hop);
    }
    OpsKeep(r1, ops);
    hide WithHop, Pruned, DoAll, Inverse, Split;
    PruneReturns(DoAll(r1, ops), t, u, hop, uuid');
  }

  /** `id` is neither offered by a message nor generated anew. */
  ghost predicate NotReissued(ops: seq<Op>, id: string) {
    forall i :: 0 <= i < |ops| ==> id != if ops[i].Register? then ops[i].id else ops[i].uuid
  }

  /** A thread on a one-segment chain keeps it or is cleaned up. */
  lemma {:induction false} ShallowKeptOrGone(r: Registry, ops: seq<Op>, id: string)
    requires Inverse(r) && FreshOps(r, ops) && NotReissued(ops, id)
    ensures id in DoAll(r, ops).uuids ==> id in r.uuids && DoAll(r, ops).uuids[id] == r.uuids[id]
    decreases |ops|
  {
    if ops != [] {
      OpKeeps(r, ops[0]);
      assert forall i :: 0 <= i < |ops[1..]| ==> ops[1..][i] == ops[i + 1];
      ShallowKeptOrGone(Do(r, ops[0]), ops[1..], id);
    }
  }

  /**
   A caller on a one-segment chain is told too, whatever happens in between, but on its own thread
   only if that chain still has its id.
   */
  lemma ShallowCallReturn(r: Registry, t: string, hop: string, uuid: string, ops: seq<Op>, uuid': string)
    requires Inverse(r) && uuid !in r.uuids && t in r.uuids && r.uuids[t] != "" && !Deep(r.uuids[t]) && DotFree(hop)
    requires FreshOps(WithHop(r, t, hop, uuid).0, ops)
    requires uuid' !in DoAll(WithHop(r, t, hop, uuid).0, ops).uuids
    ensures var (r1, u) := WithHop(r, t, hop, uuid);
      var r2 := DoAll(r1, ops);
      var chain := r.uuids[t];
      Pruned(r2, u, uuid').1 == Some(Target(chain, if chain in r2.chains then r2.chains[chain] else uuid'))
  {
    var chain := r.uuids[t];
    ExtendBinds(r, t, hop, uuid);
    var (r1, u) := WithHop(r, t, hop, uuid);
    JoinSplit(chain);
    assert Split(chain) == [chain];
    SplitConcat(chain, hop);
    SplitDotFree(hop);
    assert Split(r1.uuids[u]) == [chain, hop];
    hide Split;
    OpsKeep(r1, ops);
    assert [chain, hop][..1] == [chain];
  }

  /**
   A dot in the callee's name: for every caller, the answer goes to a segment of that name, the
   last but one, and not to the caller.
   */
  lemma DottedCallGoesAstray(r: Registry, t: string, hop: string, uuid: string, ops: seq<Op>, uuid': string)
    requires Inverse(r) && uuid !in r.uuids && !DotFree(hop)
    requires FreshOps(WithHop(r, t, hop, uuid).0, ops)
    requires uuid' !in DoAll(WithHop(r, t, hop, uuid).0, ops).uuids
    ensures var (r1, u) := WithHop(r, t, hop, uuid);
      var answer := Pruned(DoAll(r1, ops), u, uuid').1;
      var hops := Split(hop);
      |hops| >= 2 && answer.Some? && answer.value.name == hops[|hops| - 2]
  {
    var chain := ChainOf(r, t);
    var full := Extended(chain, hop);
    JoinSplit(hop);
    assert |Split(hop)| >= 2;
    hide Split, Join, Pruned;
    WithChainKeeps(r, full, uuid);
    var (r1, u) := WithHop(r, t, hop, uuid);
    assert u in r1.uuids && r1.uuids[u] == full;
    if chain != "" {
      SplitConcat(chain, hop);
    }
    assert Deep(full);
    OpsKeep(r1, ops);
    PruneStep(DoAll(r1, ops), u, uuid');
  }

  /**
   A caller on a thread without a chain is forgotten: the answer on the called thread goes nowhere,
   unless that thread's id is handed out again.
   */
  lemma ChainlessCallIsDropped(r: Registry, t: string, hop: string, uuid: string, ops: seq<Op>, uuid': string)
    requires Inverse(r) && uuid !in r.uuids && ChainOf(r, t) == "" && DotFree(hop)
    requires FreshOps(WithHop(r, t, hop, uuid).0, ops) && NotReissued(ops, WithHop(r, t, hop, uuid).1)
    ensures var (r1, u) := WithHop(r, t, hop, uuid);
      Pruned(DoAll(r1, ops), u, uuid').1 == None
  {
    var (r1, u) := WithHop(r, t, hop, uuid);
    WithChainKeeps(r, hop, uuid);
    assert u in r1.uuids && r1.uuids[u] == hop;
    SplitDotFree(hop);
    ShallowKeptOrGone(r1, ops, u);
  }

  /** Two segments are needed: a caller on a one-segment chain can be cleaned up in between. */
  lemma ShallowCallerIsForgotten(r: Registry, t: string, hop: string, uuid: string, x: string, uuid': string)
    requires Inverse(r) && t in r.uuids && r.uuids[t] != "" && !Deep(r.uuids[t]) && DotFree(hop)
    requires |{t, uuid, x, uuid'}| == 4
    requires uuid !in r.uuids && x !in r.uuids && uuid' !in r.uuids
    ensures var (r1, u) := WithHop(r, t, hop, uuid);
      Pruned(Do(r1, Prune(t, x)), u, uuid').1 == Some(Target(r.uuids[t], uuid'))
  {
    var chain := r.uuids[t];
    ExtendBinds(r, t, hop, uuid);
    var (r1, u) := WithHop(r, t, hop, uuid);
    JoinSplit(chain);
    assert Split(chain) == [chain];
    SplitConcat(chain, hop);
    SplitDotFree(hop);
    var r2 := Do(r1, Prune(t, x));
    assert r2 == Cleaned(r1, t);
    assert u != t;
    assert Split(r2.uuids[u]) == [chain, hop];
    assert [chain, hop][..1] == [chain];
  }

  // ---- External threads ----

  lemma ExternalParts(r: Registry, initiator: string, target: string)
    ensures Deep(ExternalChain(r, initiator, target))
    ensures DotFree(target) ==>
      var parts := Split(ExternalChain(r, initiator, target));
      var from := Split(initiator);
      parts[|parts| - 2] == from[|from| - 1]
  {
    var pair := initiator + [DOT] + target;
    var from := Split(initiator);
    SplitConcat(initiator, target);
    SplitConcat(r.rootChain, pair);
    if DotFree(target) {
      SplitDotFree(target);
      assert Split(pair) == from + [target];
    }
  }

  /**
   After boot, and after anything, an unknown id is registered under the root chain, initiator and
   target, or not at all if that chain has an id already.
   */
  lemma OfferedUnderRoot(r: Registry, organism: string, uuid: string, ops: seq<Op>,
                         id: string, initiator: string, target: string)
    requires r.rootUuid.None? && id !in DoAll(WithRoot(r, organism, uuid).0, ops).uuids
    ensures var later := DoAll(WithRoot(r, organism, uuid).0, ops);
      var chain := "system" + [DOT] + organism + [DOT] + initiator + [DOT] + target;
      var after := WithThread(later, id, initiator, target).0;
      if chain in later.chains then after == later && id !in after.uuids
      else id in after.uuids && after.uuids[id] == chain && chain in after.chains && after.chains[chain] == id
  {
    var r' := WithRoot(r, organism, uuid).0;
    OpsKeepRoot(r', ops);
    hide DoAll, Do;
    var root := "system" + [DOT] + organism;
    assert root + [DOT] + (initiator + [DOT] + target) == root + [DOT] + initiator + [DOT] + target;
  }

  /**
   An id offered by an external message can be answered later exactly if it did not lose its
   chain to another id: the route stage ignores that it then stays unregistered. The answer goes
   to the initiator.
   */
  lemma OfferedThreadIsAnswered(r: Registry, id: string, initiator: string, target: string, uuid: string)
    requires Inverse(r) && id !in r.uuids && uuid !in r.uuids && uuid != id
    ensures var answer := Pruned(WithThread(r, id, initiator, target).0, id, uuid).1;
      && (answer.Some? <==> ExternalChain(r, initiator, target) !in r.chains)
      && (answer.Some? && DotFree(target) ==>
            var from := Split(initiator); answer.value.name == from[|from| - 1])
  {
    var chain := ExternalChain(r, initiator, target);
    ExternalParts(r, initiator, target);
    var r' := WithThread(r, id, initiator, target).0;
    hide ExternalChain, Split, Join;
    if chain in r.chains {
      assert r' == r;
    } else {
      assert r' == Bind(r, chain, id);
    }
  }

  // ---- Unwinding ----

  /** Other operations that come first, then one response on the thread at hand. */
  datatype Round = Round(before: seq<Op>, uuid: string)

  /** Answers on `id`, then on the thread each answer goes to; who was told, and whether it ended. */
  function Unwind(r: Registry, id: string, rounds: seq<Round>): (seq<string>, bool)
    decreases |rounds|
  {
    if rounds == [] then ([], false)
    else
      var (r', target) := Pruned(DoAll(r, rounds[0].before), id, rounds[0].uuid);
      if target.None? then ([], true)
      else
        var (names, ended) := Unwind(r', target.value.thread, rounds[1..]);
        ([target.value.name] + names, ended)
  }

  ghost predicate FreshRounds(r: Registry, id: string, rounds: seq<Round>)
    decreases |rounds|
  {
    rounds == [] || (
      var r1 := DoAll(r, rounds[0].before);
      && FreshOps(r, rounds[0].before)
      && (id in r.uuids && !Deep(r.uuids[id]) ==> NotReissued(rounds[0].before, id))
      && rounds[0].uuid !in r1.uuids
      && var (r2, target) := Pruned(r1, id, rounds[0].uuid);
      (target.Some? ==> FreshRounds(r2, target.value.thread, rounds[1..])))
  }

  function Reverse(parts: seq<string>): seq<string> {
    if parts == [] then [] else [parts[|parts| - 1]] + Reverse(parts[..|parts| - 1])
  }

  /** One response takes one segment off. */
  lemma PruneStep(r: Registry, id: string, uuid: string)
    requires Inverse(r) && uuid !in r.uuids && id in r.uuids && Deep(r.uuids[id])
    ensures var parts := Split(r.uuids[id]);
      var n := |parts| - 1;
      var (r', target) := Pruned(r, id, uuid);
      && target.Some? && target.value.name == parts[n - 1]
      && Inverse(r') && target.value.thread in r'.uuids
      && Split(r'.uuids[target.value.thread]) == parts[..n]
  {
    OpKeeps(r, Prune(id, uuid));
    var parts := Split(r.uuids[id]);
    SplitJoin(parts[..|parts| - 1]);
  }

  /**
   Unwinding is exact under interference: answering on a thread of k segments, again and again,
   tells the k-1 earlier segments in reverse order and then ends.
   */
  lemma {:induction false} UnwindExact(r: Registry, id: string, rounds: seq<Round>)
    requires Inverse(r) && id in r.uuids && FreshRounds(r, id, rounds)
    requires |rounds| >= |Split(r.uuids[id])|
    ensures var parts := Split(r.uuids[id]);
      Unwind(r, id, rounds) == (Reverse(parts[..|parts| - 1]), true)
    decreases |rounds|
  {
    var parts := Split(r.uuids[id]);
    var n := |parts| - 1;
    var r1 := DoAll(r, rounds[0].before);
    if n == 0 {
      ShallowKeptOrGone(r, rounds[0].before, id);
      assert Reverse(parts[..0]) == [];
    } else {
      OpsKeep(r, rounds[0].before);
      PruneStep(r1, id, rounds[0].uuid);
      var (r2, target) := Pruned(r1, id, rounds[0].uuid);
      UnwindExact(r2, target.value.thread, rounds[1..]);
      assert parts[..n][..n - 1] == parts[..n - 1];
    }
  }
}
