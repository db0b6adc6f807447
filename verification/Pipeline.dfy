/**
 The pipeline's own steps: validating, routing and processing one message.

 What handler and middleware make of a message together is an input, and so is the next random
 uuid. Encoding into memory does not fail.
 */
module Pipeline {
  import opened Results
  import opened Wire
  import opened Codec
  import opened Threads
  import opened Routing
  import opened Validation

  /** What the stages share and never change. `remotes` are the peer nodes, if federated. */
  datatype Config = Config(
    table: Table,
    lower: Lowering,
    schemas: map<string, Schema>,
    remotes: Option<set<string>>,
    reals: Reals)

  datatype Response =
    | Send(to: Address, payload: Payload)
    | Spawn(to: Address, payload: Payload)
    | Reply(payload: Payload)
    | Nothing

  /** What handler and middleware come to; `Failed` is an error of either. */
  datatype Outcome = Responded(response: Response) | Failed

  datatype RouteVerdict = Escalated | Unroutable | Refused | Dispatch(target: string)

  predicate IsRemote(c: Config, to: Option<Address>) {
    c.remotes.Some? && to.Some? && to.value.segments != [] && to.value.segments[0].name in c.remotes.value
  }

  predicate Valid(c: Config, p: Payload) {
    ValidateTagged(c.schemas, p.tag, p.value).Ok?
  }

  /** Where the route stage sends an envelope. */
  function Route(c: Config, env: Envelope): RouteVerdict {
    if IsRemote(c, env.meta.to) then Escalated
    else
      var to := if env.meta.to.Some? then Organism(env.meta.to.value) else None;
      var entries := Resolve(c.table, c.lower, to, env.payload.tag);
      if entries.Err? then Unroutable
      else if !MayMessage(c.table, OrganismOrEmpty(env.meta.from), entries.value[0].name) then Refused
      else Dispatch(entries.value[0].name)
  }

  /** A dispatched message's thread is offered to the registry. */
  function Registering(r: Registry, env: Envelope, v: RouteVerdict): Registry {
    if v.Dispatch? then WithThread(r, env.meta.thread, OrganismOrEmpty(env.meta.from), v.target).0 else r
  }

  method RouteMessage(c: Config, threads: ThreadRegistry, env: Envelope) returns (v: RouteVerdict)
    modifies threads
    ensures v == Route(c, env) && threads.View() == Registering(old(threads.View()), env, v)
  {
    if c.remotes.Some? {
      var remote := false;
      if env.meta.to.Some? && env.meta.to.value.segments != [] {
        remote := env.meta.to.value.segments[0].name in c.remotes.value;
      }
      if remote {
        return Escalated;
      }
    }
    var to := if env.meta.to.Some? then Organism(env.meta.to.value) else None;
    var from := OrganismOrEmpty(env.meta.from);
    var entries := Resolve(c.table, c.lower, to, env.payload.tag);
    if entries.Err? {
      return Unroutable;
    }
    var target := entries.value[0];
    if !MayMessage(c.table, from, target.name) {
      return Refused;
    }
    var known := threads.Lookup(env.meta.thread);
    if known.None? {
      var _ := threads.RegisterThread(env.meta.thread, from, target.name);
    }
    v := Dispatch(target.name);
  }

  // ---- Processing ----

  const ACK := Payload("ToolResponse", Rec([Field("success", Boolean(true)), Field("result", Str("ack"))]))

  function SpawnAck(accepted: bool): Payload {
    Payload("SpawnAck", Rec([Field("accepted", Boolean(accepted))]))
  }

  /** The answer on a pruned thread, if there is anybody to tell. */
  function Answer(target: string, to: Option<Target>, p: Provenance, payload: Payload): seq<Envelope> {
    if to.None? then [] else [Envelope(Meta(Flat(target), Some(Flat(to.value.name)), to.value.thread, p), payload)]
  }

  /** The call to `to` on the extended thread, if peers allow it. */
  function Call(t: Table, r: Registry, env: Envelope, target: string, to: Address, payload: Payload, uuid: string)
    : (Registry, seq<Envelope>)
  {
    if !MayMessage(t, target, OrganismOrEmpty(to)) then (r, [])
    else
      var (r', thread) := WithHop(r, env.meta.thread, OrganismOrEmpty(to), uuid);
      (r', [Envelope(Meta(Flat(target), Some(to), thread, env.meta.provenance), payload)])
  }

  /** The registry afterwards, and the envelopes that go back in, in order. */
  function Processed(t: Table, r: Registry, env: Envelope, target: string, o: Outcome, uuid: string)
    : (Registry, seq<Envelope>) {
    var m := env.meta;
    if o.Failed? then (r, [])
    else
      match o.response
      case Nothing =>
        var (r', to) := Pruned(r, m.thread, uuid);
        (r', Answer(target, to, m.provenance, ACK))
      case Reply(payload) =>
        var (r', to) := Pruned(r, m.thread, uuid);
        (r', Answer(target, to, m.provenance, payload))
      case Send(to, payload) => Call(t, r, env, target, to, payload, uuid)
      case Spawn(to, payload) =>
        var (r', work) := Call(t, r, env, target, to, payload, uuid);
        var ack := Meta(Flat(OrganismOrEmpty(to)), Some(Flat(target)), m.thread, m.provenance);
        (r', work + [Envelope(ack, SpawnAck(work != []))])
  }

  method ProcessMessage(t: Table, threads: ThreadRegistry, env: Envelope, target: string, o: Outcome, uuid: string)
    returns (out: seq<Envelope>)
    modifies threads
    ensures threads.View() == Processed(t, old(threads.View()), env, target, o, uuid).0
    ensures out == Processed(t, old(threads.View()), env, target, o, uuid).1
  {
    out := [];
    var provenance := env.meta.provenance;
    if o.Failed? {
      return;
    }
    match o.response {
      case Nothing =>
        var prune := threads.PruneForResponse(env.meta.thread, uuid);
        if prune.Some? {
          var to := prune.value;
          out := out + [Envelope(Meta(Flat(target), Some(Flat(to.name)), to.thread, provenance), ACK)];
        }
      case Reply(payload) =>
        var prune := threads.PruneForResponse(env.meta.thread, uuid);
        if prune.Some? {
          var to := prune.value;
          out := out + [Envelope(Meta(Flat(target), Some(Flat(to.name)), to.thread, provenance), payload)];
        }
      case Spawn(to, payload) =>
        var toName := OrganismOrEmpty(to);
        var accepted := MayMessage(t, target, toName);
        if accepted {
          var obligation := threads.ExtendChain(env.meta.thread, toName, uuid);
          out := out + [Envelope(Meta(Flat(target), Some(to), obligation, provenance), payload)];
        }
        var ack := Meta(Flat(toName), Some(Flat(target)), env.meta.thread, provenance);
        out := out + [Envelope(ack, SpawnAck(accepted))];
      case Send(to, payload) =>
        var toName := OrganismOrEmpty(to);
        if !MayMessage(t, target, toName) {
          return;
        }
        var thread := threads.ExtendChain(env.meta.thread, toName, uuid);
        out := out + [Envelope(Meta(Flat(target), Some(to), thread, provenance), payload)];
    }
  }
}
