/**
 Runs of the pipeline: messages come in, go through the stages in any order and speed, and
 whatever handlers answer goes back in as untrusted events.

 Every message remembers, for the proofs only, which injected message it descends from, whose
 answer it is, and the envelope this answer was turned into.
 */
module PipelineRuns {
  import opened Results
  import opened Wire
  import opened Codec
  import opened CodecTheorems
  import opened Threads
  import opened Pipeline

  /** A message before parsing, before validation, before routing, and waiting for its handler. */
  datatype Item =
    | Raw(evs: seq<Event>)
    | Parsed(env: Envelope)
    | Checked(env: Envelope)
    | Routed(env: Envelope, target: string)

  datatype Message = Message(item: Item, root: nat, cause: Option<string>, sent: Option<Envelope>)

  datatype Dispatched = Dispatched(env: Envelope, target: string, root: nat, cause: Option<string>)

  datatype Gone = Gone(env: Envelope, root: nat, cause: Option<string>, sent: Option<Envelope>)

  /**
   `log` lists the dispatches so far, `gone` what was handed to federation. `down` is set when the
   parse task has panicked: nothing gets in or past it any more.
   */
  datatype State = State(
    items: seq<Message>,
    down: bool,
    registry: Registry,
    injected: seq<seq<Event>>,
    log: seq<Dispatched>,
    gone: seq<Gone>)

  datatype Step = Inject(evs: seq<Event>) | Advance(i: nat) | Process(i: nat, outcome: Outcome, uuid: string)

  function Initial(r: Registry): State {
    State([], false, r, [], [], [])
  }

  ghost predicate Printed(c: Config, o: Outcome) {
    o.Responded? && !o.response.Nothing? ==> RealsPrinted(o.response.payload.value, c.reals)
  }

  /** Reals in answers are carried as their printed texts, and uuids are new. */
  ghost predicate Enabled(c: Config, s: State, step: Step) {
    match step
    case Inject(_) => !s.down
    case Advance(i) => i < |s.items| && !s.items[i].item.Routed? && (s.items[i].item.Raw? ==> !s.down)
    case Process(i, o, uuid) => i < |s.items| && s.items[i].item.Routed? && Printed(c, o) && uuid !in s.registry.uuids
  }

  function Without(items: seq<Message>, i: nat): (r: seq<Message>)
    requires i < |items|
    ensures forall m :: m in r ==> m in items
  {
    items[..i] + items[i + 1..]
  }

  function Replaced(s: State, i: nat, item: Item): State
    requires i < |s.items|
  {
    s.(items := s.items[i := s.items[i].(item := item)])
  }

  /** The message at `i` goes through its next stage, or dies there. */
  function Advanced(c: Config, s: State, i: nat): State
    requires i < |s.items| && !s.items[i].item.Routed?
  {
    var m := s.items[i];
    var dropped := s.(items := Without(s.items, i));
    match m.item
    case Raw(evs) =>
      var env := Decode(evs, c.reals);
      if env.Ok? then Replaced(s, i, Parsed(env.value)) else dropped.(down := env.error.Crash?)
    case Parsed(env) => if Valid(c, env.payload) then Replaced(s, i, Checked(env)) else dropped
    case Checked(env) =>
      var v := Route(c, env);
      if v.Escalated? then dropped.(gone := s.gone + [Gone(env, m.root, m.cause, m.sent)])
      else if v.Dispatch? then
        Replaced(s, i, Item.Routed(env, v.target))
        .(registry := Registering(s.registry, env, v), log := s.log + [Dispatched(env, v.target, m.root, m.cause)])
      else dropped
  }

  /** What goes back in: the written envelopes, as the reader will deliver them. */
  function Reinjected(out: seq<Envelope>, root: nat, cause: string): (r: seq<Message>)
    ensures |r| == |out|
  {
    if out == [] then []
    else
      var last := out[|out| - 1];
      Reinjected(out[..|out| - 1], root, cause)
      + [Message(Raw(Delivered(WrittenEnvelope(last))), root, Some(cause), Some(last))]
  }

  function ProcessedAt(c: Config, s: State, i: nat, o: Outcome, uuid: string): (Registry, seq<Envelope>)
    requires i < |s.items| && s.items[i].item.Routed?
  {
    Processed(c.table, s.registry, s.items[i].item.env, s.items[i].item.target, o, uuid)
  }

  function Apply(c: Config, s: State, step: Step): State
    requires Enabled(c, s, step)
  {
    match step
    case Inject(evs) =>
      s.(items := s.items + [Message(Raw(evs), |s.injected|, None, None)], injected := s.injected + [evs])
    case Advance(i) => Advanced(c, s, i)
    case Process(i, o, uuid) =>
      var (r, out) := ProcessedAt(c, s, i, o, uuid);
      s.(items := Without(s.items, i) + Reinjected(out, s.items[i].root, s.items[i].item.target), registry := r)
  }

  ghost predicate Run(c: Config, s: State, steps: seq<Step>)
    decreases |steps|
  {
    steps == [] || (Enabled(c, s, steps[0]) && Run(c, Apply(c, s, steps[0]), steps[1..]))
  }

  function After(c: Config, s: State, steps: seq<Step>): State
    requires Run(c, s, steps)
    decreases |steps|
  {
    if steps == [] then s else After(c, Apply(c, s, steps[0]), steps[1..])
  }
}
