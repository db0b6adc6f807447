/** Calls, returns and the thread registry in runs of the pipeline. */
module PipelineCalls {
  import opened Results
  import opened Text
  import opened Wire
  import opened Addresses
  import opened Codec
  import opened CodecTheorems
  import opened EnvelopeTheorems
  import opened Chains
  import opened Threads
  import opened Routing
  import opened Pipeline
  import opened PipelineRuns
  import opened PipelineTheorems

  // ---- A run's operations on the registry ----

  /** What a step does to the thread registry: one operation, or none. */
  function OpOf(c: Config, s: State, step: Step): seq<Op>
    requires Enabled(c, s, step)
  {
    match step
    case Inject(_) => []
    case Advance(i) =>
      if !s.items[i].item.Checked? then []
      else
        var env := s.items[i].item.env;
        var v := Route(c, env);
        if v.Dispatch? then [Register(env.meta.thread, OrganismOrEmpty(env.meta.from), v.target)] else []
    case Process(i, o, uuid) =>
      var thread := s.items[i].item.env.meta.thread;
      if o.Failed? then []
      else if o.response.Nothing? || o.response.Reply? then [Prune(thread, uuid)]
      else
        var hop := OrganismOrEmpty(o.response.to);
        if MayMessage(c.table, s.items[i].item.target, hop) then [Extend(thread, hop, uuid)] else []
  }

  function OpsOf(c: Config, s: State, steps: seq<Step>): seq<Op>
    requires Run(c, s, steps)
    decreases |steps|
  {
    if steps == [] then [] else OpOf(c, s, steps[0]) + OpsOf(c, Apply(c, s, steps[0]), steps[1..])
  }

  lemma StepActs(c: Config, s: State, step: Step)
    requires Enabled(c, s, step)
    ensures Apply(c, s, step).registry == DoAll(s.registry, OpOf(c, s, step))
    ensures FreshOps(s.registry, OpOf(c, s, step))
  {
    hide Decode, Route, Valid, Delivered, WrittenEnvelope, MayMessage, Organism, Printed;
  }

  lemma DoMore(r: Registry, op: seq<Op>, ops: seq<Op>)
    requires |op| <= 1 && FreshOps(r, op) && FreshOps(DoAll(r, op), ops)
    ensures DoAll(r, op + ops) == DoAll(DoAll(r, op), ops) && FreshOps(r, op + ops)
  {
    if op == [] {
      assert op + ops == ops;
    } else {
      assert (op + ops)[1..] == ops;
    }
  }

  lemma NoOps(r: Registry)
    ensures DoAll(r, []) == r && FreshOps(r, [])
  {
  }

  lemma OneOpAtMost(c: Config, s: State, step: Step)
    requires Enabled(c, s, step)
    ensures |OpOf(c, s, step)| <= 1
  {
  }

  /** A run acts on the registry as some sequence of the registry's operations, with new uuids. */
  lemma {:induction false} RunActs(c: Config, s: State, steps: seq<Step>)
    requires Run(c, s, steps)
    ensures After(c, s, steps).registry == DoAll(s.registry, OpsOf(c, s, steps))
    ensures FreshOps(s.registry, OpsOf(c, s, steps))
    decreases |steps|
  {
    hide Enabled, Apply, OpOf, DoAll, FreshOps;
    if steps == [] {
      NoOps(s.registry);
    } else {
      OneOpAtMost(c, s, steps[0]);
      StepActs(c, s, steps[0]);
      RunActs(c, Apply(c, s, steps[0]), steps[1..]);
      DoMore(s.registry, OpOf(c, s, steps[0]), OpsOf(c, Apply(c, s, steps[0]), steps[1..]));
    }
  }

  /** From boot on, the registry's maps are inverse and the root stays bound in every run. */
  lemma RegistryStaysInverse(c: Config, organism: string, uuid: string, steps: seq<Step>)
    requires Run(c, Initial(WithRoot(EMPTY, organism, uuid).0), steps)
    ensures var r := After(c, Initial(WithRoot(EMPTY, organism, uuid).0), steps).registry;
      Inverse(r) && uuid in r.uuids && r.uuids[uuid] == "system" + [DOT] + organism
  {
    var s := Initial(WithRoot(EMPTY, organism, uuid).0);
    RunActs(c, s, steps);
    BootedRegistryStaysInverse(organism, uuid, OpsOf(c, s, steps));
  }

  // ---- What a call and an answer are turned into ----

  predicate IsCallResponse(o: Outcome) {
    o.Responded? && (o.response.Send? || o.response.Spawn?)
  }

  /**
   A call within the peers, from any registry: the work goes from the caller to the given address
   with the given payload, on a thread that is bound to the caller's chain and the callee; every
   earlier binding stays.
   */
  lemma CallIsBound(t: Table, r: Registry, env: Envelope, x: string, o: Outcome, uuid: string)
    requires Inverse(r) && uuid !in r.uuids && IsCallResponse(o) && MayMessage(t, x, OrganismOrEmpty(o.response.to))
    ensures var (r', out) := Processed(t, r, env, x, o, uuid);
      && out != [] && out[0].meta.from == Flat(x) && out[0].meta.to == Some(o.response.to)
      && out[0].payload == o.response.payload
      && Inverse(r') && out[0].meta.thread in r'.uuids
      && r'.uuids[out[0].meta.thread] == Extended(ChainOf(r, env.meta.thread), OrganismOrEmpty(o.response.to))
      && (forall u :: u in r.uuids ==> u in r'.uuids && r'.uuids[u] == r.uuids[u])
  {
    hide MayMessage, OrganismOrEmpty, WithHop, Inverse, Extended, ChainOf;
    HopIsBound(r, env.meta.thread, OrganismOrEmpty(o.response.to), uuid);
  }

  lemma CallThread(t: Table, r: Registry, env: Envelope, x: string, o: Outcome, uuid: string)
    requires IsCallResponse(o) && MayMessage(t, x, OrganismOrEmpty(o.response.to))
    ensures var (r', out) := Processed(t, r, env, x, o, uuid);
      && out != [] && out[0].meta.thread == WithHop(r, env.meta.thread, OrganismOrEmpty(o.response.to), uuid).1
      && r' == WithHop(r, env.meta.thread, OrganismOrEmpty(o.response.to), uuid).0
  {
    hide MayMessage, OrganismOrEmpty, WithHop;
  }

  /** Two calls from one thread to one callee go out on one thread, whatever the second uuid is. */
  lemma CallsShareTheirThread(t: Table, r: Registry, env: Envelope, x: string, o: Outcome, uuid: string,
                              o': Outcome, uuid': string)
    requires Inverse(r) && uuid !in r.uuids && IsCallResponse(o) && IsCallResponse(o')
    requires OrganismOrEmpty(o'.response.to) == OrganismOrEmpty(o.response.to)
    requires MayMessage(t, x, OrganismOrEmpty(o.response.to))
    requires env.meta.thread in r.uuids || env.meta.thread != uuid
    requires uuid' !in Processed(t, r, env, x, o, uuid).0.uuids
    ensures var (r1, first) := Processed(t, r, env, x, o, uuid);
      var second := Processed(t, r1, env, x, o', uuid').1;
      second != [] && second[0].meta.thread == first[0].meta.thread
  {
    hide MayMessage, OrganismOrEmpty, Processed, WithHop, Extended;
    CallIsBound(t, r, env, x, o, uuid);
    CallThread(t, r, env, x, o, uuid);
    var r1 := Processed(t, r, env, x, o, uuid).0;
    OnlyNewIds(r, env.meta.thread, OrganismOrEmpty(o.response.to), uuid);
    CallIsBound(t, r1, env, x, o', uuid');
    assert ChainOf(r1, env.meta.thread) == ChainOf(r, env.meta.thread);
  }

  lemma OnlyNewIds(r: Registry, thread: string, hop: string, uuid: string)
    ensures forall u :: u in WithHop(r, thread, hop, uuid).0.uuids ==> u in r.uuids || u == uuid
  {
  }

  /** The payload says that all went well. */
  predicate SaysSuccess(p: Payload) {
    p.tag == "ToolResponse" && p.value.Rec?
    && Field("success", Boolean(true)) in p.value.fields && Field("result", Str("ack")) in p.value.fields
  }

  /**
   A handler with nothing to say is answered for: exactly when its reply would go out, to the same
   listener on the same thread, and with the same effect on the registry.
   */
  lemma NothingIsAnsweredFor(t: Table, r: Registry, env: Envelope, x: string, uuid: string, payload: Payload)
    ensures var (r1, said) := Processed(t, r, env, x, Responded(Nothing), uuid);
      var (r2, replied) := Processed(t, r, env, x, Responded(Reply(payload)), uuid);
      && r1 == r2 && |said| == |replied| <= 1
      && (forall i :: 0 <= i < |said| ==> said[i].meta == replied[i].meta && SaysSuccess(said[i].payload)
                                          && replied[i].payload == payload)
  {
    hide Pruned;
  }

  /** A failed handler, and a call outside the peers, change nothing; only a spawner is told. */
  lemma NothingHappens(t: Table, r: Registry, env: Envelope, x: string, o: Outcome, uuid: string)
    requires o.Failed? || (IsCallResponse(o) && !MayMessage(t, x, OrganismOrEmpty(o.response.to)))
    ensures var (r', out) := Processed(t, r, env, x, o, uuid);
      && r' == r && (out == [] <==> o.Failed? || o.response.Send?)
      && (out != [] ==> |out| == 1 && out[0].payload == SpawnAck(false))
  {
    hide MayMessage, OrganismOrEmpty;
  }

  // ---- Call and return ----

  function ThreadAt(s: State, i: nat): string
    requires i < |s.items| && s.items[i].item.Routed?
  {
    s.items[i].item.env.meta.thread
  }

  function AnswerPayload(back: Outcome): Payload
    requires IsReply(back)
  {
    if back.response.Nothing? then ACK else back.response.payload
  }

  /** The envelope an answer of the handler at `j` would be turned into, addressed to `to`. */
  function AnswerTo(s: State, j: nat, back: Outcome, to: Target): Envelope
    requires j < |s.items| && s.items[j].item.Routed? && IsReply(back)
  {
    var callee := s.items[j].item;
    Envelope(Meta(Flat(callee.target), Some(Flat(to.name)), to.thread, callee.env.meta.provenance), AnswerPayload(back))
  }

  /** A handler at `i` calls or spawns within its peers, `steps` follow, and a handler at `j` answers. */
  ghost predicate CallAndAnswer(c: Config, s: State, i: nat, o: Outcome, uuid: string, steps: seq<Step>,
                                j: nat, back: Outcome, uuid': string) {
    && Enabled(c, s, Process(i, o, uuid)) && IsCallResponse(o) && IsReply(back)
    && MayMessage(c.table, s.items[i].item.target, OrganismOrEmpty(o.response.to))
    && var s1 := Apply(c, s, Process(i, o, uuid));
    && Run(c, s1, steps)
    && var s2 := After(c, s1, steps);
    j < |s2.items| && s2.items[j].item.Routed? && uuid' !in s2.registry.uuids
  }

  /** What the answer is turned into. */
  ghost function AnswerOut(c: Config, s: State, i: nat, o: Outcome, uuid: string, steps: seq<Step>,
                           j: nat, back: Outcome, uuid': string): seq<Envelope>
    requires CallAndAnswer(c, s, i, o, uuid, steps, j, back, uuid')
  {
    ProcessedAt(c, After(c, Apply(c, s, Process(i, o, uuid)), steps), j, back, uuid').1
  }

  /**
   Call and return, for every caller.
   If the caller's thread `t` stands for a chain of two or more segments, the answer goes to the
   last of them, on `t`, exactly if the callee's name `hop` is dot-free.
   If it stands for one segment and `hop` is dot-free, the answer goes there, on whatever thread
   this segment has then.
   If it has no chain, which routing allows, an answer of a dot-free `hop` is dropped, unless the
   called thread's id is handed out again.
   With a dot in `hop`, whatever `t` stands for, the answer goes to the last but one segment of `hop`.
   */
  ghost predicate Returns(c: Config, s: State, i: nat, o: Outcome, uuid: string, steps: seq<Step>,
                          j: nat, back: Outcome, uuid': string)
    requires CallAndAnswer(c, s, i, o, uuid, steps, j, back, uuid')
  {
    var s1 := Apply(c, s, Process(i, o, uuid));
    var s2 := After(c, s1, steps);
    var t, hop := ThreadAt(s, i), OrganismOrEmpty(o.response.to);
    var chain := ChainOf(s.registry, t);
    var parts := Split(chain);
    var out := AnswerOut(c, s, i, o, uuid, steps, j, back, uuid');
    && (Deep(chain) ==> (out == [AnswerTo(s2, j, back, Target(parts[|parts| - 1], t))] <==> DotFree(hop)))
    && (!Deep(chain) && chain != "" && DotFree(hop) ==>
          var owner := if chain in s2.registry.chains then s2.registry.chains[chain] else uuid';
          out == [AnswerTo(s2, j, back, Target(chain, owner))])
    && (chain == "" && DotFree(hop) && NotReissued(OpsOf(c, s1, steps), ThreadAt(s2, j)) ==> out == [])
    && (!DotFree(hop) ==>
          var hops := Split(hop);
          |out| == 1 && |hops| >= 2 && out[0].meta.to == Some(Flat(hops[|hops| - 2])))
  }

  /** From any state with inverse maps, an answer on the called thread returns. */
  lemma CallReturnInRuns(c: Config, s: State, i: nat, o: Outcome, uuid: string, steps: seq<Step>,
                         j: nat, back: Outcome, uuid': string)
    requires Inverse(s.registry) && CallAndAnswer(c, s, i, o, uuid, steps, j, back, uuid')
    requires ThreadAt(After(c, Apply(c, s, Process(i, o, uuid)), steps), j)
      == WithHop(s.registry, ThreadAt(s, i), OrganismOrEmpty(o.response.to), uuid).1
    ensures Returns(c, s, i, o, uuid, steps, j, back, uuid')
  {
    hide Split, Organism, MayMessage, Inverse, FreshOps, Delivered, WrittenEnvelope, WithHop, DoAll, Apply, ProcessedAt,
      Processed, Run, After, OpsOf, Deep, Printed, Pruned, NotReissued, DotFree, AnswerTo;
    var t, hop := ThreadAt(s, i), OrganismOrEmpty(o.response.to);
    var s1 := Apply(c, s, Process(i, o, uuid));
    CallExtends(c, s, i, o, uuid);
    RunActs(c, s1, steps);
    var s2 := After(c, s1, steps);
    var ops := OpsOf(c, s1, steps);
    var chain := ChainOf(s.registry, t);
    var parts := Split(chain);
    if Deep(chain) {
      EmptyIsShallow();
      CallReturn(s.registry, t, hop, uuid, ops, uuid');
      AnswerGoes(c, s2, j, back, uuid', Target(parts[|parts| - 1], t));
    } else if chain != "" {
      if DotFree(hop) {
        ShallowCallReturn(s.registry, t, hop, uuid, ops, uuid');
        var owner := if chain in s2.registry.chains then s2.registry.chains[chain] else uuid';
        AnswerGoes(c, s2, j, back, uuid', Target(chain, owner));
      }
    } else if DotFree(hop) && NotReissued(ops, ThreadAt(s2, j)) {
      ChainlessCallIsDropped(s.registry, t, hop, uuid, ops, uuid');
      NoAnswer(c, s2, j, back, uuid');
    }
    if !DotFree(hop) {
      DottedCallGoesAstray(s.registry, t, hop, uuid, ops, uuid');
      var answer := Pruned(s2.registry, ThreadAt(s2, j), uuid').1.value;
      AnswerGoes(c, s2, j, back, uuid', answer);
      AnswerNames(s2, j, back, answer);
    }
  }

  lemma AnswerNames(s: State, j: nat, back: Outcome, to: Target)
    requires j < |s.items| && s.items[j].item.Routed? && IsReply(back)
    ensures AnswerTo(s, j, back, to).meta.to == Some(Flat(to.name))
  {
  }

  lemma EmptyIsShallow()
    ensures !Deep("")
  {
  }

  lemma NoAnswer(c: Config, s: State, j: nat, back: Outcome, uuid: string)
    requires j < |s.items| && s.items[j].item.Routed? && IsReply(back)
    ensures ProcessedAt(c, s, j, back, uuid).1 == [] <==> Pruned(s.registry, ThreadAt(s, j), uuid).1 == None
  {
    hide Pruned;
  }

  /** An answer goes where pruning says. */
  lemma AnswerGoes(c: Config, s: State, j: nat, back: Outcome, uuid: string, to: Target)
    requires j < |s.items| && s.items[j].item.Routed? && IsReply(back)
    ensures ProcessedAt(c, s, j, back, uuid).1 == [AnswerTo(s, j, back, to)]
      <==> Pruned(s.registry, ThreadAt(s, j), uuid).1 == Some(to)
  {
    hide Pruned;
    var pruned := Pruned(s.registry, ThreadAt(s, j), uuid).1;
    if pruned.Some? {
      FlatRoundTrip(pruned.value.name);
      FlatRoundTrip(to.name);
    }
  }

  lemma CallExtends(c: Config, s: State, i: nat, o: Outcome, uuid: string)
    requires Enabled(c, s, Process(i, o, uuid)) && IsCallResponse(o)
    requires MayMessage(c.table, s.items[i].item.target, OrganismOrEmpty(o.response.to))
    ensures Apply(c, s, Process(i, o, uuid)).registry
      == WithHop(s.registry, ThreadAt(s, i), OrganismOrEmpty(o.response.to), uuid).0
  {
    hide MayMessage, OrganismOrEmpty, Delivered, WrittenEnvelope, WithHop, Processed, Reinjected;
    CallThread(c.table, s.registry, s.items[i].item.env, s.items[i].item.target, o, uuid);
  }

  // ---- Descent ----

  /** A message that an answer was turned into is still what was written then, or what was received of it. */
  ghost predicate Traced(c: Config, m: Message) {
    m.sent.Some? ==>
      match m.item
      case Raw(evs) =>
        evs == Delivered(WrittenEnvelope(m.sent.value)) && RealsPrinted(m.sent.value.payload.value, c.reals)
      case Parsed(env) => Received(m.sent.value) == Ok(env)
      case Checked(env) => Received(m.sent.value) == Ok(env)
      case Routed(env, _) => Received(m.sent.value) == Ok(env)
  }

  ghost predicate AllTraced(c: Config, s: State) {
    forall m :: m in s.items ==> Traced(c, m)
  }

  lemma StepTraced(c: Config, s: State, step: Step)
    requires AllTraced(c, s) && Enabled(c, s, step)
    ensures AllTraced(c, Apply(c, s, step))
  {
    hide Decode, Delivered, WrittenEnvelope, Received, RealsPrinted, Route, Valid, Registering, Processed, Reinjected;
    var s' := Apply(c, s, step);
    match step {
      case Inject(evs) =>
      case Advance(i) =>
        var m := s.items[i];
        assert Traced(c, m);
        if m.item.Raw? && m.sent.Some? {
          DecodeEncoded(m.sent.value, c.reals);
        }
      case Process(i, o, uuid) =>
        var out := ProcessedAt(c, s, i, o, uuid).1;
        var env, target := s.items[i].item.env, s.items[i].item.target;
        forall m | m in Reinjected(out, s.items[i].root, target)
          ensures Traced(c, m)
        {
          ReinjectedMembers(out, s.items[i].root, target, m);
          OutputsPrinted(c, s.registry, env, target, o, uuid, m.sent.value);
        }
    }
  }

  lemma {:induction false} RunTraced(c: Config, s: State, steps: seq<Step>)
    requires AllTraced(c, s) && Run(c, s, steps)
    ensures AllTraced(c, After(c, s, steps))
    decreases |steps|
  {
    if steps != [] {
      StepTraced(c, s, steps[0]);
      RunTraced(c, Apply(c, s, steps[0]), steps[1..]);
    }
  }

  /** What descends from an envelope is on its thread, if this is a text without blanks around it. */
  lemma DescendantThread(c: Config, m: Message, e: Envelope)
    requires Traced(c, m) && m.item.Routed? && m.sent == Some(e)
    requires e.meta.thread != "" && Trimmed(e.meta.thread, IsSpace)
    ensures m.item.env.meta.thread == e.meta.thread
  {
    hide Received, Trim, Trimmed;
    ReceivedMeta(e);
    ArrivedUnchanged(e.meta.thread);
  }

  /**
   Call and return from boot. In every run, when a handler has called and a message that descends
   from this very call is with the callee, the callee's answer, or the acknowledgement that stands
   for one, returns. Thread ids need no blanks around them, as generated ones have none.
   */
  lemma CallReturnFromBoot(c: Config, organism: string, root: string,
                           before: seq<Step>, i: nat, o: Outcome, uuid: string,
                           steps: seq<Step>, j: nat, back: Outcome, uuid': string)
    requires Run(c, Initial(WithRoot(EMPTY, organism, root).0), before)
    requires var s := After(c, Initial(WithRoot(EMPTY, organism, root).0), before);
      && CallAndAnswer(c, s, i, o, uuid, steps, j, back, uuid')
      && var call := ProcessedAt(c, s, i, o, uuid).1;
      call != [] && call[0].meta.thread != "" && Trimmed(call[0].meta.thread, IsSpace)
      && After(c, Apply(c, s, Process(i, o, uuid)), steps).items[j].sent == Some(call[0])
    ensures Returns(c, After(c, Initial(WithRoot(EMPTY, organism, root).0), before), i, o, uuid, steps, j, back, uuid')
  {
    hide Returns, Run, After, Apply, Processed, WithRoot, WithHop, Inverse, Trimmed, MayMessage, Traced,
      OrganismOrEmpty;
    var s0 := Initial(WithRoot(EMPTY, organism, root).0);
    var s := After(c, s0, before);
    RegistryStaysInverse(c, organism, root, before);
    RunTraced(c, s0, before);
    StepTraced(c, s, Process(i, o, uuid));
    var s1 := Apply(c, s, Process(i, o, uuid));
    RunTraced(c, s1, steps);
    var s2 := After(c, s1, steps);
    CallThread(c.table, s.registry, s.items[i].item.env, s.items[i].item.target, o, uuid);
    DescendantThread(c, s2.items[j], ProcessedAt(c, s, i, o, uuid).1[0]);
    CallReturnInRuns(c, s, i, o, uuid, steps, j, back, uuid');
  }
}
