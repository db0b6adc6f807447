/** What holds in every run of the pipeline, whatever handlers, middleware and outsiders do. */
module PipelineTheorems {
  import opened Results
  import opened Text
  import opened Wire
  import opened Addresses
  import opened Codec
  import opened CodecTheorems
  import opened EnvelopeTheorems
  import opened Callees
  import opened Chains
  import opened Threads
  import opened Routing
  import opened Pipeline
  import opened PipelineRuns

  lemma {:induction false} ReinjectedMembers(out: seq<Envelope>, root: nat, cause: string, m: Message)
    requires m in Reinjected(out, root, cause)
    ensures m.root == root && m.cause == Some(cause)
    ensures m.sent.Some? && m.sent.value in out && m.item == Raw(Delivered(WrittenEnvelope(m.sent.value)))
    decreases |out|
  {
    hide Delivered, WrittenEnvelope;
    var n := |out| - 1;
    if m in Reinjected(out[..n], root, cause) {
      ReinjectedMembers(out[..n], root, cause, m);
    } else {
      assert out[n] in out;
    }
  }

  /** What a handler's answer is turned into: same provenance, and the handler's name on it. */
  lemma OutputsMarked(t: Table, r: Registry, env: Envelope, target: string, o: Outcome, uuid: string, e: Envelope)
    requires e in Processed(t, r, env, target, o, uuid).1
    ensures e.meta.provenance == env.meta.provenance
    ensures e.meta.from == Flat(target) || e.meta.to == Some(Flat(target))
    ensures e.payload == ACK || e.payload == SpawnAck(true) || e.payload == SpawnAck(false)
         || (o.Responded? && !o.response.Nothing? && e.payload == o.response.payload)
  {
    hide Pruned, WithHop, MayMessage, Organism;
  }

  lemma OutputsPrinted(c: Config, r: Registry, env: Envelope, target: string, o: Outcome, uuid: string, e: Envelope)
    requires Printed(c, o) && e in Processed(c.table, r, env, target, o, uuid).1
    ensures RealsPrinted(e.payload.value, c.reals)
  {
    OutputsMarked(c.table, r, env, target, o, uuid, e);
    hide Processed;
    AcksPrinted(c);
  }

  lemma AcksPrinted(c: Config)
    ensures RealsPrinted(ACK.value, c.reals)
    ensures RealsPrinted(SpawnAck(true).value, c.reals) && RealsPrinted(SpawnAck(false).value, c.reals)
  {
  }

  // ---- Provenance ----

  /** `env` carries the provenance of the injected message `raw`. */
  ghost predicate FromRoot(c: Config, raw: seq<Event>, env: Envelope) {
    var first := Decode(raw, c.reals);
    first.Ok? && first.value.meta.provenance == env.meta.provenance
  }

  ghost predicate Carries(c: Config, injected: seq<seq<Event>>, m: Message) {
    && m.root < |injected|
    && match m.item
       case Raw(evs) =>
         var env := Decode(evs, c.reals);
         env.Ok? ==> FromRoot(c, injected[m.root], env.value)
       case Parsed(env) => FromRoot(c, injected[m.root], env)
       case Checked(env) => FromRoot(c, injected[m.root], env)
       case Routed(env, _) => FromRoot(c, injected[m.root], env)
  }

  ghost predicate CarriedAlong(c: Config, s: State) {
    && (forall m :: m in s.items ==> Carries(c, s.injected, m))
    && (forall d :: d in s.log ==> d.root < |s.injected| && FromRoot(c, s.injected[d.root], d.env))
    && (forall g :: g in s.gone ==> g.root < |s.injected| && FromRoot(c, s.injected[g.root], g.env))
  }

  lemma ReinjectionCarries(c: Config, s: State, i: nat, o: Outcome, uuid: string, m: Message)
    requires Enabled(c, s, Process(i, o, uuid)) && Carries(c, s.injected, s.items[i])
    requires m in Reinjected(ProcessedAt(c, s, i, o, uuid).1, s.items[i].root, s.items[i].item.target)
    ensures Carries(c, s.injected, m)
  {
    hide Decode, Delivered, WrittenEnvelope, Processed, RealsPrinted;
    var out := ProcessedAt(c, s, i, o, uuid).1;
    var env, target := s.items[i].item.env, s.items[i].item.target;
    ReinjectedMembers(out, s.items[i].root, target, m);
    var e := m.sent.value;
    OutputsMarked(c.table, s.registry, env, target, o, uuid, e);
    OutputsPrinted(c, s.registry, env, target, o, uuid, e);
    ProvenanceSurvives(e, c.reals);
  }

  lemma AdvanceCarries(c: Config, s: State, i: nat)
    requires CarriedAlong(c, s) && Enabled(c, s, Advance(i))
    ensures CarriedAlong(c, Advanced(c, s, i))
  {
    hide Decode, Delivered, WrittenEnvelope, RealsPrinted, Route, Valid, Registering;
    assert Carries(c, s.injected, s.items[i]);
  }

  lemma StepCarries(c: Config, s: State, step: Step)
    requires CarriedAlong(c, s) && Enabled(c, s, step)
    ensures CarriedAlong(c, Apply(c, s, step))
  {
    hide Decode, Delivered, WrittenEnvelope, Processed, RealsPrinted, Advanced, Reinjected;
    var s' := Apply(c, s, step);
    match step {
      case Inject(evs) =>
        assert s'.injected[|s.injected|] == evs;
        assert forall k :: 0 <= k < |s.injected| ==> s'.injected[k] == s.injected[k];
      case Advance(i) => AdvanceCarries(c, s, i);
      case Process(i, o, uuid) =>
        forall m | m in s'.items ensures Carries(c, s'.injected, m) {
          if m !in s.items {
            ReinjectionCarries(c, s, i, o, uuid, m);
          }
        }
    }
  }

  lemma {:induction false} RunCarries(c: Config, s: State, steps: seq<Step>)
    requires CarriedAlong(c, s) && Run(c, s, steps)
    ensures CarriedAlong(c, After(c, s, steps))
    decreases |steps|
  {
    if steps != [] {
      StepCarries(c, s, steps[0]);
      RunCarries(c, Apply(c, s, steps[0]), steps[1..]);
    }
  }

  /**
   In every run, whatever is dispatched to a handler or handed to federation carries exactly the
   provenance of the injected message it descends from, through any number of answers.
   */
  lemma WholeRunProvenance(c: Config, r: Registry, steps: seq<Step>)
    requires Run(c, Initial(r), steps)
    ensures var s := After(c, Initial(r), steps);
      && (forall d :: d in s.log ==> d.root < |s.injected| && FromRoot(c, s.injected[d.root], d.env))
      && (forall g :: g in s.gone ==> g.root < |s.injected| && FromRoot(c, s.injected[g.root], g.env))
  {
    RunCarries(c, Initial(r), steps);
  }

  // ---- Gates ----

  /** A message past validation is valid. */
  ghost predicate PastGates(c: Config, m: Message) {
    m.item.Checked? || m.item.Routed? ==> Valid(c, m.item.env.payload)
  }

  ghost predicate Gated(c: Config, s: State) {
    && (forall m :: m in s.items ==> PastGates(c, m))
    && (forall d :: d in s.log ==> Valid(c, d.env.payload) && Route(c, d.env) == Dispatch(d.target))
    && (forall g :: g in s.gone ==> Valid(c, g.env.payload) && Route(c, g.env) == Escalated)
  }

  lemma StepGated(c: Config, s: State, step: Step)
    requires Gated(c, s) && Enabled(c, s, step)
    ensures Gated(c, Apply(c, s, step))
  {
    hide Decode, Route, Valid, Registering, Processed, Reinjected, Printed;
    match step {
      case Inject(_) =>
      case Advance(i) =>
        assert PastGates(c, s.items[i]);
      case Process(i, o, uuid) =>
        var out := ProcessedAt(c, s, i, o, uuid).1;
        forall m | m in Reinjected(out, s.items[i].root, s.items[i].item.target) ensures m.item.Raw? {
          ReinjectedMembers(out, s.items[i].root, s.items[i].item.target, m);
        }
    }
  }

  lemma {:induction false} RunGated(c: Config, s: State, steps: seq<Step>)
    requires Gated(c, s) && Run(c, s, steps)
    ensures Gated(c, After(c, s, steps))
    decreases |steps|
  {
    if steps != [] {
      StepGated(c, s, steps[0]);
      RunGated(c, Apply(c, s, steps[0]), steps[1..]);
    }
  }

  /**
   The pipeline is the trust boundary: in every run, whatever a handler gets was validated, is for
   no remote node, was resolved by address and tag, and was allowed by its sender's peers; and
   only validated messages for remote nodes are handed to federation.
   */
  lemma EveryDispatchIsGated(c: Config, r: Registry, steps: seq<Step>)
    requires Run(c, Initial(r), steps)
    ensures var s := After(c, Initial(r), steps);
      && (forall d :: d in s.log ==>
            var to := if d.env.meta.to.Some? then Organism(d.env.meta.to.value) else None;
            var entries := Resolve(c.table, c.lower, to, d.env.payload.tag);
            && Valid(c, d.env.payload) && !IsRemote(c, d.env.meta.to)
            && entries.Ok? && entries.value[0].name == d.target
            && MayMessage(c.table, OrganismOrEmpty(d.env.meta.from), d.target))
      && (forall g :: g in s.gone ==> Valid(c, g.env.payload) && IsRemote(c, g.env.meta.to))
  {
    RunGated(c, Initial(r), steps);
    hide Run, After, Resolve, MayMessage, Valid, Organism, IsRemote;
  }

  // ---- Peers ----

  /** Names as a configuration should have them: parsed back as they are, and distinct up to case. */
  ghost predicate WellNamed(c: Config) {
    && LowerLaw(c.lower) && Consistent(c.table, c.lower) && DistinctNames(c.table, c.lower)
    && forall name :: name in c.table.byName ==> name != "" && Plain(name) && Trimmed(name, IsSpace)
  }

  ghost predicate MayReach(t: Table, x: string, y: string) {
    x == y || MayMessage(t, x, y)
  }

  /** The envelope names `x` as its sender, or goes to `x`. */
  ghost predicate Names(env: Envelope, x: string) {
    env.meta.from == Flat(x) || env.meta.to == Some(Flat(x))
  }

  /** A call whose callee `x` may message. */
  ghost predicate IsCall(c: Config, x: string, e: Envelope) {
    e.meta.from == Flat(x) && e.meta.to.Some? && MayMessage(c.table, x, OrganismOrEmpty(e.meta.to.value))
  }

  /** An answer, or an acknowledgement to `x` itself: it goes to a bare name, and nobody asked its peers. */
  ghost predicate IsAnswer(x: string, e: Envelope) {
    && Names(e, x)
    && exists name :: DotFree(name) && e.meta.to == Some(Flat(name))
  }

  /** `env` is what arrived of `sent`, which an answer of `x` was turned into. */
  ghost predicate Descends(c: Config, x: string, sent: Option<Envelope>, env: Envelope) {
    sent.Some? && (IsCall(c, x, sent.value) || IsAnswer(x, sent.value)) && Received(sent.value) == Ok(env)
  }

  /** What a listener's answer is turned into: calls within its peers, answers and acknowledgements. */
  lemma OutputKinds(c: Config, r: Registry, env: Envelope, x: string, o: Outcome, uuid: string, e: Envelope)
    requires WellNamed(c) && x in c.table.byName
    requires e in Processed(c.table, r, env, x, o, uuid).1
    ensures IsCall(c, x, e) || IsAnswer(x, e)
  {
    hide WithHop, MayMessage, OrganismOrEmpty, LowerLaw, Consistent, DistinctNames, Trimmed, Join;
    assert DotFree(x);
  }

  lemma NamedRoute(c: Config, env: Envelope, x: string)
    requires WellNamed(c) && x in c.table.byName && Names(env, x) && Route(c, env).Dispatch?
    ensures MayReach(c.table, x, Route(c, env).target)
  {
    hide WellNamed, Consistent, DistinctNames, Resolve, MayMessage, Trimmed;
    WellNamedParts(c);
    FlatRoundTrip(x);
    if env.meta.from != Flat(x) {
      ResolvesToItself(c.table, c.lower, x, env.payload.tag);
    }
  }

  lemma WellNamedParts(c: Config)
    requires WellNamed(c)
    ensures LowerLaw(c.lower) && Consistent(c.table, c.lower)
      && DistinctNames(c.table, c.lower) && DotFreeNames(c.table)
  {
  }

  /** A dispatch goes to a registered listener. */
  lemma DispatchesToKnown(c: Config, env: Envelope)
    requires WellNamed(c) && Route(c, env).Dispatch?
    ensures Route(c, env).target in c.table.byName
  {
    hide Organism;
  }

  lemma NamesSurvive(c: Config, x: string, sent: Option<Envelope>, env: Envelope)
    requires WellNamed(c) && x in c.table.byName && Descends(c, x, sent, env)
    ensures Names(env, x)
  {
    hide Received, LowerLaw, Consistent, DistinctNames, Trimmed, Plain, MayMessage, OrganismOrEmpty;
    var e := sent.value;
    if e.meta.from == Flat(x) {
      FlatSenderSurvives(e, x);
    } else {
      FlatTargetSurvives(e, x);
    }
  }

  /** Message `root` has been dispatched to `target` before. */
  ghost predicate Seen(log: seq<Dispatched>, root: nat, target: string) {
    exists k :: 0 <= k < |log| && log[k].root == root && log[k].target == target
  }

  lemma SeenLater(log: seq<Dispatched>, d: Dispatched, root: nat, target: string)
    ensures Seen(log, root, target) ==> Seen(log + [d], root, target)
    ensures Seen(log + [d], d.root, d.target)
  {
    if Seen(log, root, target) {
      var k :| 0 <= k < |log| && log[k].root == root && log[k].target == target;
      assert (log + [d])[k] == log[k];
    }
    assert (log + [d])[|log|] == d;
  }

  /** An answer descends from the listener that gave it until it is routed, within its peers. */
  ghost predicate Answers(c: Config, item: Item, x: string, sent: Option<Envelope>) {
    match item
    case Raw(evs) => Decode(evs, c.reals).Ok? ==> Descends(c, x, sent, Decode(evs, c.reals).value)
    case Parsed(env) => Descends(c, x, sent, env)
    case Checked(env) => Descends(c, x, sent, env)
    case Routed(_, target) => MayReach(c.table, x, target)
  }

  ghost predicate MessageOk(c: Config, log: seq<Dispatched>, m: Message) {
    && (m.cause.Some? ==>
          var x := m.cause.value; x in c.table.byName && Answers(c, m.item, x, m.sent) && Seen(log, m.root, x))
    && (m.item.Routed? ==> m.item.target in c.table.byName && Seen(log, m.root, m.item.target))
  }

  /** The dispatch at `k`, if it is an answer's, is within the answerer's peers, and follows a dispatch to it. */
  ghost predicate EntryOk(c: Config, log: seq<Dispatched>, k: nat)
    requires k < |log|
  {
    var d := log[k];
    d.cause.Some? ==>
      d.cause.value in c.table.byName && MayReach(c.table, d.cause.value, d.target)
        && Seen(log[..k], d.root, d.cause.value)
  }

  ghost predicate Contained(c: Config, s: State) {
    && (forall m :: m in s.items ==> MessageOk(c, s.log, m))
    && (forall k :: 0 <= k < |s.log| ==> EntryOk(c, s.log, k))
    && (forall g :: g in s.gone ==> GoneOk(c, s.log, g))
  }

  /** What was handed over, if it is an answer's, descends from the answerer, who was given a message before. */
  ghost predicate GoneOk(c: Config, log: seq<Dispatched>, g: Gone) {
    g.cause.Some? ==>
      var x := g.cause.value; x in c.table.byName && Descends(c, x, g.sent, g.env) && Seen(log, g.root, x)
  }

  lemma ReinjectionContained(c: Config, s: State, i: nat, o: Outcome, uuid: string, m: Message)
    requires WellNamed(c) && Enabled(c, s, Process(i, o, uuid)) && MessageOk(c, s.log, s.items[i])
    requires m in Reinjected(ProcessedAt(c, s, i, o, uuid).1, s.items[i].root, s.items[i].item.target)
    ensures MessageOk(c, s.log, m)
  {
    hide Decode, Delivered, WrittenEnvelope, Processed, RealsPrinted, WellNamed, Seen, Received, IsCall, IsAnswer;
    var out := ProcessedAt(c, s, i, o, uuid).1;
    var env, target := s.items[i].item.env, s.items[i].item.target;
    ReinjectedMembers(out, s.items[i].root, target, m);
    var e := m.sent.value;
    OutputKinds(c, s.registry, env, target, o, uuid, e);
    OutputsPrinted(c, s.registry, env, target, o, uuid, e);
    DecodeEncoded(e, c.reals);
  }

  lemma DispatchContained(c: Config, s: State, i: nat)
    requires WellNamed(c) && Contained(c, s) && Enabled(c, s, Advance(i)) && s.items[i].item.Checked?
    requires Route(c, s.items[i].item.env).Dispatch?
    ensures Contained(c, Advanced(c, s, i))
  {
    hide Decode, Route, Registering, WellNamed, Seen, Names, MayReach, Descends;
    var m, s' := s.items[i], Advanced(c, s, i);
    var target := Route(c, m.item.env).target;
    var d := Dispatched(m.item.env, target, m.root, m.cause);
    DispatchesToKnown(c, m.item.env);
    assert MessageOk(c, s.log, m);
    if m.cause.Some? {
      NamesSurvive(c, m.cause.value, m.sent, m.item.env);
      NamedRoute(c, m.item.env, m.cause.value);
    }
    forall x | x in s'.items ensures MessageOk(c, s'.log, x) {
      var before := if x in s.items then x else m;
      assert before in s.items;
      if before.cause.Some? {
        SeenLater(s.log, d, before.root, before.cause.value);
      }
      SeenLater(s.log, d, before.root, if before.item.Routed? then before.item.target else target);
    }
    forall k | 0 <= k < |s'.log| ensures EntryOk(c, s'.log, k) {
      if k < |s.log| {
        assert EntryOk(c, s.log, k) && s'.log[k] == s.log[k] && s'.log[..k] == s.log[..k];
      } else {
        assert s'.log[..k] == s.log && s'.log[k] == d;
      }
    }
    forall g | g in s'.gone ensures GoneOk(c, s'.log, g) {
      if g.cause.Some? {
        SeenLater(s.log, d, g.root, g.cause.value);
      }
    }
  }

  lemma StepContained(c: Config, s: State, step: Step)
    requires WellNamed(c) && Contained(c, s) && Enabled(c, s, step)
    ensures Contained(c, Apply(c, s, step))
  {
    hide Decode, Route, Registering, WellNamed, Seen, Names, MayReach, Processed, Reinjected, EntryOk,
      Printed, Descends;
    var s' := Apply(c, s, step);
    match step {
      case Inject(evs) =>
      case Advance(i) =>
        var m := s.items[i];
        assert MessageOk(c, s.log, m);
        if m.item.Checked? && Route(c, m.item.env).Dispatch? {
          DispatchContained(c, s, i);
        }
      case Process(i, o, uuid) =>
        assert MessageOk(c, s.log, s.items[i]);
        forall m | m in s'.items ensures MessageOk(c, s'.log, m) {
          if m !in s.items {
            ReinjectionContained(c, s, i, o, uuid, m);
          }
        }
    }
  }

  lemma {:induction false} RunContained(c: Config, s: State, steps: seq<Step>)
    requires WellNamed(c) && Contained(c, s) && Run(c, s, steps)
    ensures Contained(c, After(c, s, steps))
    decreases |steps|
  {
    if steps != [] {
      StepContained(c, s, steps[0]);
      RunContained(c, Apply(c, s, steps[0]), steps[1..]);
    }
  }

  /**
   In every run, if the answer of listener `x` causes a dispatch to another listener `y`, then
   `x` is no agent or `y` is one of its peers; and `x` was given a message of this origin before.
   */
  lemma PeerContainment(c: Config, r: Registry, steps: seq<Step>, k: nat)
    requires WellNamed(c) && Run(c, Initial(r), steps) && k < |After(c, Initial(r), steps).log|
    ensures var log := After(c, Initial(r), steps).log;
      log[k].cause.Some? ==>
        var x := log[k].cause.value;
        && x in c.table.byName
        && (log[k].target != x && c.table.byName[x].isAgent ==> log[k].target in c.table.byName[x].peers)
        && Seen(log[..k], log[k].root, x)
  {
    RunContained(c, Initial(r), steps);
    assert EntryOk(c, After(c, Initial(r), steps).log, k);
  }

  // ---- Federation ----

  /** The peer check of a call was passed, for the callee of the address as it was sent. */
  ghost predicate PeersAsked(t: Table, x: string, sent: Envelope) {
    sent.meta.to.Some? && MayMessage(t, x, OrganismOrEmpty(sent.meta.to.value))
  }

  /** What peers mean for what arrives of an answer's envelope. */
  lemma DescendantsAddress(c: Config, x: string, sent: Envelope, env: Envelope)
    requires Descends(c, x, Some(sent), env) && env.meta.to.Some?
    ensures sent.meta.to.Some? && Arrived(sent.meta.to.value) == env.meta.to
    ensures |env.meta.to.value.segments| == 1 || PeersAsked(c.table, x, sent)
    ensures NamesCallee(sent.meta.to.value) ==>
      |env.meta.to.value.segments| == 1 || MayMessage(c.table, x, OrganismOrEmpty(env.meta.to.value))
  {
    hide Received, Arrived, MayMessage, OrganismOrEmpty, Names, NamesCallee;
    ToArrives(sent);
    if IsAnswer(x, sent) {
      var name :| DotFree(name) && sent.meta.to == Some(Flat(name));
      BareArrivesAlone(name);
    }
    SameCalleeArrives(sent.meta.to.value);
  }

  /**
   What peers say about federation. In every run, what an answer of listener `x` hands to
   federation either goes to a single segment, then it is an answer to whoever called, and no peers
   were asked; or it is a call, and then `x` may message the callee of the address it sent. The
   callee that arrives is another one if the printed address does not name it; with an address that
   does, `x` may message the callee that arrives. An agent without peers hands over answers only.
   */
  lemma FederationAndPeers(c: Config, r: Registry, steps: seq<Step>, k: nat)
    requires WellNamed(c) && Run(c, Initial(r), steps) && k < |After(c, Initial(r), steps).gone|
    ensures var s := After(c, Initial(r), steps);
      var g := s.gone[k];
      && IsRemote(c, g.env.meta.to)
      && (g.cause.Some? ==>
            var x, to := g.cause.value, g.env.meta.to.value;
            && x in c.table.byName && Seen(s.log, g.root, x)
            && g.sent.Some? && Received(g.sent.value) == Ok(g.env)
            && g.sent.value.meta.to.Some? && Arrived(g.sent.value.meta.to.value) == Some(to)
            && (|to.segments| == 1 || PeersAsked(c.table, x, g.sent.value))
            && (NamesCallee(g.sent.value.meta.to.value) ==>
                  |to.segments| == 1 || MayMessage(c.table, x, OrganismOrEmpty(to)))
            && (c.table.byName[x].isAgent && c.table.byName[x].peers == {} ==> |to.segments| == 1))
  {
    hide Seen, WellNamed, Valid, Route, PeersAsked, Received, Arrived, NamesCallee, IsCall, IsAnswer, MayMessage;
    RunContained(c, Initial(r), steps);
    RunGated(c, Initial(r), steps);
    var s := After(c, Initial(r), steps);
    var g := s.gone[k];
    assert GoneOk(c, s.log, g);
    EscalatedIsRemote(c, g.env);
    if g.cause.Some? {
      var x := g.cause.value;
      DescendantsAddress(c, x, g.sent.value, g.env);
      if c.table.byName[x].isAgent && c.table.byName[x].peers == {} {
        NobodyIsAskedFor(c.table, x, g.sent.value);
      }
    }
  }

  lemma EscalatedIsRemote(c: Config, env: Envelope)
    requires Route(c, env).Escalated?
    ensures IsRemote(c, env.meta.to) && env.meta.to.Some?
  {
  }

  lemma NobodyIsAskedFor(t: Table, x: string, sent: Envelope)
    requires x in t.byName && t.byName[x].isAgent && t.byName[x].peers == {}
    ensures !PeersAsked(t, x, sent)
  {
  }

  // ---- Panics ----

  /** The parse task is down only if one of the injected messages makes the decoder panic. */
  ghost predicate Guarded(c: Config, s: State) {
    && (s.down ==> exists k :: 0 <= k < |s.injected| && Decode(s.injected[k], c.reals) == Err(Crash))
    && (forall m :: m in s.items && m.item.Raw? ==>
          Decode(m.item.evs, c.reals) != Err(Crash) || (m.root < |s.injected| && m.item.evs == s.injected[m.root]))
  }

  lemma StepGuarded(c: Config, s: State, step: Step)
    requires Guarded(c, s) && Enabled(c, s, step)
    ensures Guarded(c, Apply(c, s, step))
  {
    hide Decode, Route, Valid, Registering, Processed, Reinjected, RealsPrinted, Delivered, WrittenEnvelope;
    var s' := Apply(c, s, step);
    match step {
      case Inject(evs) =>
        assert s'.injected[|s.injected|] == evs;
        assert forall k :: 0 <= k < |s.injected| ==> s'.injected[k] == s.injected[k];
      case Advance(i) =>
        assert s.items[i] in s.items;
      case Process(i, o, uuid) =>
        var out := ProcessedAt(c, s, i, o, uuid).1;
        var env, target := s.items[i].item.env, s.items[i].item.target;
        forall m | m in Reinjected(out, s.items[i].root, target)
          ensures m.item.Raw? && Decode(m.item.evs, c.reals) != Err(Crash)
        {
          ReinjectedMembers(out, s.items[i].root, target, m);
          var e := m.sent.value;
          OutputsPrinted(c, s.registry, env, target, o, uuid, e);
          OwnDocumentsDoNotPanic(e, c.reals);
        }
    }
  }

  lemma {:induction false} RunGuarded(c: Config, s: State, steps: seq<Step>)
    requires Guarded(c, s) && Run(c, s, steps)
    ensures Guarded(c, After(c, s, steps))
    decreases |steps|
  {
    if steps != [] {
      StepGuarded(c, s, steps[0]);
      RunGuarded(c, Apply(c, s, steps[0]), steps[1..]);
    }
  }

  /** In every run only an injected message can take the parse task down; no handler's answer does. */
  lemma OnlyOutsidersPanic(c: Config, r: Registry, steps: seq<Step>)
    requires Run(c, Initial(r), steps) && After(c, Initial(r), steps).down
    ensures var s := After(c, Initial(r), steps);
      exists k :: 0 <= k < |s.injected| && Decode(s.injected[k], c.reals) == Err(Crash)
  {
    RunGuarded(c, Initial(r), steps);
  }

  /** And one message is enough, at any time. */
  lemma OneMessagePanics(c: Config, s: State)
    requires !s.down
    ensures var steps := [Inject(CUT_DOCUMENT), Advance(|s.items|)];
      Run(c, s, steps) && After(c, s, steps).down
  {
    hide Decode;
    CutDocumentPanics(c.reals);
    var s1 := Apply(c, s, Inject(CUT_DOCUMENT));
    assert s1.items[|s.items|].item == Raw(CUT_DOCUMENT);
    var steps := [Inject(CUT_DOCUMENT), Advance(|s.items|)];
    assert steps[1..] == [Advance(|s.items|)] && steps[1..][1..] == [];
    var s2 := Apply(c, s1, Advance(|s.items|));
    assert Run(c, s2, []) && After(c, s2, []) == s2;
    assert Run(c, s1, steps[1..]) && After(c, s1, steps[1..]) == s2;
  }

  // ---- First targets ----

  predicate Foremost(m: Message, root: nat) {
    m.cause.None? && m.root == root
  }

  /** At most one message, and before its routing no dispatch, is the injected message `root` itself. */
  ghost predicate OneFirst(s: State, root: nat) {
    && (forall a, b :: 0 <= a < b < |s.items| ==> !Foremost(s.items[a], root) || !Foremost(s.items[b], root))
    && (forall m :: m in s.items && Foremost(m, root) && !m.item.Routed? ==> NotYet(s.log, root))
    && (forall j, k :: 0 <= j < k < |s.log| && s.log[j].cause.None? && s.log[k].cause.None? && s.log[j].root == root
          ==> s.log[k].root != root)
    && (root >= |s.injected| ==> NotYet(s.log, root) && forall m :: m in s.items ==> !Foremost(m, root))
  }

  ghost predicate NotYet(log: seq<Dispatched>, root: nat) {
    forall k :: 0 <= k < |log| && log[k].cause.None? ==> log[k].root != root
  }

  lemma WithoutKeepsOneFirst(s: State, i: nat, root: nat)
    requires OneFirst(s, root) && i < |s.items|
    ensures OneFirst(s.(items := Without(s.items, i)), root)
  {
    var r := Without(s.items, i);
    forall a, b | 0 <= a < b < |r|
      ensures !Foremost(r[a], root) || !Foremost(r[b], root)
    {
      assert r[a] == s.items[if a < i then a else a + 1];
      assert r[b] == s.items[if b < i then b else b + 1];
    }
  }

  lemma ReinjectionKeepsOneFirst(s: State, more: seq<Message>, root: nat)
    requires OneFirst(s, root) && forall m :: m in more ==> m.cause.Some?
    ensures OneFirst(s.(items := s.items + more), root)
  {
    var r := s.items + more;
    forall a, b | 0 <= a < b < |r|
      ensures !Foremost(r[a], root) || !Foremost(r[b], root)
    {
      if b >= |s.items| {
        assert r[b] == more[b - |s.items|];
        assert more[b - |s.items|] in more;
      }
    }
  }

  /** Going to the next stage, undispatched or not. */
  lemma AdvanceKeepsOneFirst(s: State, i: nat, item: Item, more: seq<Dispatched>, root: nat)
    requires OneFirst(s, root) && i < |s.items| && !s.items[i].item.Routed?
    requires more == [] || (|more| == 1 && item.Routed? && more[0].root == s.items[i].root
      && more[0].cause == s.items[i].cause)
    ensures OneFirst(Replaced(s, i, item).(log := s.log + more), root)
  {
    var r := Replaced(s, i, item).items;
    var me := s.items[i];
    assert me in s.items;
    forall a, b | 0 <= a < b < |r|
      ensures !Foremost(r[a], root) || !Foremost(r[b], root)
    {
      assert !Foremost(s.items[a], root) || !Foremost(s.items[b], root);
    }
    forall m | m in r && Foremost(m, root) && !m.item.Routed?
      ensures NotYet(s.log + more, root)
    {
      var k :| 0 <= k < |r| && r[k] == m;
      assert s.items[k] in s.items && Foremost(s.items[k], root);
      assert k != i ==> !Foremost(me, root);
    }
    assert Foremost(me, root) ==> NotYet(s.log, root);
    assert forall m :: m in r ==> m in s.items || (m.root == me.root && m.cause == me.cause);
  }

  lemma InjectKeepsOneFirst(s: State, evs: seq<Event>, root: nat)
    requires OneFirst(s, root)
    ensures OneFirst(s.(items := s.items + [Message(Raw(evs), |s.injected|, None, None)],
      injected := s.injected + [evs]), root)
  {
    var m := Message(Raw(evs), |s.injected|, None, None);
    var r := s.items + [m];
    forall a, b | 0 <= a < b < |r|
      ensures !Foremost(r[a], root) || !Foremost(r[b], root)
    {
      assert r[a] == s.items[a] && r[a] in s.items;
    }
  }

  lemma SameFirst(s: State, t: State, root: nat)
    requires OneFirst(s, root) && t.items == s.items && t.log == s.log && t.injected == s.injected
    ensures OneFirst(t, root)
  {
  }

  lemma StepKeepsOneFirst(c: Config, s: State, step: Step, root: nat)
    requires OneFirst(s, root) && Enabled(c, s, step)
    ensures OneFirst(Apply(c, s, step), root)
  {
    hide OneFirst, Decode, Route, Valid, Registering, Processed, Printed, Without;
    var s' := Apply(c, s, step);
    match step {
      case Inject(evs) => InjectKeepsOneFirst(s, evs, root);
      case Advance(i) =>
        var dropped := s.(items := Without(s.items, i));
        if s'.items == dropped.items && s'.log == s.log {
          WithoutKeepsOneFirst(s, i, root);
          SameFirst(dropped, s', root);
        } else {
          var item, more := s'.items[i].item, s'.log[|s.log|..];
          AdvanceKeepsOneFirst(s, i, item, more, root);
          SameFirst(Replaced(s, i, item).(log := s.log + more), s', root);
        }
      case Process(i, o, uuid) =>
        var dropped := s.(items := Without(s.items, i));
        var more := Reinjected(ProcessedAt(c, s, i, o, uuid).1, s.items[i].root, s.items[i].item.target);
        WithoutKeepsOneFirst(s, i, root);
        forall m | m in more ensures m.cause.Some? {
          ReinjectedMembers(ProcessedAt(c, s, i, o, uuid).1, s.items[i].root, s.items[i].item.target, m);
        }
        ReinjectionKeepsOneFirst(dropped, more, root);
        SameFirst(dropped.(items := dropped.items + more), s', root);
    }
  }

  lemma {:induction false} RunKeepsOneFirst(c: Config, s: State, steps: seq<Step>, root: nat)
    requires OneFirst(s, root) && Run(c, s, steps)
    ensures OneFirst(After(c, s, steps), root)
    decreases |steps|
  {
    if steps != [] {
      StepKeepsOneFirst(c, s, steps[0], root);
      RunKeepsOneFirst(c, Apply(c, s, steps[0]), steps[1..], root);
    }
  }

  /** In every run an injected message is itself dispatched at most once: its first target is unique. */
  lemma FirstTargetIsUnique(c: Config, r: Registry, steps: seq<Step>, j: nat, k: nat)
    requires Run(c, Initial(r), steps)
    requires var log := After(c, Initial(r), steps).log;
      && j < |log| && k < |log| && log[j].cause.None? && log[k].cause.None? && log[j].root == log[k].root
    ensures j == k
  {
    RunKeepsOneFirst(c, Initial(r), steps, After(c, Initial(r), steps).log[j].root);
  }

  ghost predicate AllAgents(t: Table) {
    forall name :: name in t.byName ==> t.byName[name].isAgent
  }

  predicate Edge(t: Table, x: string, y: string) {
    x in t.byName && y in t.byName[x].peers
  }

  /** A walk along the peer graph. */
  ghost predicate PeerPath(t: Table, path: seq<string>) {
    path != [] && forall i {:trigger path[i]} :: 0 < i < |path| ==> Edge(t, path[i - 1], path[i])
  }

  /** `path` leads from a first target of message `root` to `target`. */
  ghost predicate Reached(t: Table, log: seq<Dispatched>, root: nat, target: string, path: seq<string>) {
    && PeerPath(t, path) && path[|path| - 1] == target
    && exists j :: 0 <= j < |log| && log[j].root == root && log[j].cause.None? && log[j].target == path[0]
  }

  lemma {:induction false} PathTo(c: Config, log: seq<Dispatched>, k: nat) returns (path: seq<string>)
    requires AllAgents(c.table) && k < |log| && forall j :: 0 <= j < |log| ==> EntryOk(c, log, j)
    ensures Reached(c.table, log, log[k].root, log[k].target, path)
    decreases k
  {
    var d := log[k];
    if d.cause.None? {
      path := [d.target];
    } else {
      var x := d.cause.value;
      assert EntryOk(c, log, k);
      var j :| 0 <= j < k && log[..k][j].root == d.root && log[..k][j].target == x;
      path := PathTo(c, log, j);
      if x != d.target {
        path := path + [d.target];
      }
    }
  }

  /**
   When all listeners are agents, every listener reached from an injected message lies on a walk
   along the peer graph that starts where this message itself was dispatched to.
   */
  lemma ReachedThroughPeers(c: Config, r: Registry, steps: seq<Step>, k: nat)
    requires WellNamed(c) && AllAgents(c.table) && Run(c, Initial(r), steps) && k < |After(c, Initial(r), steps).log|
    ensures var log := After(c, Initial(r), steps).log;
      exists path :: Reached(c.table, log, log[k].root, log[k].target, path)
  {
    RunContained(c, Initial(r), steps);
    var path := PathTo(c, After(c, Initial(r), steps).log, k);
  }

  // ---- Delivery ----

  /** What becomes of an envelope that goes back in: refused before routing, or its route. */
  function Reentry(c: Config, e: Envelope): Option<RouteVerdict> {
    var d := Decode(Delivered(WrittenEnvelope(e)), c.reals);
    if d.Err? || !Valid(c, d.value.payload) then None else Some(Route(c, d.value))
  }

  /** Exactly what becomes of any envelope. */
  lemma ReentryExact(c: Config, e: Envelope)
    requires RealsPrinted(e.payload.value, c.reals)
    ensures Reentry(c, e)
      == if Received(e).Err? || !Valid(c, Received(e).value.payload) then None else Some(Route(c, Received(e).value))
  {
    hide Decode, Delivered, WrittenEnvelope, Route, Valid, Received;
    DecodeEncoded(e, c.reals);
  }

  /** The message at `i` through all its stages. */
  function Stages(i: nat): seq<Step> {
    [Advance(i), Advance(i), Advance(i)]
  }

  lemma OneStep(c: Config, s: State, i: nat, rest: seq<Step>)
    requires Enabled(c, s, Advance(i)) && Run(c, Advanced(c, s, i), rest)
    ensures Run(c, s, [Advance(i)] + rest) && After(c, s, [Advance(i)] + rest) == After(c, Advanced(c, s, i), rest)
  {
    hide Advanced, Enabled;
    assert ([Advance(i)] + rest)[1..] == rest;
  }

  lemma ThreeSteps(c: Config, s: State, i: nat)
    requires Enabled(c, s, Advance(i)) && Enabled(c, Advanced(c, s, i), Advance(i))
    requires Enabled(c, Advanced(c, Advanced(c, s, i), i), Advance(i))
    ensures Run(c, s, Stages(i))
    ensures After(c, s, Stages(i)) == Advanced(c, Advanced(c, Advanced(c, s, i), i), i)
  {
    hide Advanced;
    var s1 := Advanced(c, s, i);
    var s2 := Advanced(c, s1, i);
    hide Enabled;
    OneStep(c, s2, i, []);
    OneStep(c, s1, i, [Advance(i)] + []);
    OneStep(c, s, i, [Advance(i)] + ([Advance(i)] + []));
    assert Stages(i) == [Advance(i)] + ([Advance(i)] + ([Advance(i)] + []));
  }

  /** What has become of the message at `i` of `s`, received as `d`, under verdict `v`; the rest is untouched. */
  predicate Met(s: State, i: nat, d: Envelope, v: RouteVerdict, s': State)
    requires i < |s.items|
  {
    var m := s.items[i];
    if v.Dispatch? then
      s' == s.(items := s.items[i := m.(item := Item.Routed(d, v.target))],
               log := s.log + [Dispatched(d, v.target, m.root, m.cause)],
               registry := WithThread(s.registry, d.meta.thread, OrganismOrEmpty(d.meta.from), v.target).0)
    else
      s' == s.(items := Without(s.items, i),
               gone := if v.Escalated? then s.gone + [Gone(d, m.root, m.cause, m.sent)] else s.gone)
  }

  /**
   What `Reentry` foretells is what runs do: from every state in which the parse task is up, an
   envelope that went back in can take its steps through the stages, and they bring it to its
   handler, hand it to federation or lose it just so. Everything else stays as it was.
   */
  lemma FateInRuns(c: Config, s: State, i: nat, e: Envelope)
    requires i < |s.items| && !s.down && RealsPrinted(e.payload.value, c.reals)
    requires s.items[i].item == Raw(Delivered(WrittenEnvelope(e))) && Reentry(c, e).Some?
    ensures Run(c, s, Stages(i)) && Received(e).Ok?
    ensures Met(s, i, Received(e).value, Reentry(c, e).value, After(c, s, Stages(i)))
  {
    hide Decode, Delivered, WrittenEnvelope, Route, Valid, Received, Run, After, WithThread, OrganismOrEmpty, Stages;
    ReentryExact(c, e);
    DecodeEncoded(e, c.reals);
    ThreeSteps(c, s, i);
  }

  /** The same for what is refused before routing: it is gone after one or two steps, without a trace. */
  lemma RefusedInRuns(c: Config, s: State, i: nat, e: Envelope)
    requires i < |s.items| && !s.down && RealsPrinted(e.payload.value, c.reals)
    requires s.items[i].item == Raw(Delivered(WrittenEnvelope(e))) && Reentry(c, e).None?
    ensures var steps := if Received(e).Err? then Stages(i)[..1] else Stages(i)[..2];
      Run(c, s, steps) && After(c, s, steps) == s.(items := Without(s.items, i))
  {
    hide Decode, Delivered, WrittenEnvelope, Valid, Received, Run, After;
    ReentryExact(c, e);
    DecodeEncoded(e, c.reals);
    OwnDocumentsDoNotPanic(e, c.reals);
    assert Stages(i)[..1] == [Advance(i)] + [] && Stages(i)[..2] == [Advance(i)] + ([Advance(i)] + []);
    var s1 := Advanced(c, s, i);
    if Received(e).Err? {
      NoStep(c, s1);
      OneStep(c, s, i, []);
    } else {
      var s2 := Advanced(c, s1, i);
      assert Without(s1.items, i) == Without(s.items, i);
      NoStep(c, s2);
      OneStep(c, s1, i, []);
      OneStep(c, s, i, [Advance(i)] + []);
    }
  }

  lemma NoStep(c: Config, s: State)
    ensures Run(c, s, []) && After(c, s, []) == s
  {
  }

  /** It gets to a listener or to a remote node. */
  predicate Arrives(c: Config, e: Envelope) {
    var fate := Reentry(c, e);
    fate.Some? && (fate.value.Dispatch? || fate.value.Escalated?)
  }

  /** What has to hold of an envelope that arrives: it is received, valid, and remote or routed within the peers. */
  ghost predicate Deliverable(c: Config, e: Envelope) {
    && Received(e).Ok?
    && var d := Received(e).value;
    var to := if d.meta.to.Some? then Organism(d.meta.to.value) else None;
    var entries := Resolve(c.table, c.lower, to, d.payload.tag);
    && Valid(c, d.payload)
    && (IsRemote(c, d.meta.to)
        || (entries.Ok? && MayMessage(c.table, OrganismOrEmpty(d.meta.from), entries.value[0].name)))
  }

  lemma ArrivesExactly(c: Config, e: Envelope)
    requires RealsPrinted(e.payload.value, c.reals)
    ensures Arrives(c, e) <==> Deliverable(c, e)
  {
    hide Reentry, Received, Resolve, MayMessage, Valid, IsRemote, Organism, RealsPrinted;
    ReentryExact(c, e);
  }

  /** What becomes of an envelope to a bare, well-formed name, when `d` was received of it. */
  function FateAtName(c: Config, d: Envelope, name: string): RouteVerdict {
    var entries := Resolve(c.table, c.lower, Some(name), d.payload.tag);
    if c.remotes.Some? && name in c.remotes.value then Escalated
    else if entries.Err? then Unroutable
    else if MayMessage(c.table, OrganismOrEmpty(d.meta.from), entries.value[0].name)
      then Dispatch(entries.value[0].name)
    else Refused
  }

  lemma NameFate(c: Config, e: Envelope, name: string)
    requires name != "" && Plain(name) && Trimmed(name, IsSpace) && e.meta.to == Some(Flat(name))
    requires RealsPrinted(e.payload.value, c.reals)
    ensures Reentry(c, e)
      == if Received(e).Err? || !Valid(c, Received(e).value.payload) then None
         else Some(FateAtName(c, Received(e).value, name))
  {
    hide Reentry, Received, Valid, MayMessage, Resolve, RealsPrinted, Trimmed, Plain;
    ReentryExact(c, e);
    FlatRoundTrip(name);
    if Received(e).Ok? {
      FlatTargetSurvives(e, name);
    }
  }

  /** A registered name is resolved to its own listener only. */
  lemma RegisteredFate(c: Config, d: Envelope, name: string)
    requires WellNamed(c) && name in c.table.byName && FateAtName(c, d, name).Dispatch?
    ensures FateAtName(c, d, name) == Dispatch(name) && MayMessage(c.table, OrganismOrEmpty(d.meta.from), name)
  {
    hide MayMessage, Resolve, WellNamed;
    WellNamedParts(c);
    ResolvesToItself(c.table, c.lower, name, d.payload.tag);
  }

  /** A reply, or the acknowledgement that stands for one. */
  predicate IsReply(o: Outcome) {
    o.Responded? && (o.response.Reply? || o.response.Nothing?)
  }

  lemma ReplySender(t: Table, r: Registry, env: Envelope, callee: string, o: Outcome, uuid: string, e: Envelope)
    requires IsReply(o) && e in Processed(t, r, env, callee, o, uuid).1
    ensures e.meta.from == Flat(callee)
  {
    hide Pruned;
  }

  /**
   A reply, synthesized or not, is checked like any other message. What is received of a reply to
   `caller` leaves for a remote node of that name without a peer check; otherwise it needs a route
   and the callee's peers. A registered caller can only get it itself.
   */
  lemma ReplyNeedsPeer(c: Config, r: Registry, env: Envelope, callee: string, o: Outcome, uuid: string,
                       e: Envelope, caller: string)
    requires WellNamed(c) && callee in c.table.byName && IsReply(o) && Printed(c, o)
    requires caller != "" && Plain(caller) && Trimmed(caller, IsSpace)
    requires e in Processed(c.table, r, env, callee, o, uuid).1 && e.meta.to == Some(Flat(caller))
    ensures Reentry(c, e) ==
      if Received(e).Err? || !Valid(c, Received(e).value.payload) then None
      else
        var entries := Resolve(c.table, c.lower, Some(caller), Received(e).value.payload.tag);
        if c.remotes.Some? && caller in c.remotes.value then Some(Escalated)
        else if entries.Err? then Some(Unroutable)
        else if MayMessage(c.table, callee, entries.value[0].name) then Some(Dispatch(entries.value[0].name))
        else Some(Refused)
    ensures Reentry(c, e).Some? && Reentry(c, e).value.Dispatch? && caller in c.table.byName
      ==> Reentry(c, e).value.target == caller
  {
    hide Reentry, Received, Valid, LowerLaw, Consistent, DistinctNames, Processed, MayMessage, Resolve, RealsPrinted,
      Printed,
      Trimmed, Plain;
    OutputsPrinted(c, r, env, callee, o, uuid, e);
    ReplySender(c.table, r, env, callee, o, uuid, e);
    NameFate(c, e, caller);
    FlatRoundTrip(callee);
    if Received(e).Ok? {
      FlatSenderSurvives(e, callee);
      if caller in c.table.byName && FateAtName(c, Received(e).value, caller).Dispatch? {
        RegisteredFate(c, Received(e).value, caller);
      }
    }
  }

  /** The acknowledgement of a spawn: the last envelope of its outcome. */
  function AckOf(t: Table, r: Registry, env: Envelope, x: string, to: Address, payload: Payload, uuid: string)
    : Envelope {
    var out := Processed(t, r, env, x, Responded(Spawn(to, payload)), uuid).1;
    out[|out| - 1]
  }

  lemma AckShape(t: Table, r: Registry, env: Envelope, x: string, to: Address, payload: Payload, uuid: string)
    ensures var ack := AckOf(t, r, env, x, to, payload, uuid);
      && ack.meta.from == Flat(OrganismOrEmpty(to)) && ack.meta.to == Some(Flat(x))
      && ack.meta.thread == env.meta.thread
      && ack.payload == SpawnAck(MayMessage(t, x, OrganismOrEmpty(to)))
  {
    hide MayMessage, WithHop, OrganismOrEmpty;
  }

  lemma AckIsClean(accepted: bool)
    ensures NoMarkup(SpawnAck(accepted).tag) && Clean(SpawnAck(accepted).value)
  {
    assert NoMarkup("SpawnAck") && NoMarkup("accepted");
    hide NoMarkup;
  }

  lemma AckPayloadSurvives(e: Envelope, accepted: bool)
    requires e.payload == SpawnAck(accepted) && Received(e).Ok?
    ensures Received(e).value.payload == SpawnAck(accepted)
  {
    hide Received, NoMarkup, Escape, Clean, Carried, Trim, Parse, Print;
    ReceivedMeta(e);
    AckIsClean(accepted);
    EscapeFixpoint(e.payload.tag);
    CarriedFixpoint(e.payload.value);
  }

  /**
   The fate of every spawn's acknowledgement to a registered spawner `x`: it is lost if it is not
   received or not valid; it leaves through federation if `x` is named like a remote node; it is
   unroutable if `x` handles no such tag; and it reaches `x` exactly if the callee, as received,
   may message `x`.
   */
  lemma SpawnAckFate(c: Config, r: Registry, env: Envelope, x: string, to: Address, payload: Payload, uuid: string)
    requires WellNamed(c) && x in c.table.byName
    ensures var accepted := MayMessage(c.table, x, OrganismOrEmpty(to));
      var ack := AckOf(c.table, r, env, x, to, payload, uuid);
      Reentry(c, ack) ==
        if Received(ack).Err? || !Valid(c, SpawnAck(accepted)) then None
        else if c.remotes.Some? && x in c.remotes.value then Some(Escalated)
        else if Resolve(c.table, c.lower, Some(x), "SpawnAck").Err? then Some(Unroutable)
        else if MayMessage(c.table, OrganismOrEmpty(Received(ack).value.meta.from), x) then Some(Dispatch(x))
        else Some(Refused)
  {
    hide Reentry, Received, Valid, LowerLaw, Consistent, DistinctNames, Processed, MayMessage, Resolve, RealsPrinted,
      Trimmed, Plain, OrganismOrEmpty, AckOf;
    var ack := AckOf(c.table, r, env, x, to, payload, uuid);
    AckShape(c.table, r, env, x, to, payload, uuid);
    AcksPrinted(c);
    NameFate(c, ack, x);
    WellNamedParts(c);
    if Received(ack).Ok? {
      AckPayloadSurvives(ack, MayMessage(c.table, x, OrganismOrEmpty(to)));
      ResolvesToItself(c.table, c.lower, x, "SpawnAck");
    }
  }

  /**
   An agent without peers. Whatever it answers reaches no listener but itself; and it leaves
   through federation exactly if it is received and valid and its first segment, as received,
   names a remote node: nobody asks for peers there.
   */
  lemma LonelyAgent(c: Config, r: Registry, env: Envelope, agent: string, o: Outcome, uuid: string, e: Envelope)
    requires WellNamed(c) && agent in c.table.byName && c.table.byName[agent].isAgent
      && c.table.byName[agent].peers == {}
    requires Printed(c, o) && e in Processed(c.table, r, env, agent, o, uuid).1
    ensures Reentry(c, e).Some? && Reentry(c, e).value.Dispatch? ==> Reentry(c, e).value.target == agent
    ensures Reentry(c, e) == Some(Escalated)
      <==> (Received(e).Ok? && Valid(c, Received(e).value.payload) && IsRemote(c, Received(e).value.meta.to))
  {
    hide Reentry, Received, Valid, WellNamed, Processed, RealsPrinted, Names, IsCall, IsAnswer, Resolve,
      MayMessage, IsRemote,
      Organism;
    OutputKinds(c, r, env, agent, o, uuid, e);
    OutputsPrinted(c, r, env, agent, o, uuid, e);
    ReentryExact(c, e);
    if Received(e).Ok? && Route(c, Received(e).value).Dispatch? {
      NamesSurvive(c, agent, Some(e), Received(e).value);
      NamedRoute(c, Received(e).value, agent);
      LonelyReach(c.table, agent, Route(c, Received(e).value).target);
    }
  }

  lemma LonelyReach(t: Table, agent: string, y: string)
    requires agent in t.byName && t.byName[agent].isAgent && t.byName[agent].peers == {} && MayReach(t, agent, y)
    ensures y == agent
  {
  }

  /** What the spawner is told, and whether its work arrives. */
  predicate Tells(p: Payload, accepted: bool) {
    p == Payload("SpawnAck", Rec([Field("accepted", Boolean(accepted))]))
  }

  predicate ToldAccepted(out: seq<Envelope>) {
    out != [] && Tells(out[|out| - 1].payload, true)
  }

  predicate WorkArrives(c: Config, out: seq<Envelope>) {
    |out| == 2 && Arrives(c, out[0])
  }

  /**
   A spawn's acknowledgement is truthful, that is, says accepted if and only if the work arrives,
   exactly if work within the spawner's peers is deliverable. It errs on one side only: work that
   arrives was accepted, but accepted work may be lost on the way: refused by the parser or the
   schema, without a route, or resolved to a listener outside the peers.
   */
  lemma SpawnAckTruthful(c: Config, r: Registry, env: Envelope, x: string, to: Address, payload: Payload, uuid: string)
    requires RealsPrinted(payload.value, c.reals)
    ensures var out := Processed(c.table, r, env, x, Responded(Spawn(to, payload)), uuid).1;
      && ((ToldAccepted(out) <==> WorkArrives(c, out))
          <==> (MayMessage(c.table, x, OrganismOrEmpty(to)) ==> Deliverable(c, out[0])))
      && (WorkArrives(c, out) ==> ToldAccepted(out))
      && Tells(out[|out| - 1].payload, MayMessage(c.table, x, OrganismOrEmpty(to)))
      && out[|out| - 1].meta.to == Some(Flat(x)) && out[|out| - 1].meta.thread == env.meta.thread
  {
    hide Arrives, Deliverable, MayMessage, WithHop, RealsPrinted, Organism;
    var out := Processed(c.table, r, env, x, Responded(Spawn(to, payload)), uuid).1;
    if MayMessage(c.table, x, OrganismOrEmpty(to)) {
      assert out[0].payload == payload;
      ArrivesExactly(c, out[0]);
    }
  }
}
