/**
 The self-feeding ring: four stage tasks joined by bounded channels, the dispatch fan-out at
 their end, and worker tasks that send their answers back into the first channel.

 What a stage makes of a message (pass it on, drop it, send it to another node) and what a
 handler answers are arbitrary; only who waits for whom matters here. A message may make the
 parser panic: then the first channel is closed, what it holds is lost, and sending into it fails
 at once.
 */
module Ring {
  import opened Results
  import Dispatch
  import DispatchInvariant
  import DispatchTheorems

  type Msg = Dispatch.Msg

  const CHANNEL_BUFFER := 256

  /** What the route stage has in hand. */
  datatype Hand = Nothing | Local(m: Msg) | Remote(m: Msg)

  /** What the route stage decides about a message. */
  datatype Route = Die | Here | Elsewhere

  /**
   Raw messages are numbers: they are opaque until parsed. `d.routed` is the routed channel;
   `owed` holds, for a worker inside a handler call, the raw messages it still has to send.
   `down` is set when the parse task has panicked.
   */
  datatype State = State(
    ingress: seq<nat>,
    down: bool,
    parsing: Option<Msg>,
    parsed: seq<Msg>,
    validating: Option<Msg>,
    validated: seq<Msg>,
    routing: Hand,
    egress: seq<Msg>,
    d: Dispatch.State,
    owed: map<nat, seq<nat>>)

  datatype Step =
    | Inject(raw: nat)
    | Emit(w: nat, raw: nat)
    | ParseRecv(parsed: Option<Msg>)
    | ParseSend
    | ParsePanic
    | ValidateRecv(ok: bool)
    | ValidateSend
    | RouteRecv(route: Route)
    | RouteSend
    | EgressRecv
    | Fan(st: Dispatch.Step, answers: seq<nat>)

  const INITIAL := State([], false, None, [], None, [], Nothing, [], Dispatch.INITIAL, map[])

  function Answers(owed: map<nat, seq<nat>>, w: nat): seq<nat> {
    if w in owed then owed[w] else []
  }

  ghost predicate Enabled(s: State, st: Step) {
    match st
    case Inject(_) => !s.down && |s.ingress| < CHANNEL_BUFFER
    case Emit(w, raw) =>
      && Answers(s.owed, w) != [] && raw == Answers(s.owed, w)[0]
      && (s.down || |s.ingress| < CHANNEL_BUFFER)
    case ParseRecv(_) => !s.down && s.parsing.None? && s.ingress != []
    case ParsePanic => !s.down && s.parsing.None? && s.ingress != []
    case ParseSend => s.parsing.Some? && |s.parsed| < CHANNEL_BUFFER
    case ValidateRecv(_) => s.validating.None? && s.parsed != []
    case ValidateSend => s.validating.Some? && |s.validated| < CHANNEL_BUFFER
    case RouteRecv(_) => s.routing.Nothing? && s.validated != []
    case RouteSend =>
      || (s.routing.Local? && |s.d.routed| < CHANNEL_BUFFER && !s.d.closed)
      || (s.routing.Remote? && |s.egress| < CHANNEL_BUFFER)
    case EgressRecv => s.egress != []
    case Fan(st, _) =>
      && !st.Arrive? && !st.Close?
      && Dispatch.Enabled(s.d, st)
      && (st.WFinish? ==> Answers(s.owed, st.w) == [])
  }

  /** The worker a step puts inside a handler call. */
  ghost function Starts(s: Dispatch.State, st: Dispatch.Step): Option<nat> {
    if st.WRecv? then Some(st.w)
    else if st.WTryRecv? && st.w < |s.workers| && s.workers[st.w].queue != [] then Some(st.w)
    else None
  }

  ghost function Apply(s: State, st: Step): State
    requires Enabled(s, st)
  {
    match st
    case Inject(raw) => s.(ingress := s.ingress + [raw])
    case Emit(w, raw) =>
      s.(ingress := if s.down then s.ingress else s.ingress + [raw],
         owed := s.owed[w := Answers(s.owed, w)[1..]])
    case ParseRecv(p) => s.(ingress := s.ingress[1..], parsing := p)
    case ParseSend => s.(parsing := None, parsed := s.parsed + [s.parsing.value])
    case ParsePanic => s.(ingress := [], down := true)
    case ValidateRecv(ok) =>
      s.(parsed := s.parsed[1..], validating := if ok then Some(s.parsed[0]) else None)
    case ValidateSend => s.(validating := None, validated := s.validated + [s.validating.value])
    case RouteRecv(route) =>
      s.(validated := s.validated[1..],
         routing := match route
           case Die => Nothing
           case Here => Local(s.validated[0])
           case Elsewhere => Remote(s.validated[0]))
    case RouteSend =>
      if s.routing.Local? then
        s.(routing := Nothing, d := Dispatch.Apply(s.d, Dispatch.Arrive(s.routing.m)))
      else
        s.(routing := Nothing, egress := s.egress + [s.routing.m])
    case EgressRecv => s.(egress := s.egress[1..])
    case Fan(st, answers) =>
      s.(d := Dispatch.Apply(s.d, st),
         owed := if Starts(s.d, st).Some? then s.owed[Starts(s.d, st).value := answers]
                 else if st.WPanic? then s.owed - {st.w}
                 else s.owed)
  }

  ghost predicate Runs(s: State, steps: seq<Step>)
    decreases |steps|
  {
    steps == [] || (Enabled(s, steps[0]) && Runs(Apply(s, steps[0]), steps[1..]))
  }

  ghost function After(s: State, steps: seq<Step>): State
    requires Runs(s, steps)
    decreases |steps|
  {
    if steps == [] then s else After(Apply(s, steps[0]), steps[1..])
  }

  // ---- The invariant ----

  ghost predicate Inv(s: State) {
    && DispatchInvariant.Inv(s.d) && !s.d.closed
    && |s.ingress| <= CHANNEL_BUFFER && |s.parsed| <= CHANNEL_BUFFER && |s.validated| <= CHANNEL_BUFFER
    && |s.d.routed| <= CHANNEL_BUFFER && |s.egress| <= CHANNEL_BUFFER
    && (s.down ==> s.ingress == [] && s.parsing.None?)
    && forall w: nat :: Answers(s.owed, w) != [] ==> w < |s.d.workers| && s.d.workers[w].phase.Processing?
  }

  lemma InitialInv()
    ensures Inv(INITIAL)
  {
    DispatchInvariant.InitialInv();
  }

  lemma FanKeepsInv(s: State, st: Dispatch.Step, answers: seq<nat>)
    requires Inv(s) && Enabled(s, Fan(st, answers))
    ensures Inv(Apply(s, Fan(st, answers)))
  {
    DispatchInvariant.InvKept(s.d, st);
    var s' := Apply(s, Fan(st, answers));
    forall w: nat | Answers(s'.owed, w) != []
      ensures w < |s'.d.workers| && s'.d.workers[w].phase.Processing?
    {
      assert Starts(s.d, st) != Some(w) ==> Answers(s.owed, w) != [];
    }
  }

  lemma InvKept(s: State, st: Step)
    requires Inv(s) && Enabled(s, st)
    ensures Inv(Apply(s, st))
  {
    match st
    case Fan(f, answers) => FanKeepsInv(s, f, answers);
    case RouteSend =>
      if s.routing.Local? {
        DispatchInvariant.InvKept(s.d, Dispatch.Arrive(s.routing.m));
      }
    case Emit(v, _) =>
      var s' := Apply(s, st);
      forall w: nat | Answers(s'.owed, w) != []
        ensures w < |s'.d.workers| && s'.d.workers[w].phase.Processing?
      {
        assert Answers(s.owed, w) != [];
      }
    case _ =>
      assert Apply(s, st).owed == s.owed;
  }

  lemma {:induction false} RunKeepsInv(s: State, steps: seq<Step>)
    requires Inv(s) && Runs(s, steps)
    ensures Inv(After(s, steps))
    decreases |steps|
  {
    if steps != [] {
      InvKept(s, steps[0]);
      RunKeepsInv(Apply(s, steps[0]), steps[1..]);
    }
  }

  // ---- Pushing and draining ----

  /** The steps that put something into the first channel; all others drain the ring. */
  predicate Pushes(st: Step) {
    st.Inject? || st.Emit?
  }

  const HOP := DispatchTheorems.ROUTED_RANK

  function HandRank(h: Hand): nat {
    match h
    case Nothing => 0
    case Local(_) => HOP + 1
    case Remote(_) => 2
  }

  /** How much draining the ring can do before something is pushed again. */
  function Rank(s: State): nat {
    (HOP + 6) * |s.ingress|
    + (if s.parsing.Some? then HOP + 5 else 0)
    + (HOP + 4) * |s.parsed|
    + (if s.validating.Some? then HOP + 3 else 0)
    + (HOP + 2) * |s.validated|
    + HandRank(s.routing)
    + |s.egress|
    + DispatchTheorems.Measure(s.d)
  }

  lemma DrainDecreasesRank(s: State, st: Step)
    requires Inv(s) && Enabled(s, st) && !Pushes(st)
    ensures Rank(Apply(s, st)) < Rank(s)
  {
    match st
    case Fan(f, _) => DispatchTheorems.MeasureDecreases(s.d, f);
    case _ =>
  }

  ghost predicate Drains(steps: seq<Step>) {
    forall i :: 0 <= i < |steps| ==> !Pushes(steps[i])
  }

  lemma {:induction false} DrainingIsBounded(s: State, steps: seq<Step>)
    requires Inv(s) && Runs(s, steps) && Drains(steps)
    ensures |steps| + Rank(After(s, steps)) <= Rank(s)
    decreases |steps|
  {
    if steps != [] {
      DrainDecreasesRank(s, steps[0]);
      InvKept(s, steps[0]);
      assert forall i :: 0 <= i < |steps[1..]| ==> steps[1..][i] == steps[i + 1];
      DrainingIsBounded(Apply(s, steps[0]), steps[1..]);
    }
  }

  // ---- No deadlock ----

  /** Something is on its way through the stages or in the dispatcher's hand. */
  predicate Loaded(s: State) {
    || s.ingress != [] || s.parsing.Some? || s.parsed != [] || s.validating.Some? || s.validated != []
    || !s.routing.Nothing? || s.egress != [] || s.d.routed != [] || !s.d.disp.Idle?
  }

  /** A worker waits for room in the first channel. */
  ghost predicate Blocked(s: State, w: nat) {
    Answers(s.owed, w) != [] && |s.ingress| == CHANNEL_BUFFER
  }

  /** Steps of the four stage tasks, of the egress drain, and of a worker holding the map lock. */
  predicate StageStep(st: Step) {
    match st
    case Inject(_) => false
    case Emit(_, _) => false
    case Fan(f, _) =>
      f.DRecv? || f.DLock? || f.DLookup? || f.DInsert? || f.DSend? || f.DUnlock? || f.WTryRecv? || f.WReap?
    case _ => true
  }

  lemma LockHolderMoves(s: State) returns (st: Step)
    requires Inv(s) && !s.d.lock.Free?
    ensures Enabled(s, st) && StageStep(st) && st.Fan?
  {
    var f := DispatchTheorems.LockHolderMoves(s.d);
    st := Fan(f, []);
  }

  /** The dispatcher never waits for a worker in a handler call, only for the map lock. */
  lemma DispatcherMoves(s: State) returns (st: Step)
    requires Inv(s) && (s.d.routed != [] || !s.d.disp.Idle?)
    ensures Enabled(s, st) && StageStep(st) && st.Fan?
  {
    if !s.d.lock.Free? {
      st := LockHolderMoves(s);
    } else if s.d.disp.Idle? {
      st := Fan(Dispatch.DRecv, []);
    } else {
      st := Fan(Dispatch.DLock, []);
    }
  }

  /**
   Whenever a message is in a stage channel or in a stage's hand, or a worker is blocked on the
   way back in, some stage step can be taken, whatever the workers do.
   */
  lemma NoDeadlock(s: State) returns (st: Step)
    requires Inv(s) && (Loaded(s) || exists w :: Blocked(s, w))
    ensures Enabled(s, st) && StageStep(st) && !st.ParsePanic?
  {
    if s.d.routed != [] || !s.d.disp.Idle? {
      st := DispatcherMoves(s);
    } else if s.egress != [] {
      st := EgressRecv;
    } else if !s.routing.Nothing? {
      st := RouteSend;
    } else if s.validated != [] {
      st := RouteRecv(Die);
    } else if s.validating.Some? {
      st := ValidateSend;
    } else if s.parsed != [] {
      st := ValidateRecv(true);
    } else if s.parsing.Some? {
      st := ParseSend;
    } else {
      st := ParseRecv(None);
    }
  }

  lemma StageStepsDrain(st: Step)
    requires StageStep(st)
    ensures !Pushes(st)
  {
  }

  /** No stage step is possible. */
  ghost predicate Starved(s: State) {
    forall st: Step {:trigger StageStep(st)} :: StageStep(st) ==> !Enabled(s, st)
  }

  /**
   Back-pressure always ends: a run of stage steps is no longer than the rank of its first
   state, and one that cannot be continued leaves every channel empty, so nobody is blocked.
   */
  lemma RoomComes(s: State, steps: seq<Step>)
    requires Inv(s) && Runs(s, steps) && (forall i :: 0 <= i < |steps| ==> StageStep(steps[i]))
    ensures |steps| <= Rank(s)
    ensures Starved(After(s, steps)) ==> !Loaded(After(s, steps)) && forall w :: !Blocked(After(s, steps), w)
  {
    forall i | 0 <= i < |steps|
      ensures !Pushes(steps[i])
    {
      StageStepsDrain(steps[i]);
    }
    DrainingIsBounded(s, steps);
    RunKeepsInv(s, steps);
    var t := After(s, steps);
    if Starved(t) && (Loaded(t) || exists w :: Blocked(t, w)) {
      var st := NoDeadlock(t);
      assert false;
    }
  }

  /**
   From every reachable state stage steps alone make room, whatever the workers hold back; none
   of them needs to be a panic.
   */
  lemma {:induction false} StagesMakeRoom(s: State) returns (steps: seq<Step>)
    requires Inv(s)
    ensures Runs(s, steps) && |steps| <= Rank(s)
    ensures forall i :: 0 <= i < |steps| ==> StageStep(steps[i]) && !steps[i].ParsePanic?
    ensures After(s, steps).down == s.down
    ensures !Loaded(After(s, steps)) && |After(s, steps).ingress| < CHANNEL_BUFFER
    decreases Rank(s)
  {
    if Loaded(s) {
      var st := NoDeadlock(s);
      DrainDecreasesRank(s, st);
      InvKept(s, st);
      var rest := StagesMakeRoom(Apply(s, st));
      steps := [st] + rest;
      assert steps[1..] == rest;
    } else {
      steps := [];
    }
  }

  /** Nobody can move unless the ring is empty and every worker has ended or waits for nothing. */
  lemma RestMeansEmpty(s: State)
    requires Inv(s)
    requires forall st: Step {:trigger Enabled(s, st)} :: !st.Inject? ==> !Enabled(s, st)
    ensures !Loaded(s) && s.d.lock.Free?
    ensures forall w :: 0 <= w < |s.d.workers| ==> s.d.workers[w].phase.Gone? || s.d.workers[w].phase.Panicked?
    ensures forall k ::
      DispatchInvariant.OfKey(DispatchInvariant.Messages(s.d.log), k) == DispatchInvariant.OfKey(s.d.history, k)
  {
    if Loaded(s) || exists w :: Blocked(s, w) {
      var st := NoDeadlock(s);
      assert false;
    }
    if !s.d.lock.Free? {
      var st := LockHolderMoves(s);
      assert false;
    }
    forall w | 0 <= w < |s.d.workers|
      ensures s.d.workers[w].phase.Gone? || s.d.workers[w].phase.Panicked?
    {
      assert Answers(s.owed, w) != [] ==> !Enabled(s, Emit(w, Answers(s.owed, w)[0]));
      forall f: Dispatch.Step {:trigger Dispatch.Enabled(s.d, f)} | DispatchInvariant.Subject(f) == Some(w)
        ensures !Dispatch.Enabled(s.d, f)
      {
        assert !Enabled(s, Fan(f, []));
      }
      DispatchTheorems.StuckWorker(s.d, w);
    }
    forall k
      ensures DispatchInvariant.OfKey(DispatchInvariant.Messages(s.d.log), k) == DispatchInvariant.OfKey(s.d.history, k)
    {
      assert DispatchInvariant.Account(s.d, k) == DispatchInvariant.OfKey(s.d.history, k);
      assert k in s.d.wmap ==> DispatchInvariant.WorkerOk(s.d.workers[s.d.wmap[k]]);
    }
  }
}
