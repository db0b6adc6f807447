/** What holds in every run of the dispatch fan-out. */
module DispatchTheorems {
  import opened Results
  import opened Dispatch
  import opened DispatchInvariant

  // ---- Every reachable state ----

  /** The messages that arrive during a run, in order. */
  function Arrivals(steps: seq<Step>): seq<Msg> {
    if steps == [] then []
    else (if steps[0].Arrive? then [steps[0].m] else []) + Arrivals(steps[1..])
  }

  lemma {:induction false} RunKeepsInv(s: State, steps: seq<Step>)
    requires Inv(s) && Runs(s, steps)
    ensures Inv(After(s, steps))
    ensures After(s, steps).history == s.history + Arrivals(steps)
    decreases |steps|
  {
    RunHistory(s, steps);
    hide Inv, Enabled, Apply, Arrivals;
    if steps != [] {
      InvKept(s, steps[0]);
      RunKeepsInv(Apply(s, steps[0]), steps[1..]);
    }
  }

  lemma {:induction false} RunHistory(s: State, steps: seq<Step>)
    requires Runs(s, steps)
    ensures After(s, steps).history == s.history + Arrivals(steps)
    decreases |steps|
  {
    if steps != [] {
      RunHistory(Apply(s, steps[0]), steps[1..]);
      StepArrives(s, steps[0]);
      hide Runs, After, Enabled, Apply;
      var h, a, b := s.history, if steps[0].Arrive? then [steps[0].m] else [], Arrivals(steps[1..]);
      assert (h + a) + b == h + (a + b);
    }
  }

  lemma StepArrives(s: State, st: Step)
    requires Enabled(s, st)
    ensures Apply(s, st).history == s.history + if st.Arrive? then [st.m] else []
  {
  }

  lemma StaysClosed(s: State, st: Step)
    requires s.closed && Enabled(s, st)
    ensures Apply(s, st).closed && !st.Arrive?
  {
  }

  /** The message of key `k` a handler is working on, if any. */
  function Current(s: State, k: string): seq<Msg> {
    if k in s.wmap && s.wmap[k] < |s.workers| && s.workers[s.wmap[k]].phase.Processing?
    then [s.workers[s.wmap[k]].phase.m] else []
  }

  /** The queue of the worker key `k` maps to. */
  function Queued(s: State, k: string): seq<Msg> {
    if k in s.wmap && s.wmap[k] < |s.workers| then s.workers[s.wmap[k]].queue else []
  }

  /**
   Per-thread order without loss or duplication, across any spawns, reaps and panics: settled
   messages, then the one in progress, the queue, the dispatcher's hand and the channel are
   exactly the arrivals of that thread.
   */
  lemma PerThreadFifo(steps: seq<Step>, k: string)
    requires Runs(INITIAL, steps)
    ensures var s := After(INITIAL, steps);
      OfKey(Messages(s.log), k) + (Current(s, k) + Queued(s, k)) + (OfKey(InHand(s.disp), k) + OfKey(s.routed, k))
      == OfKey(Arrivals(steps), k)
  {
    InitialInv();
    RunKeepsInv(INITIAL, steps);
    var s := After(INITIAL, steps);
    assert s.history == Arrivals(steps);
    assert Account(s, k) == OfKey(s.history, k);
    assert Held(s, k) == Current(s, k) + Queued(s, k);
  }

  /** No key ever has two workers that may run a handler. */
  lemma SingleLiveWorker(s: State, v: nat, w: nat)
    requires Inv(s) && v < |s.workers| && w < |s.workers|
    requires Alive(s.workers[v].phase) && Alive(s.workers[w].phase)
    requires s.workers[v].key == s.workers[w].key
    ensures v == w
  {
    assert Registered(s, v) && Registered(s, w);
  }

  /** Two handler calls for one thread never overlap, in any run. */
  lemma HandlersNeverOverlap(steps: seq<Step>, v: nat, w: nat)
    requires Runs(INITIAL, steps)
    requires var s := After(INITIAL, steps);
      v < |s.workers| && w < |s.workers| && v != w
      && s.workers[v].phase.Processing? && s.workers[w].phase.Processing?
    ensures var s := After(INITIAL, steps);
      s.workers[v].phase.m.key != s.workers[w].phase.m.key
  {
    InitialInv();
    RunKeepsInv(INITIAL, steps);
    var s := After(INITIAL, steps);
    assert WorkerOk(s.workers[v]) && WorkerOk(s.workers[w]);
    if s.workers[v].key == s.workers[w].key {
      SingleLiveWorker(s, v, w);
    }
  }

  /** A mapped worker never sees its channel disconnected: it can only leave by reaping itself. */
  lemma NeverDisconnected(s: State, w: nat)
    requires Inv(s)
    ensures !Enabled(s, WDisconnected(w))
  {
    if InPhase(s, w, Waiting) {
      assert Registered(s, w);
      assert HasSender(s, w);
    }
  }

  // ---- Panics ----

  ghost predicate Settled(log: seq<Fate>) {
    forall i :: 0 <= i < |log| ==> log[i].Done?
  }

  ghost predicate NoPanics(steps: seq<Step>) {
    forall i :: 0 <= i < |steps| ==> !steps[i].WPanic?
  }

  ghost predicate Unharmed(s: State) {
    Settled(s.log) && forall w :: 0 <= w < |s.workers| ==> !s.workers[w].phase.Panicked?
  }

  /**
   The messages a step loses: none, unless a handler panics, and then exactly the message it
   was working on and those queued behind it.
   */
  lemma LossOnlyAtPanic(s: State, st: Step)
    requires Inv(s) && Enabled(s, st)
    ensures st.WPanic? ==> Apply(s, st).log == s.log + Drop(Load(s.workers[st.w]))
    ensures st.WFinish? ==> Apply(s, st).log == s.log + [Done(s.workers[st.w].phase.m)]
    ensures !st.WPanic? && !st.WFinish? ==> Apply(s, st).log == s.log
  {
    if Subject(st).Some? {
      assert WorkerOk(s.workers[Subject(st).value]);
    }
  }

  lemma StepUnharmed(s: State, st: Step)
    requires Inv(s) && Unharmed(s) && Enabled(s, st) && !st.WPanic?
    ensures Unharmed(Apply(s, st))
  {
    LossOnlyAtPanic(s, st);
  }

  lemma {:induction false} PanicFreeUnharmed(s: State, steps: seq<Step>)
    requires Inv(s) && Unharmed(s) && Runs(s, steps) && NoPanics(steps)
    ensures Unharmed(After(s, steps))
    decreases |steps|
  {
    if steps != [] {
      InvKept(s, steps[0]);
      StepUnharmed(s, steps[0]);
      assert forall i :: 0 <= i < |steps[1..]| ==> steps[1..][i] == steps[i + 1];
      PanicFreeUnharmed(Apply(s, steps[0]), steps[1..]);
    }
  }

  /**
   The retry loop: only a panicked worker can refuse a message, the second attempt always
   meets an open receiver, so no message is offered more than twice.
   */
  lemma RetryOnce(s: State)
    requires Inv(s) && s.disp.Sending?
    ensures s.disp.tries <= 1
    ensures Enabled(s, DSend)
    ensures !Open(s.workers[s.disp.w].phase) ==> s.workers[s.disp.w].phase.Panicked? && s.disp.tries == 0
    ensures s.disp.tries == 1 ==> Apply(s, DSend).disp == Unlocking(None, 1)
  {
  }

  // ---- Termination ----

  function PhaseRank(p: Phase): nat {
    match p
    case Gone => 0
    case Panicked => 0
    case Leaving => 1
    case Reaping => 2
    case Rechecking => 3
    case TimedOut => 4
    case Waiting => 5
    case Processing(_) => 6
  }

  function WorkerRank(wk: Worker): nat {
    PhaseRank(wk.phase) + 4 * |wk.queue|
  }

  function WorkersRank(ws: seq<Worker>): nat {
    if ws == [] then 0 else WorkersRank(ws[..|ws| - 1]) + WorkerRank(ws[|ws| - 1])
  }

  function DispatcherRank(d: Dispatcher): nat {
    match d
    case Stopped => 0
    case Idle => 1
    case Unlocking(back, _) => if back.None? then 2 else 16
    case Sending(_, _, t) => if t == 0 then 17 else 7
    case Spawned(_, _, t) => if t == 0 then 18 else 8
    case Looking(_, t) => if t == 0 then 24 else 14
    case Pending(_, t) => if t == 0 then 25 else 15
  }

  const ROUTED_RANK := 25

  /** How many more steps the fan-out can take without a new arrival. */
  function Measure(s: State): nat {
    ROUTED_RANK * |s.routed| + DispatcherRank(s.disp) + WorkersRank(s.workers) + (if s.closed then 0 else 1)
  }

  lemma {:induction false} WorkersRankUpdate(ws: seq<Worker>, w: nat, wk: Worker)
    requires w < |ws|
    ensures WorkersRank(ws[w := wk]) + WorkerRank(ws[w]) == WorkersRank(ws) + WorkerRank(wk)
    decreases |ws|
  {
    var n := |ws| - 1;
    if w < n {
      WorkersRankUpdate(ws[..n], w, wk);
      assert ws[w := wk][..n] == ws[..n][w := wk];
    } else {
      assert ws[w := wk][..n] == ws[..n];
    }
  }

  lemma WorkersRankAppend(ws: seq<Worker>, wk: Worker)
    ensures WorkersRank(ws + [wk]) == WorkersRank(ws) + WorkerRank(wk)
  {
    assert (ws + [wk])[..|ws|] == ws;
  }

  lemma WorkerStepDecreases(s: State, st: Step, w: nat)
    requires w < |s.workers| && WorkerOk(s.workers[w])
    requires Subject(st) == Some(w) && Enabled(s, st)
    ensures Measure(Apply(s, st)) < Measure(s)
  {
    var s' := Apply(s, st);
    WorkersRankUpdate(s.workers, w, s'.workers[w]);
    assert s'.workers == s.workers[w := s'.workers[w]];
    assert WorkerRank(s'.workers[w]) < WorkerRank(s.workers[w]);
  }

  lemma SendDecreases(s: State)
    requires DispatcherOk(s) && Enabled(s, DSend)
    ensures Measure(Apply(s, DSend)) < Measure(s)
  {
    var wk := s.workers[s.disp.w];
    WorkersRankUpdate(s.workers, s.disp.w, wk.(queue := wk.queue + [s.disp.m]));
  }

  lemma DispatcherStepDecreases(s: State, st: Step)
    requires DispatcherOk(s) && Enabled(s, st)
    requires st in {Close, DRecv, DStop, DLock, DLookup, DInsert, DUnlock}
    ensures Measure(Apply(s, st)) < Measure(s)
  {
    hide WorkersRank;
    if st.DLookup? {
      LookupDecreases(s);
    }
  }

  lemma LookupDecreases(s: State)
    requires DispatcherOk(s) && Enabled(s, DLookup)
    ensures Measure(Apply(s, DLookup)) < Measure(s)
  {
    hide WorkersRank;
    WorkersRankAppend(s.workers, Worker(s.disp.m.key, [], Waiting));
  }

  /** Every step but an arrival uses the measure up, panics included. */
  lemma MeasureDecreases(s: State, st: Step)
    requires Inv(s) && Enabled(s, st) && !st.Arrive?
    ensures Measure(Apply(s, st)) < Measure(s)
  {
    if Subject(st).Some? {
      assert WorkerOk(s.workers[Subject(st).value]);
      WorkerStepDecreases(s, st, Subject(st).value);
    } else if st.DSend? {
      SendDecreases(s);
    } else {
      DispatcherStepDecreases(s, st);
    }
  }

  ghost predicate NoArrivals(steps: seq<Step>) {
    forall i :: 0 <= i < |steps| ==> !steps[i].Arrive?
  }

  /** A run without arrivals is no longer than the measure of its first state. */
  lemma {:induction false} RunsAreBounded(s: State, steps: seq<Step>)
    requires Inv(s) && Runs(s, steps) && NoArrivals(steps)
    ensures |steps| + Measure(After(s, steps)) <= Measure(s)
    decreases |steps|
  {
    if steps != [] {
      MeasureDecreases(s, steps[0]);
      InvKept(s, steps[0]);
      assert forall i :: 0 <= i < |steps[1..]| ==> steps[1..][i] == steps[i + 1];
      RunsAreBounded(Apply(s, steps[0]), steps[1..]);
    }
  }

  // ---- Quiescence ----

  /** No task can move. */
  ghost predicate Stuck(s: State) {
    forall st {:trigger Enabled(s, st)} :: !Enabled(s, st)
  }

  /** A worker task that cannot move any more has ended. */
  lemma StuckWorker(s: State, w: nat)
    requires Inv(s) && s.lock.Free? && w < |s.workers|
    requires forall st {:trigger Enabled(s, st)} :: Subject(st) == Some(w) ==> !Enabled(s, st)
    ensures s.workers[w].phase.Gone? || s.workers[w].phase.Panicked?
  {
    assert !Enabled(s, WTimeout(w)) && !Enabled(s, WLock(w)) && !Enabled(s, WFinish(w)) && !Enabled(s, WDrop(w));
  }

  /** The holder of the lock can always move. */
  lemma LockHolderMoves(s: State) returns (st: Step)
    requires Inv(s) && !s.lock.Free?
    ensures Enabled(s, st)
    ensures s.lock.ByDispatcher? ==> st in {DLookup, DInsert, DSend, DUnlock}
    ensures s.lock.ByWorker? ==> st in {WTryRecv(s.lock.w), WReap(s.lock.w)}
  {
    match s.lock
    case ByDispatcher =>
      st := match s.disp
        case Looking(_, _) => DLookup
        case Spawned(_, _, _) => DInsert
        case Sending(_, _, _) => DSend
        case _ => DUnlock;
    case ByWorker(w) =>
      st := if s.workers[w].phase == Rechecking then WTryRecv(w) else WReap(w);
  }

  lemma StuckDispatcher(s: State)
    requires Inv(s) && Stuck(s)
    ensures s.lock.Free? && s.disp.Stopped?
  {
    if !s.lock.Free? {
      var st := LockHolderMoves(s);
      assert false;
    }
    assert !Enabled(s, DLock) && !Enabled(s, DRecv) && !Enabled(s, DStop) && !Enabled(s, Close);
  }

  /**
   When nothing can move any more, every task has ended, every accepted message is settled,
   in order, and the map holds nothing but the entries of panicked workers.
   */
  lemma StuckIsDrained(s: State)
    requires Inv(s) && Stuck(s)
    ensures s.disp.Stopped? && s.lock.Free? && s.closed && s.routed == []
    ensures forall w :: 0 <= w < |s.workers| ==>
      s.workers[w].queue == [] && (s.workers[w].phase.Gone? || s.workers[w].phase.Panicked?)
    ensures forall k :: k in s.wmap ==> s.workers[s.wmap[k]].phase.Panicked?
    ensures forall k :: OfKey(Messages(s.log), k) == OfKey(s.history, k)
  {
    StuckDispatcher(s);
    forall w | 0 <= w < |s.workers|
      ensures s.workers[w].queue == [] && (s.workers[w].phase.Gone? || s.workers[w].phase.Panicked?)
    {
      StuckWorker(s, w);
      assert WorkerOk(s.workers[w]);
    }
    forall k
      ensures OfKey(Messages(s.log), k) == OfKey(s.history, k)
    {
      assert Account(s, k) == OfKey(s.history, k);
    }
  }

  /**
   A panic-free run that cannot be continued processed every accepted message exactly once,
   in order per thread, and left the map empty.
   */
  lemma PanicFreeQuiescence(steps: seq<Step>)
    requires Runs(INITIAL, steps) && NoPanics(steps) && Stuck(After(INITIAL, steps))
    ensures var s := After(INITIAL, steps);
      && s.wmap == map[] && s.disp.Stopped? && s.routed == []
      && Settled(s.log)
      && (forall w :: 0 <= w < |s.workers| ==> s.workers[w] == Worker(s.workers[w].key, [], Gone))
      && (forall k :: OfKey(Messages(s.log), k) == OfKey(Arrivals(steps), k))
      && multiset(Messages(s.log)) == multiset(Arrivals(steps))
  {
    InitialInv();
    RunKeepsInv(INITIAL, steps);
    PanicFreeUnharmed(INITIAL, steps);
    StuckIsDrained(After(INITIAL, steps));
    assert After(INITIAL, steps).history == Arrivals(steps);
    MessageTotals(After(INITIAL, steps));
  }

  lemma MessageTotals(s: State)
    requires Inv(s) && forall k :: OfKey(Messages(s.log), k) == OfKey(s.history, k)
    ensures multiset(Messages(s.log)) == multiset(s.history)
  {
    forall m: Msg
      ensures multiset(Messages(s.log))[m] == multiset(s.history)[m]
    {
      CountByKey(Messages(s.log), m);
      CountByKey(s.history, m);
    }
  }

  lemma {:induction false} CountByKey(ms: seq<Msg>, m: Msg)
    ensures multiset(ms)[m] == multiset(OfKey(ms, m.key))[m]
    decreases |ms|
  {
    if ms != [] {
      var n := |ms| - 1;
      CountByKey(ms[..n], m);
      assert ms == ms[..n] + [ms[n]];
    }
  }

  /** Once closed, the fan-out can always be run to its end without a panic. */
  lemma RunsToTheEnd(s: State) returns (steps: seq<Step>)
    requires Inv(s) && s.closed
    ensures Runs(s, steps) && NoPanics(steps) && NoArrivals(steps) && Stuck(After(s, steps))
    decreases Measure(s)
  {
    hide Inv, Apply, Measure;
    if exists st :: Enabled(s, st) && !st.WPanic? {
      var st :| Enabled(s, st) && !st.WPanic?;
      MeasureDecreases(s, st);
      InvKept(s, st);
      StaysClosed(s, st);
      var rest := RunsToTheEnd(Apply(s, st));
      steps := [st] + rest;
      assert steps[1..] == rest;
    } else {
      forall st
        ensures !Enabled(s, st)
      {
        if st.WPanic? {
          assert !Enabled(s, WFinish(st.w));
        }
      }
      steps := [];
    }
  }
}
