/**
 The dispatch fan-out: one dispatcher task, one serial worker task per delivery thread, and
 the worker map they share behind a mutex (`dispatch_stage` and `serial_worker`).

 The tasks run concurrently, so they are a labelled transition system. One step is one atomic
 action of one task: taking or dropping the mutex, one map access, one channel operation, or
 the end of a handler call.
 */
module Dispatch {
  import opened Results

  /** A routed message; `key` is its thread id and `id` tells messages apart. */
  datatype Msg = Msg(key: string, id: nat)

  /** What finally became of a message. */
  datatype Fate = Done(m: Msg) | Lost(m: Msg)

  /** Where a worker task is in its loop. */
  datatype Phase =
    | Waiting            // awaiting the next message under the idle timer
    | TimedOut           // the idle timer fired; the worker wants the map lock
    | Rechecking         // holds the lock, about to call try_recv
    | Reaping            // holds the lock, the queue was empty, about to remove its entry
    | Processing(m: Msg) // inside process_message, without the lock
    | Leaving            // left the loop; its receiver is not dropped yet
    | Gone               // the task ended and its receiver is closed
    | Panicked           // a handler panicked: the receiver closed, the map was not touched

  datatype Worker = Worker(key: string, queue: seq<Msg>, phase: Phase)

  /** Where the dispatcher is; `tries` counts the failed sends of the message in hand. */
  datatype Dispatcher =
    | Idle
    | Pending(m: Msg, tries: nat)            // wants the lock
    | Looking(m: Msg, tries: nat)            // holds the lock, about to look the key up
    | Spawned(m: Msg, w: nat, tries: nat)    // holds the lock; worker `w` runs, not yet in the map
    | Sending(m: Msg, w: nat, tries: nat)    // holds the lock and a sender to worker `w`
    | Unlocking(back: Option<Msg>, tries: nat) // about to drop the lock; `back` came back unsent
    | Stopped                                // the routed channel is closed and drained

  datatype Lock = Free | ByDispatcher | ByWorker(w: nat)

  /** Workers are numbered in spawn order. `log` and `history` are bookkeeping. */
  datatype State = State(
    routed: seq<Msg>,
    closed: bool,
    disp: Dispatcher,
    lock: Lock,
    workers: seq<Worker>,
    wmap: map<string, nat>,
    log: seq<Fate>,
    history: seq<Msg>)

  datatype Step =
    | Arrive(m: Msg)
    | Close
    | DRecv
    | DStop
    | DLock
    | DLookup
    | DInsert
    | DSend
    | DUnlock
    | WRecv(w: nat)
    | WDisconnected(w: nat)
    | WFinish(w: nat)
    | WPanic(w: nat)
    | WTimeout(w: nat)
    | WLock(w: nat)
    | WTryRecv(w: nat)
    | WReap(w: nat)
    | WDrop(w: nat)

  const INITIAL := State([], false, Idle, Free, [], map[], [], [])

  /** The receiver half still exists. */
  predicate Open(p: Phase) {
    !p.Gone? && !p.Panicked?
  }

  /** The worker may still run a handler. */
  predicate Alive(p: Phase) {
    Open(p) && !p.Leaving?
  }

  /** Some sender to worker `w` exists: in the map, or in the dispatcher's hands. */
  ghost predicate HasSender(s: State, w: nat) {
    || (exists k :: k in s.wmap && s.wmap[k] == w)
    || (s.disp.Spawned? && s.disp.w == w)
    || (s.disp.Sending? && s.disp.w == w)
  }

  predicate InPhase(s: State, w: nat, p: Phase) {
    w < |s.workers| && s.workers[w].phase == p
  }

  ghost predicate Enabled(s: State, st: Step) {
    match st
    case Arrive(_) => !s.closed
    case Close => !s.closed
    case DRecv => s.disp.Idle? && s.routed != []
    case DStop => s.disp.Idle? && s.routed == [] && s.closed
    case DLock => s.disp.Pending? && s.lock.Free?
    case DLookup => s.disp.Looking?
    case DInsert => s.disp.Spawned?
    case DSend => s.disp.Sending? && s.disp.w < |s.workers|
    case DUnlock => s.disp.Unlocking?
    case WRecv(w) => InPhase(s, w, Waiting) && s.workers[w].queue != []
    case WDisconnected(w) => InPhase(s, w, Waiting) && s.workers[w].queue == [] && !HasSender(s, w)
    case WFinish(w) => w < |s.workers| && s.workers[w].phase.Processing?
    case WPanic(w) => w < |s.workers| && s.workers[w].phase.Processing?
    case WTimeout(w) => InPhase(s, w, Waiting)
    case WLock(w) => InPhase(s, w, TimedOut) && s.lock.Free?
    case WTryRecv(w) => InPhase(s, w, Rechecking)
    case WReap(w) => InPhase(s, w, Reaping)
    case WDrop(w) => InPhase(s, w, Leaving)
  }

  /** Every message of a dropped queue is lost. */
  function Drop(ms: seq<Msg>): (fs: seq<Fate>)
    ensures |fs| == |ms| && forall i :: 0 <= i < |ms| ==> fs[i] == Lost(ms[i])
  {
    seq(|ms|, i requires 0 <= i < |ms| => Lost(ms[i]))
  }

  function SetPhase(s: State, w: nat, p: Phase): State
    requires w < |s.workers|
  {
    s.(workers := s.workers[w := s.workers[w].(phase := p)])
  }

  /** Worker `w` takes the head of its queue and starts processing it. */
  function TakeHead(s: State, w: nat): State
    requires w < |s.workers| && s.workers[w].queue != []
  {
    var wk := s.workers[w];
    s.(workers := s.workers[w := wk.(queue := wk.queue[1..], phase := Processing(wk.queue[0]))])
  }

  /** Worker `w` ends in phase `p`, losing `first` and everything still queued. */
  function CloseReceiver(s: State, w: nat, p: Phase, first: seq<Msg>): State
    requires w < |s.workers|
  {
    var wk := s.workers[w];
    s.(workers := s.workers[w := wk.(queue := [], phase := p)], log := s.log + Drop(first + wk.queue))
  }

  function DispatcherLookup(s: State): State
    requires s.disp.Looking?
  {
    var d := s.disp;
    if d.m.key in s.wmap then
      s.(disp := Sending(d.m, s.wmap[d.m.key], d.tries))
    else
      s.(workers := s.workers + [Worker(d.m.key, [], Waiting)],
         disp := Spawned(d.m, |s.workers|, d.tries))
  }

  function DispatcherSend(s: State): State
    requires s.disp.Sending? && s.disp.w < |s.workers|
  {
    var d := s.disp;
    var wk := s.workers[d.w];
    if Open(wk.phase) then
      s.(workers := s.workers[d.w := wk.(queue := wk.queue + [d.m])], disp := Unlocking(None, d.tries))
    else
      s.(wmap := s.wmap - {d.m.key}, disp := Unlocking(Some(d.m), d.tries + 1))
  }

  /** The effect of an enabled step. */
  ghost function Apply(s: State, st: Step): State
    requires Enabled(s, st)
  {
    match st
    case Arrive(m) => s.(routed := s.routed + [m], history := s.history + [m])
    case Close => s.(closed := true)
    case DRecv => s.(routed := s.routed[1..], disp := Pending(s.routed[0], 0))
    case DStop => s.(disp := Stopped)
    case DLock => s.(lock := ByDispatcher, disp := Looking(s.disp.m, s.disp.tries))
    case DLookup => DispatcherLookup(s)
    case DInsert => s.(wmap := s.wmap[s.disp.m.key := s.disp.w],
                       disp := Sending(s.disp.m, s.disp.w, s.disp.tries))
    case DSend => DispatcherSend(s)
    case DUnlock =>
      s.(lock := Free,
         disp := if s.disp.back.None? then Idle else Pending(s.disp.back.value, s.disp.tries))
    case WRecv(w) => TakeHead(s, w)
    case WDisconnected(w) => SetPhase(s, w, Leaving)
    case WFinish(w) => SetPhase(s, w, Waiting).(log := s.log + [Done(s.workers[w].phase.m)])
    case WPanic(w) => CloseReceiver(s, w, Panicked, [s.workers[w].phase.m])
    case WTimeout(w) => SetPhase(s, w, TimedOut)
    case WLock(w) => SetPhase(s, w, Rechecking).(lock := ByWorker(w))
    case WTryRecv(w) =>
      if s.workers[w].queue == [] then SetPhase(s, w, Reaping) else TakeHead(s, w).(lock := Free)
    case WReap(w) => SetPhase(s, w, Leaving).(wmap := s.wmap - {s.workers[w].key}, lock := Free)
    case WDrop(w) => CloseReceiver(s, w, Gone, [])
  }

  /** `steps` can be taken one after the other from `s`. */
  ghost predicate Runs(s: State, steps: seq<Step>)
    decreases |steps|
  {
    steps == [] || (Enabled(s, steps[0]) && Runs(Apply(s, steps[0]), steps[1..]))
  }

  ghost function After(s: State, steps: seq<Step>): State
    requires Runs(s, steps)
    decreases |steps|
  {
    if steps == [] then s else After(Apply(s, steps[0]), steps[1..])
  }
}
