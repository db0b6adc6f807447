/** What every step of the dispatch fan-out keeps, panics included. */
module DispatchInvariant {
  import opened Results
  import opened Dispatch

  // ---- Who holds what ----

  predicate LockHeldByDispatcher(d: Dispatcher) {
    d.Looking? || d.Spawned? || d.Sending? || d.Unlocking?
  }

  predicate LockHeldByWorker(p: Phase) {
    p.Rechecking? || p.Reaping?
  }

  ghost predicate LockOk(s: State) {
    && (LockHeldByDispatcher(s.disp) <==> s.lock == ByDispatcher)
    && (s.lock.ByWorker? ==> s.lock.w < |s.workers|)
    && forall w :: 0 <= w < |s.workers| ==> (LockHeldByWorker(s.workers[w].phase) <==> s.lock == ByWorker(w))
  }

  /** A map entry names a worker of that key which did not leave in good order. */
  ghost predicate MapOk(s: State) {
    forall k :: k in s.wmap ==>
      && s.wmap[k] < |s.workers|
      && s.workers[s.wmap[k]].key == k
      && !s.workers[s.wmap[k]].phase.Leaving?
      && !s.workers[s.wmap[k]].phase.Gone?
  }

  /** Worker `w` is the one its key maps to, or is about to be. */
  predicate Registered(s: State, w: nat)
    requires w < |s.workers|
  {
    || (s.workers[w].key in s.wmap && s.wmap[s.workers[w].key] == w)
    || (s.disp.Spawned? && s.disp.w == w)
  }

  ghost predicate AliveIsRegistered(s: State) {
    forall w :: 0 <= w < |s.workers| && Alive(s.workers[w].phase) ==> Registered(s, w)
  }

  predicate Fresh(wk: Worker) {
    wk.queue == [] && (wk.phase.Waiting? || wk.phase.TimedOut?)
  }

  predicate WorkerOk(wk: Worker) {
    && (!Alive(wk.phase) || wk.phase.Reaping? ==> wk.queue == [])
    && (forall i :: 0 <= i < |wk.queue| ==> wk.queue[i].key == wk.key)
    && (wk.phase.Processing? ==> wk.phase.m.key == wk.key)
  }

  ghost predicate WorkersOk(s: State) {
    forall w :: 0 <= w < |s.workers| ==> WorkerOk(s.workers[w])
  }

  /** The dispatcher's hand: a second attempt always meets a worker of its own making. */
  predicate DispatcherOk(s: State) {
    match s.disp
    case Idle => true
    case Stopped => s.closed && s.routed == []
    case Pending(m, t) => t <= 1 && (t == 1 ==> m.key !in s.wmap)
    case Looking(m, t) => t <= 1 && (t == 1 ==> m.key !in s.wmap)
    case Spawned(m, w, t) =>
      && t <= 1 && m.key !in s.wmap && w < |s.workers|
      && s.workers[w].key == m.key && Fresh(s.workers[w])
    case Sending(m, w, t) =>
      && t <= 1 && m.key in s.wmap && s.wmap[m.key] == w && w < |s.workers|
      && (t == 1 ==> Fresh(s.workers[w]))
    case Unlocking(back, t) => t <= 1 && (back.Some? ==> t == 1 && back.value.key !in s.wmap)
  }

  ghost predicate Shape(s: State) {
    LockOk(s) && MapOk(s) && AliveIsRegistered(s) && WorkersOk(s) && DispatcherOk(s)
  }

  // ---- Messages of one key ----

  function OfKey(ms: seq<Msg>, k: string): (r: seq<Msg>) {
    if ms == [] then []
    else OfKey(ms[..|ms| - 1], k) + (if ms[|ms| - 1].key == k then [ms[|ms| - 1]] else [])
  }

  lemma {:induction false} OfKeyConcat(a: seq<Msg>, b: seq<Msg>, k: string)
    ensures OfKey(a + b, k) == OfKey(a, k) + OfKey(b, k)
    decreases |b|
  {
    if b == [] {
      assert a + b == a;
    } else {
      var b' := b[..|b| - 1];
      assert (a + b)[..|a + b| - 1] == a + b';
      OfKeyConcat(a, b', k);
    }
  }

  lemma {:induction false} OfKeyUniform(ms: seq<Msg>, key: string, k: string)
    requires forall i :: 0 <= i < |ms| ==> ms[i].key == key
    ensures OfKey(ms, k) == if k == key then ms else []
    decreases |ms|
  {
    if ms != [] {
      OfKeyUniform(ms[..|ms| - 1], key, k);
      assert ms == ms[..|ms| - 1] + [ms[|ms| - 1]];
    }
  }

  function Messages(fs: seq<Fate>): (ms: seq<Msg>)
    ensures |ms| == |fs| && forall i :: 0 <= i < |fs| ==> ms[i] == fs[i].m
  {
    seq(|fs|, i requires 0 <= i < |fs| => fs[i].m)
  }

  /** What a worker has of its key: the message being processed, then its queue. */
  function Load(wk: Worker): seq<Msg> {
    (if wk.phase.Processing? then [wk.phase.m] else []) + wk.queue
  }

  /** The messages of key `k` that sit with a worker. */
  function Held(s: State, k: string): seq<Msg> {
    if k in s.wmap && s.wmap[k] < |s.workers| then Load(s.workers[s.wmap[k]]) else []
  }

  /** The message in the dispatcher's hand. */
  function InHand(d: Dispatcher): seq<Msg> {
    if d.Pending? || d.Looking? || d.Spawned? || d.Sending? then [d.m]
    else if d.Unlocking? && d.back.Some? then [d.back.value]
    else []
  }

  /** Messages of key `k` that reached a worker: settled ones, then those still held. */
  function Delivered(s: State, k: string): seq<Msg> {
    OfKey(Messages(s.log), k) + Held(s, k)
  }

  /** Messages of key `k` that did not: the one in the dispatcher's hand, then the channel. */
  function Undelivered(s: State, k: string): seq<Msg> {
    OfKey(InHand(s.disp), k) + OfKey(s.routed, k)
  }

  /** Together they are the arrivals of key `k`, in order. */
  function Account(s: State, k: string): seq<Msg> {
    Delivered(s, k) + Undelivered(s, k)
  }

  ghost predicate Conserved(s: State) {
    forall k {:trigger Account(s, k)} :: Account(s, k) == OfKey(s.history, k)
  }

  ghost predicate Inv(s: State) {
    Shape(s) && Conserved(s)
  }

  // ---- Steps keep the shape ----

  lemma LookupKeepsShape(s: State)
    requires Shape(s) && s.disp.Looking?
    ensures Shape(Apply(s, DLookup))
  {
    var s' := Apply(s, DLookup);
    forall w | 0 <= w < |s'.workers| && Alive(s'.workers[w].phase)
      ensures Registered(s', w)
    {
      assert w < |s.workers| ==> Registered(s, w);
    }
  }

  lemma InsertKeepsShape(s: State)
    requires Shape(s) && s.disp.Spawned?
    ensures Shape(Apply(s, DInsert))
  {
    var s' := Apply(s, DInsert);
    forall w | 0 <= w < |s'.workers| && Alive(s'.workers[w].phase)
      ensures Registered(s', w)
    {
      assert Registered(s, w);
    }
  }

  lemma SendKeepsShape(s: State)
    requires Shape(s) && Enabled(s, DSend)
    ensures Shape(Apply(s, DSend))
  {
    var s' := Apply(s, DSend);
    forall w | 0 <= w < |s'.workers| && Alive(s'.workers[w].phase)
      ensures Registered(s', w)
    {
      assert Registered(s, w);
    }
  }

  lemma DispatcherKeepsShape(s: State, st: Step)
    requires Shape(s) && Enabled(s, st)
    requires st.Arrive? || st.Close? || st.DRecv? || st.DStop? || st.DLock? || st.DUnlock?
    ensures Shape(Apply(s, st))
  {
    var s' := Apply(s, st);
    assert s'.workers == s.workers && s'.wmap == s.wmap;
    forall w | 0 <= w < |s'.workers| && Alive(s'.workers[w].phase)
      ensures Registered(s', w)
    {
      assert Registered(s, w);
    }
  }

  /** A worker changes by itself, away from the lock and the map. */
  lemma ReplaceKeepsShape(s: State, w: nat, wk: Worker, log: seq<Fate>)
    requires Shape(s) && w < |s.workers|
    requires wk.key == s.workers[w].key && WorkerOk(wk)
    requires !LockHeldByWorker(wk.phase) && !LockHeldByWorker(s.workers[w].phase)
    requires Alive(wk.phase) ==> Alive(s.workers[w].phase)
    requires wk.phase.Leaving? || wk.phase.Gone? ==> s.workers[w].phase.Leaving? || !HasSender(s, w)
    requires Fresh(s.workers[w]) && HasSender(s, w) ==> Fresh(wk)
    ensures Shape(s.(workers := s.workers[w := wk], log := log))
  {
    var s' := s.(workers := s.workers[w := wk], log := log);
    forall v | 0 <= v < |s'.workers| && Alive(s'.workers[v].phase)
      ensures Registered(s', v)
    {
      assert Registered(s, v);
    }
  }

  /** Steps in which worker `w` neither takes nor drops the lock, nor touches the map. */
  lemma WorkerKeepsShape(s: State, st: Step, w: nat)
    requires Shape(s) && Enabled(s, st)
    requires st in {WRecv(w), WDisconnected(w), WFinish(w), WPanic(w), WTimeout(w), WDrop(w)}
    ensures Shape(Apply(s, st))
  {
    var s' := Apply(s, st);
    assert WorkerOk(s.workers[w]);
    assert WorkerOk(s'.workers[w]);
    ReplaceKeepsShape(s, w, s'.workers[w], s'.log);
    assert s' == s.(workers := s.workers[w := s'.workers[w]], log := s'.log);
  }

  lemma LockKeepsShape(s: State, w: nat)
    requires Shape(s) && Enabled(s, WLock(w))
    ensures Shape(Apply(s, WLock(w)))
  {
    var s' := Apply(s, WLock(w));
    assert WorkerOk(s.workers[w]);
    forall v | 0 <= v < |s'.workers| && Alive(s'.workers[v].phase)
      ensures Registered(s', v)
    {
      assert Registered(s, v);
    }
  }

  lemma TryRecvKeepsShape(s: State, w: nat)
    requires Shape(s) && Enabled(s, WTryRecv(w))
    ensures Shape(Apply(s, WTryRecv(w)))
  {
    var s' := Apply(s, WTryRecv(w));
    TryRecvWorker(s, w);
    hide WorkerOk;
    forall v | 0 <= v < |s'.workers| && Alive(s'.workers[v].phase)
      ensures Registered(s', v)
    {
      assert Registered(s, v);
    }
  }

  lemma TryRecvWorker(s: State, w: nat)
    requires Enabled(s, WTryRecv(w)) && WorkersOk(s)
    ensures WorkerOk(Apply(s, WTryRecv(w)).workers[w])
  {
    assert WorkerOk(s.workers[w]);
  }

  /** The entry removed by key is the reaping worker's own. */
  lemma ReapRemovesOwnEntry(s: State, w: nat)
    requires Shape(s) && Enabled(s, WReap(w))
    ensures s.workers[w].key in s.wmap && s.wmap[s.workers[w].key] == w
    ensures forall k :: k in s.wmap && s.wmap[k] != w ==> k in Apply(s, WReap(w)).wmap
    ensures forall k :: k in Apply(s, WReap(w)).wmap ==> s.wmap[k] != w
  {
    assert Registered(s, w);
    assert s.lock == ByWorker(w);
  }

  lemma ReapKeepsShape(s: State, w: nat)
    requires Shape(s) && Enabled(s, WReap(w))
    ensures Shape(Apply(s, WReap(w)))
  {
    var s' := Apply(s, WReap(w));
    ReapRemovesOwnEntry(s, w);
    forall v | 0 <= v < |s'.workers| && Alive(s'.workers[v].phase)
      ensures Registered(s', v)
    {
      assert Registered(s, v);
    }
    assert WorkerOk(s.workers[w]);
  }

  lemma ShapeKept(s: State, st: Step)
    requires Shape(s) && Enabled(s, st)
    ensures Shape(Apply(s, st))
  {
    match st
    case DLookup => LookupKeepsShape(s);
    case DInsert => InsertKeepsShape(s);
    case DSend => SendKeepsShape(s);
    case WReap(w) => ReapKeepsShape(s, w);
    case WLock(w) => LockKeepsShape(s, w);
    case WTryRecv(w) => TryRecvKeepsShape(s, w);
    case WRecv(w) => WorkerKeepsShape(s, st, w);
    case WDisconnected(w) => WorkerKeepsShape(s, st, w);
    case WFinish(w) => WorkerKeepsShape(s, st, w);
    case WPanic(w) => WorkerKeepsShape(s, st, w);
    case WTimeout(w) => WorkerKeepsShape(s, st, w);
    case WDrop(w) => WorkerKeepsShape(s, st, w);
    case _ => DispatcherKeepsShape(s, st);
  }

  // ---- Steps keep the account ----

  lemma Associative<T>(a: seq<T>, b: seq<T>, c: seq<T>)
    ensures (a + b) + c == a + (b + c)
  {
  }

  lemma HandOver<T>(log: seq<T>, held: seq<T>, moved: seq<T>, hand: seq<T>, routed: seq<T>)
    ensures (log + held) + ((moved + hand) + routed) == (log + (held + moved)) + (hand + routed)
  {
  }

  lemma LogGrows(log: seq<Fate>, more: seq<Fate>, k: string)
    ensures OfKey(Messages(log + more), k) == OfKey(Messages(log), k) + OfKey(Messages(more), k)
  {
    assert Messages(log + more) == Messages(log) + Messages(more);
    OfKeyConcat(Messages(log), Messages(more), k);
  }

  lemma LoadIsUniform(wk: Worker)
    requires WorkerOk(wk)
    ensures forall i :: 0 <= i < |Load(wk)| ==> Load(wk)[i].key == wk.key
  {
  }

  /** Only key `wk.key` can see a change of worker `w`. */
  lemma HeldByOthers(s: State, w: nat, wk: Worker, k: string)
    requires MapOk(s) && w < |s.workers| && wk.key == s.workers[w].key
    ensures k in s.wmap && s.wmap[k] == w ==> k == wk.key
    ensures !(k in s.wmap && s.wmap[k] == w) ==> Held(s.(workers := s.workers[w := wk]), k) == Held(s, k)
    ensures k in s.wmap && s.wmap[k] == w ==> Held(s.(workers := s.workers[w := wk]), k) == Load(wk)
  {
  }

  /** A worker moves a prefix of its load, possibly empty, to the log. */
  lemma SettleKeepsAccount(s: State, w: nat, wk: Worker, more: seq<Fate>, k: string)
    requires MapOk(s) && w < |s.workers| && wk.key == s.workers[w].key
    requires WorkerOk(s.workers[w])
    requires Load(s.workers[w]) == Messages(more) + Load(wk)
    requires Load(s.workers[w]) != [] ==> wk.key in s.wmap && s.wmap[wk.key] == w
    ensures Account(s.(workers := s.workers[w := wk], log := s.log + more), k) == Account(s, k)
  {
    hide OfKey, Messages, Load, WorkerOk, MapOk;
    var s' := s.(workers := s.workers[w := wk], log := s.log + more);
    var held, held' := Held(s, k), Held(s', k);
    HeldByOthers(s, w, wk, k);
    assert held' == Held(s.(workers := s.workers[w := wk]), k);
    LogGrows(s.log, more, k);
    LoadIsUniform(s.workers[w]);
    assert forall i :: 0 <= i < |more| ==> Messages(more)[i] == Load(s.workers[w])[i];
    OfKeyUniform(Messages(more), wk.key, k);
    assert OfKey(Messages(more), k) + held' == held;
    Associative(OfKey(Messages(s.log), k), OfKey(Messages(more), k), held');
    assert Delivered(s', k) == Delivered(s, k);
  }

  /** Key, load and registration of a worker with something to do. */
  lemma LoadedIsMapped(s: State, w: nat)
    requires Shape(s) && w < |s.workers|
    ensures WorkerOk(s.workers[w])
    ensures Load(s.workers[w]) != [] ==> s.workers[w].key in s.wmap && s.wmap[s.workers[w].key] == w
  {
    assert WorkerOk(s.workers[w]);
    assert Alive(s.workers[w].phase) ==> Registered(s, w);
  }

  lemma AccountIgnoresLock(s: State, t: State, k: string)
    requires t.routed == s.routed && t.disp == s.disp && t.workers == s.workers && t.wmap == s.wmap && t.log == s.log
    ensures Account(t, k) == Account(s, k)
  {
  }

  lemma WorkerKeepsAccount(s: State, st: Step, w: nat, k: string)
    requires MapOk(s) && w < |s.workers| && WorkerOk(s.workers[w])
    requires Load(s.workers[w]) != [] ==> s.workers[w].key in s.wmap && s.wmap[s.workers[w].key] == w
    requires Enabled(s, st)
    requires st in {WRecv(w), WDisconnected(w), WFinish(w), WPanic(w), WTimeout(w), WLock(w), WTryRecv(w), WDrop(w)}
    ensures Account(Apply(s, st), k) == Account(s, k)
  {
    var s' := Apply(s, st);
    var wk := s.workers[w];
    var more :=
      if st.WFinish? then [Done(wk.phase.m)]
      else if st.WPanic? then Drop([wk.phase.m] + wk.queue)
      else if st.WDrop? then Drop([] + wk.queue)
      else [];
    assert s'.log == s.log + more;
    assert Load(wk) == Messages(more) + Load(s'.workers[w]);
    SettleKeepsAccount(s, w, s'.workers[w], more, k);
    AccountIgnoresLock(s.(workers := s.workers[w := s'.workers[w]], log := s.log + more), s', k);
  }

  lemma SendDelivers(s: State, k: string)
    requires MapOk(s) && DispatcherOk(s) && Enabled(s, DSend)
    requires WorkerOk(s.workers[s.disp.w])
    ensures Held(Apply(s, DSend), k)
         == Held(s, k) + if Open(s.workers[s.disp.w].phase) && k == s.disp.m.key then [s.disp.m] else []
  {
    var d := s.disp;
    var wk := s.workers[d.w];
    if Open(wk.phase) {
      var wk' := wk.(queue := wk.queue + [d.m]);
      HeldByOthers(s, d.w, wk', k);
      assert Load(wk') == Load(wk) + [d.m];
      assert Held(Apply(s, DSend), k) == Held(s.(workers := s.workers[d.w := wk']), k);
    } else {
      assert k == d.m.key ==> Held(s, k) == [];
    }
  }

  /** Equal pieces make an equal account; `moved` changes sides. */
  lemma AccountMoves(s: State, t: State, k: string, moved: seq<Msg>)
    requires t.log == s.log && t.routed == s.routed
    requires Held(t, k) == Held(s, k) + moved
    requires OfKey(InHand(s.disp), k) == moved + OfKey(InHand(t.disp), k)
    ensures Account(t, k) == Account(s, k)
  {
    HandOver(OfKey(Messages(s.log), k), Held(s, k), moved, OfKey(InHand(t.disp), k), OfKey(s.routed, k));
  }

  lemma SendKeepsAccount(s: State, k: string)
    requires MapOk(s) && DispatcherOk(s) && Enabled(s, DSend)
    requires WorkerOk(s.workers[s.disp.w])
    ensures Account(Apply(s, DSend), k) == Account(s, k)
  {
    var m := s.disp.m;
    OfKeyUniform([m], m.key, k);
    SendDelivers(s, k);
    AccountMoves(s, Apply(s, DSend), k,
      if Open(s.workers[s.disp.w].phase) && k == m.key then [m] else []);
  }

  lemma ReapKeepsAccount(s: State, w: nat, k: string)
    requires Shape(s) && Enabled(s, WReap(w))
    ensures Account(Apply(s, WReap(w)), k) == Account(s, k)
  {
    ReapRemovesOwnEntry(s, w);
    assert WorkerOk(s.workers[w]);
    assert Held(Apply(s, WReap(w)), k) == Held(s, k);
  }

  lemma DispatcherKeepsAccount(s: State, st: Step, k: string)
    requires MapOk(s) && DispatcherOk(s) && Enabled(s, st)
    requires st in {Close, DStop, DLock, DLookup, DInsert, DUnlock}
    ensures Account(Apply(s, st), k) == Account(s, k)
  {
    hide OfKey;
    var s' := Apply(s, st);
    assert Held(s', k) == Held(s, k);
    assert Undelivered(s', k) == Undelivered(s, k);
  }

  lemma ReceiveKeepsAccount(s: State, k: string)
    requires Enabled(s, DRecv)
    ensures Account(Apply(s, DRecv), k) == Account(s, k)
  {
    assert s.routed == [s.routed[0]] + s.routed[1..];
    OfKeyConcat([s.routed[0]], s.routed[1..], k);
    hide Load;
    assert Held(Apply(s, DRecv), k) == Held(s, k);
  }

  lemma ArrivalExtendsAccount(s: State, m: Msg, k: string)
    requires Enabled(s, Arrive(m))
    ensures Account(Apply(s, Arrive(m)), k) == Account(s, k) + OfKey([m], k)
  {
    OfKeyConcat(s.routed, [m], k);
    assert Held(Apply(s, Arrive(m)), k) == Held(s, k);
  }

  ghost function Subject(st: Step): Option<nat> {
    match st
    case WRecv(w) => Some(w)
    case WDisconnected(w) => Some(w)
    case WFinish(w) => Some(w)
    case WPanic(w) => Some(w)
    case WTimeout(w) => Some(w)
    case WLock(w) => Some(w)
    case WTryRecv(w) => Some(w)
    case WReap(w) => Some(w)
    case WDrop(w) => Some(w)
    case _ => None
  }

  lemma AccountKept(s: State, st: Step, k: string)
    requires Shape(s) && Enabled(s, st)
    ensures Account(Apply(s, st), k) == Account(s, k) + if st.Arrive? then OfKey([st.m], k) else []
  {
    if st.Arrive? {
      ArrivalExtendsAccount(s, st.m, k);
    } else if st.DSend? {
      assert WorkerOk(s.workers[s.disp.w]);
      SendKeepsAccount(s, k);
    } else if st.WReap? {
      ReapKeepsAccount(s, st.w, k);
    } else if Subject(st).Some? {
      var w := Subject(st).value;
      LoadedIsMapped(s, w);
      WorkerKeepsAccount(s, st, w, k);
    } else if st.DRecv? {
      ReceiveKeepsAccount(s, k);
    } else {
      DispatcherKeepsAccount(s, st, k);
    }
  }

  lemma InvKept(s: State, st: Step)
    requires Inv(s) && Enabled(s, st)
    ensures Inv(Apply(s, st))
  {
    ShapeKept(s, st);
    var s' := Apply(s, st);
    assert s'.history == if st.Arrive? then s.history + [st.m] else s.history;
    forall k
      ensures Account(s', k) == OfKey(s'.history, k)
    {
      AccountKept(s, st, k);
      if st.Arrive? {
        OfKeyConcat(s.history, [st.m], k);
      }
    }
  }

  lemma InitialInv()
    ensures Inv(INITIAL)
  {
  }
}
