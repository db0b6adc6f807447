/**
 What goes around the ring: every stage passes on what it received, in order, and nothing else.

 What a stage decides about a message is part of its step. So the steps of a run alone say which
 messages have to be where.
 */
module RingOrder {
  import opened Results
  import Dispatch
  import DispatchInvariant
  import DispatchTheorems
  import opened Ring

  // ---- What the steps say ----

  /** What the parser made of what it took, in order. */
  function ParserMade(steps: seq<Step>): seq<Msg> {
    if steps == [] then []
    else
      var last := steps[|steps| - 1];
      ParserMade(steps[..|steps| - 1]) + (if last.ParseRecv? && last.parsed.Some? then [last.parsed.value] else [])
  }

  /** The validator's verdicts, in order. */
  function Verdicts(steps: seq<Step>): seq<bool> {
    if steps == [] then []
    else
      var last := steps[|steps| - 1];
      Verdicts(steps[..|steps| - 1]) + (if last.ValidateRecv? then [last.ok] else [])
  }

  /** The route stage's decisions, in order. */
  function Decisions(steps: seq<Step>): seq<Route> {
    if steps == [] then []
    else
      var last := steps[|steps| - 1];
      Decisions(steps[..|steps| - 1]) + (if last.RouteRecv? then [last.route] else [])
  }

  /** What was sent into the first channel, from outside and by workers, in order. */
  function Entered(steps: seq<Step>): seq<nat> {
    if steps == [] then []
    else
      var last := steps[|steps| - 1];
      Entered(steps[..|steps| - 1]) + (if last.Inject? || last.Emit? then [last.raw] else [])
  }

  /** How many messages the parser, and the egress drain, have taken. */
  function ParserTook(steps: seq<Step>): nat {
    if steps == [] then 0
    else ParserTook(steps[..|steps| - 1]) + if steps[|steps| - 1].ParseRecv? then 1 else 0
  }

  function EgressTook(steps: seq<Step>): nat {
    if steps == [] then 0
    else EgressTook(steps[..|steps| - 1]) + if steps[|steps| - 1].EgressRecv? then 1 else 0
  }

  predicate Panicked(steps: seq<Step>) {
    exists i :: 0 <= i < |steps| && steps[i].ParsePanic?
  }

  /** The messages with a good verdict, as far as there are verdicts. */
  function Kept(ms: seq<Msg>, oks: seq<bool>): seq<Msg>
    requires |oks| <= |ms|
  {
    if oks == [] then []
    else
      var n := |oks| - 1;
      Kept(ms, oks[..n]) + (if oks[n] then [ms[n]] else [])
  }

  /** The messages decided as `r`, as far as there are decisions. */
  function Chosen(ms: seq<Msg>, routes: seq<Route>, r: Route): seq<Msg>
    requires |routes| <= |ms|
  {
    if routes == [] then []
    else
      var n := |routes| - 1;
      Chosen(ms, routes[..n], r) + (if routes[n] == r then [ms[n]] else [])
  }

  function Opt<T>(x: Option<T>): seq<T> {
    if x.Some? then [x.value] else []
  }

  function LocalHand(h: Hand): seq<Msg> {
    if h.Local? then [h.m] else []
  }

  function RemoteHand(h: Hand): seq<Msg> {
    if h.Remote? then [h.m] else []
  }

  // ---- Where the messages are ----

  /** What entered and was not taken yet is in the first channel, unless the parser has panicked. */
  ghost predicate IngressOrder(s: State, done: seq<Step>) {
    && (s.down <==> Panicked(done))
    && (!s.down ==> ParserTook(done) <= |Entered(done)| && Entered(done)[ParserTook(done)..] == s.ingress)
  }

  /** What the parser made and has no verdict yet is in the second channel, then in its hand. */
  ghost predicate ParsedOrder(s: State, done: seq<Step>) {
    && |Verdicts(done)| <= |ParserMade(done)|
    && ParserMade(done)[|Verdicts(done)|..] == s.parsed + Opt(s.parsing)
  }

  /** The valid messages of a run so far. */
  function ValidOnes(done: seq<Step>): seq<Msg>
    requires |Verdicts(done)| <= |ParserMade(done)|
  {
    Kept(ParserMade(done), Verdicts(done))
  }

  /** What is valid and not decided yet is in the third channel, then in the validator's hand. */
  ghost predicate ValidOrder(s: State, done: seq<Step>) {
    && |Verdicts(done)| <= |ParserMade(done)| && |Decisions(done)| <= |ValidOnes(done)|
    && ValidOnes(done)[|Decisions(done)|..] == s.validated + Opt(s.validating)
  }

  /** What stays was given to the dispatcher's channel, or is in the route stage's hand. */
  ghost predicate RoutedOrder(s: State, done: seq<Step>) {
    && |Verdicts(done)| <= |ParserMade(done)| && |Decisions(done)| <= |ValidOnes(done)|
    && Chosen(ValidOnes(done), Decisions(done), Here) == s.d.history + LocalHand(s.routing)
  }

  /** What leaves and was not drained yet is in the egress channel, then in the route stage's hand. */
  ghost predicate EgressOrder(s: State, done: seq<Step>) {
    && |Verdicts(done)| <= |ParserMade(done)| && |Decisions(done)| <= |ValidOnes(done)|
    && var leaving := Chosen(ValidOnes(done), Decisions(done), Elsewhere);
    EgressTook(done) <= |leaving| && leaving[EgressTook(done)..] == s.egress + RemoteHand(s.routing)
  }

  ghost predicate Ordered(s: State, done: seq<Step>) {
    && IngressOrder(s, done) && ParsedOrder(s, done) && ValidOrder(s, done)
    && RoutedOrder(s, done) && EgressOrder(s, done)
  }

  // ---- One more step ----

  lemma OneMore(done: seq<Step>, st: Step)
    ensures ParserMade(done + [st])
      == if st.ParseRecv? && st.parsed.Some? then ParserMade(done) + [st.parsed.value] else ParserMade(done)
    ensures Verdicts(done + [st]) == if st.ValidateRecv? then Verdicts(done) + [st.ok] else Verdicts(done)
    ensures Decisions(done + [st]) == if st.RouteRecv? then Decisions(done) + [st.route] else Decisions(done)
    ensures Entered(done + [st]) == if st.Inject? || st.Emit? then Entered(done) + [st.raw] else Entered(done)
    ensures ParserTook(done + [st]) == ParserTook(done) + (if st.ParseRecv? then 1 else 0)
    ensures EgressTook(done + [st]) == EgressTook(done) + (if st.EgressRecv? then 1 else 0)
    ensures Panicked(done + [st]) <==> Panicked(done) || st.ParsePanic?
  {
    var more := done + [st];
    assert more[..|more| - 1] == done;
    if Panicked(done) {
      var i :| 0 <= i < |done| && done[i].ParsePanic?;
      assert more[i].ParsePanic?;
    }
    assert more[|done|] == st;
  }

  lemma {:induction false} KeptLonger(ms: seq<Msg>, more: seq<Msg>, oks: seq<bool>)
    requires |oks| <= |ms|
    ensures Kept(ms + more, oks) == Kept(ms, oks)
    decreases |oks|
  {
    if oks != [] {
      KeptLonger(ms, more, oks[..|oks| - 1]);
    }
  }

  lemma KeptOneMore(ms: seq<Msg>, oks: seq<bool>, ok: bool)
    requires |oks| < |ms|
    ensures Kept(ms, oks + [ok]) == if ok then Kept(ms, oks) + [ms[|oks|]] else Kept(ms, oks)
  {
    assert (oks + [ok])[..|oks|] == oks;
  }

  lemma {:induction false} ChosenLonger(ms: seq<Msg>, more: seq<Msg>, routes: seq<Route>, r: Route)
    requires |routes| <= |ms|
    ensures Chosen(ms + more, routes, r) == Chosen(ms, routes, r)
    decreases |routes|
  {
    if routes != [] {
      ChosenLonger(ms, more, routes[..|routes| - 1], r);
    }
  }

  lemma ChosenOneMore(ms: seq<Msg>, routes: seq<Route>, route: Route, r: Route)
    requires |routes| < |ms|
    ensures Chosen(ms, routes + [route], r)
      == if route == r then Chosen(ms, routes, r) + [ms[|routes|]] else Chosen(ms, routes, r)
  {
    assert (routes + [route])[..|routes|] == routes;
  }

  /** Behind a position, a list grows by what is put at its end. */
  lemma TailGrows<T>(s: seq<T>, n: nat, more: seq<T>)
    requires n <= |s|
    ensures (s + more)[n..] == s[n..] + more
  {
  }

  /** What comes first is taken first. */
  lemma TailTaken<T>(s: seq<T>, n: nat, first: T, rest: seq<T>)
    requires n <= |s| && s[n..] == [first] + rest
    ensures n < |s| && s[n] == first && s[n + 1..] == rest
  {
    assert s[n + 1..] == s[n..][1..];
  }

  lemma Uncons<T>(s: seq<T>)
    requires s != []
    ensures s == [s[0]] + s[1..]
  {
  }

  // ---- What a step does to each place ----

  lemma ParsedEffect(s: State, st: Step)
    requires Enabled(s, st)
    ensures var was, now := s.parsed + Opt(s.parsing), Apply(s, st).parsed + Opt(Apply(s, st).parsing);
      && (st.ParseRecv? && st.parsed.Some? ==> now == was + [st.parsed.value])
      && (st.ValidateRecv? ==> s.parsed != [] && was == [s.parsed[0]] + now)
      && (!(st.ParseRecv? && st.parsed.Some?) && !st.ValidateRecv? ==> now == was)
  {
    hide Dispatch.Apply, Dispatch.Enabled, Starts, Answers;
  }

  lemma ValidEffect(s: State, st: Step)
    requires Enabled(s, st)
    ensures var was, now := s.validated + Opt(s.validating), Apply(s, st).validated + Opt(Apply(s, st).validating);
      && (st.ValidateRecv? ==> s.parsed != [] && now == if st.ok then was + [s.parsed[0]] else was)
      && (st.RouteRecv? ==> s.validated != [] && was == [s.validated[0]] + now)
      && (!st.ValidateRecv? && !st.RouteRecv? ==> now == was)
  {
    hide Dispatch.Apply, Dispatch.Enabled, Starts, Answers;
  }

  lemma HistoryGrows(s: State, st: Step)
    requires Enabled(s, st)
    ensures Apply(s, st).d.history == s.d.history + if st.RouteSend? && s.routing.Local? then [s.routing.m] else []
  {
    match st
    case Fan(f, _) => DispatchTheorems.StepArrives(s.d, f);
    case RouteSend =>
      if s.routing.Local? {
        DispatchTheorems.StepArrives(s.d, Dispatch.Arrive(s.routing.m));
      }
    case _ =>
  }

  lemma RoutedEffect(s: State, st: Step)
    requires Enabled(s, st)
    ensures var s' := Apply(s, st);
      var was, now := s.d.history + LocalHand(s.routing), s'.d.history + LocalHand(s'.routing);
      && (st.RouteRecv? ==> s.validated != [] && now == if st.route == Here then was + [s.validated[0]] else was)
      && (!st.RouteRecv? ==> now == was)
  {
    HistoryGrows(s, st);
    hide Dispatch.Apply, Dispatch.Enabled, Starts, Answers;
  }

  lemma EgressEffect(s: State, st: Step)
    requires Enabled(s, st)
    ensures var was, now := s.egress + RemoteHand(s.routing), Apply(s, st).egress + RemoteHand(Apply(s, st).routing);
      && (st.RouteRecv? ==> s.validated != [] && now == if st.route == Elsewhere then was + [s.validated[0]] else was)
      && (st.EgressRecv? ==> s.egress != [] && was == [s.egress[0]] + now)
      && (!st.RouteRecv? && !st.EgressRecv? ==> now == was)
  {
    hide Dispatch.Apply, Dispatch.Enabled, Starts, Answers;
  }

  // ---- Each order is kept ----

  lemma IngressKept(s: State, done: seq<Step>, st: Step)
    requires IngressOrder(s, done) && Enabled(s, st)
    ensures IngressOrder(Apply(s, st), done + [st])
  {
    hide Entered, ParserTook, Panicked, Dispatch.Apply, Dispatch.Enabled, Starts;
    OneMore(done, st);
    if !s.down {
      if st.Inject? || st.Emit? {
        TailGrows(Entered(done), ParserTook(done), [st.raw]);
      } else if st.ParseRecv? {
        Uncons(s.ingress);
        TailTaken(Entered(done), ParserTook(done), s.ingress[0], s.ingress[1..]);
      }
    }
  }

  lemma ParsedKept(s: State, done: seq<Step>, st: Step)
    requires ParsedOrder(s, done) && Enabled(s, st)
    ensures ParsedOrder(Apply(s, st), done + [st])
  {
    hide ParserMade, Verdicts, Apply, Enabled, Opt;
    OneMore(done, st);
    ParsedEffect(s, st);
    var made, n, s' := ParserMade(done), |Verdicts(done)|, Apply(s, st);
    if st.ParseRecv? && st.parsed.Some? {
      TailGrows(made, n, [st.parsed.value]);
    } else if st.ValidateRecv? {
      TailTaken(made, n, s.parsed[0], s'.parsed + Opt(s'.parsing));
    }
  }

  /** The message that gets its verdict is the first one without. */
  lemma NextVerdict(s: State, done: seq<Step>, st: Step)
    requires ParsedOrder(s, done) && Enabled(s, st) && st.ValidateRecv?
    ensures s.parsed != [] && |Verdicts(done)| < |ParserMade(done)| && ParserMade(done)[|Verdicts(done)|] == s.parsed[0]
  {
    hide ParserMade, Verdicts, Apply, Enabled, Opt;
    ParsedEffect(s, st);
    var s' := Apply(s, st);
    TailTaken(ParserMade(done), |Verdicts(done)|, s.parsed[0], s'.parsed + Opt(s'.parsing));
  }

  /** The valid messages only grow, by what the validator has just accepted. */
  lemma ValidOnesGrow(s: State, done: seq<Step>, st: Step)
    requires ParsedOrder(s, done) && Enabled(s, st)
    ensures |Verdicts(done + [st])| <= |ParserMade(done + [st])| && (st.ValidateRecv? ==> s.parsed != [])
    ensures ValidOnes(done + [st])
      == if st.ValidateRecv? && st.ok then ValidOnes(done) + [s.parsed[0]] else ValidOnes(done)
  {
    hide ParserMade, Verdicts, Kept, Apply, Enabled, Opt;
    OneMore(done, st);
    var made, oks := ParserMade(done), Verdicts(done);
    if st.ValidateRecv? {
      NextVerdict(s, done, st);
      KeptOneMore(made, oks, st.ok);
    } else if st.ParseRecv? && st.parsed.Some? {
      KeptLonger(made, [st.parsed.value], oks);
    }
  }

  lemma ValidKept(s: State, done: seq<Step>, st: Step)
    requires ParsedOrder(s, done) && ValidOrder(s, done) && Enabled(s, st)
    ensures ValidOrder(Apply(s, st), done + [st])
  {
    hide ParserMade, Verdicts, Decisions, ValidOnes, ParsedOrder, Apply, Enabled, Opt;
    OneMore(done, st);
    ValidOnesGrow(s, done, st);
    ValidEffect(s, st);
    var valid, n, s' := ValidOnes(done), |Decisions(done)|, Apply(s, st);
    if st.ValidateRecv? && st.ok {
      TailGrows(valid, n, [s.parsed[0]]);
    } else if st.RouteRecv? {
      TailTaken(valid, n, s.validated[0], s'.validated + Opt(s'.validating));
    }
  }

  /** The message that is decided is the first one that was not. */
  lemma NextDecision(s: State, done: seq<Step>, st: Step)
    requires ValidOrder(s, done) && Enabled(s, st) && st.RouteRecv?
    ensures s.validated != [] && |Decisions(done)| < |ValidOnes(done)|
    ensures ValidOnes(done)[|Decisions(done)|] == s.validated[0]
  {
    hide ParserMade, Verdicts, Decisions, ValidOnes, Apply, Enabled, Opt;
    ValidEffect(s, st);
    var s' := Apply(s, st);
    TailTaken(ValidOnes(done), |Decisions(done)|, s.validated[0], s'.validated + Opt(s'.validating));
  }

  /** The decided messages only grow, by what the route stage has just decided. */
  lemma ChosenGrow(s: State, done: seq<Step>, st: Step, r: Route)
    requires ParsedOrder(s, done) && ValidOrder(s, done) && Enabled(s, st)
    ensures |Verdicts(done + [st])| <= |ParserMade(done + [st])| && |Decisions(done + [st])| <= |ValidOnes(done + [st])|
    ensures st.RouteRecv? ==> s.validated != []
    ensures var sofar := Chosen(ValidOnes(done), Decisions(done), r);
      Chosen(ValidOnes(done + [st]), Decisions(done + [st]), r)
        == if st.RouteRecv? && st.route == r then sofar + [s.validated[0]] else sofar
  {
    hide ParserMade, Verdicts, Decisions, ValidOnes, Chosen, ParsedOrder, Apply, Enabled, Opt;
    OneMore(done, st);
    ValidOnesGrow(s, done, st);
    ValidKept(s, done, st);
    var valid, decided := ValidOnes(done), Decisions(done);
    if st.RouteRecv? {
      NextDecision(s, done, st);
      ChosenOneMore(valid, decided, st.route, r);
    } else if st.ValidateRecv? && st.ok {
      ChosenLonger(valid, [s.parsed[0]], decided, r);
    }
  }

  lemma RoutedKept(s: State, done: seq<Step>, st: Step)
    requires ParsedOrder(s, done) && ValidOrder(s, done) && RoutedOrder(s, done) && Enabled(s, st)
    ensures RoutedOrder(Apply(s, st), done + [st])
  {
    hide ParserMade, Verdicts, Decisions, ValidOnes, Chosen, ParsedOrder, ValidOrder, Apply, Enabled, LocalHand;
    ChosenGrow(s, done, st, Here);
    RoutedEffect(s, st);
  }

  lemma EgressKept(s: State, done: seq<Step>, st: Step)
    requires ParsedOrder(s, done) && ValidOrder(s, done) && EgressOrder(s, done) && Enabled(s, st)
    ensures EgressOrder(Apply(s, st), done + [st])
  {
    hide ParserMade, Verdicts, Decisions, ValidOnes, Chosen, EgressTook, ParsedOrder, ValidOrder, Apply, Enabled,
      RemoteHand;
    OneMore(done, st);
    ChosenGrow(s, done, st, Elsewhere);
    EgressEffect(s, st);
    var leaving, n, s' := Chosen(ValidOnes(done), Decisions(done), Elsewhere), EgressTook(done), Apply(s, st);
    if st.RouteRecv? && st.route == Elsewhere {
      TailGrows(leaving, n, [s.validated[0]]);
    } else if st.EgressRecv? {
      TailTaken(leaving, n, s.egress[0], s'.egress + RemoteHand(s'.routing));
    }
  }

  lemma StepOrdered(s: State, done: seq<Step>, st: Step)
    requires Ordered(s, done) && Enabled(s, st)
    ensures Ordered(Apply(s, st), done + [st])
  {
    hide IngressOrder, ParsedOrder, ValidOrder, RoutedOrder, EgressOrder, Apply, Enabled;
    IngressKept(s, done, st);
    ParsedKept(s, done, st);
    ValidKept(s, done, st);
    RoutedKept(s, done, st);
    EgressKept(s, done, st);
  }

  lemma {:induction false} RunOrdered(s: State, done: seq<Step>, steps: seq<Step>)
    requires Ordered(s, done) && Runs(s, steps)
    ensures Ordered(After(s, steps), done + steps)
    decreases |steps|
  {
    hide Ordered, Apply, Enabled;
    if steps == [] {
      assert done + steps == done;
    } else {
      StepOrdered(s, done, steps[0]);
      RunOrdered(Apply(s, steps[0]), done + [steps[0]], steps[1..]);
      assert done + [steps[0]] + steps[1..] == done + steps;
    }
  }

  // ---- Main results ----

  /**
   Every stage passes on what it received, in order, and nothing else. In every run: what entered
   and was not taken is in the first channel; what the parser made and has no verdict is in the
   second channel and its hand; what is valid and not decided is in the third channel and the
   validator's hand; what stays has been given to the dispatcher or is in the route stage's hand;
   what leaves and was not drained is in the egress channel and that hand.
   */
  lemma StagesKeepOrder(steps: seq<Step>)
    requires Runs(INITIAL, steps)
    ensures Ordered(After(INITIAL, steps), steps)
  {
    assert [] + steps == steps;
    RunOrdered(INITIAL, [], steps);
  }

  /**
   From the parser to the handler: for every thread, the messages that are valid and stay are, in
   order, those settled by handlers, in progress, queued at the worker, in the dispatcher's hand, in
   its channel, and in the route stage's hand. None is lost or doubled on the way.
   */
  lemma FromParserToHandler(steps: seq<Step>, k: string)
    requires Runs(INITIAL, steps)
    ensures var s := After(INITIAL, steps);
      && |Verdicts(steps)| <= |ParserMade(steps)| && |Decisions(steps)| <= |ValidOnes(steps)|
      && DispatchInvariant.OfKey(Chosen(ValidOnes(steps), Decisions(steps), Here), k)
        == DispatchInvariant.OfKey(DispatchInvariant.Messages(s.d.log), k)
         + (DispatchTheorems.Current(s.d, k) + DispatchTheorems.Queued(s.d, k))
         + (DispatchInvariant.OfKey(DispatchInvariant.InHand(s.d.disp), k) + DispatchInvariant.OfKey(s.d.routed, k))
         + DispatchInvariant.OfKey(LocalHand(s.routing), k)
  {
    hide Runs, After, ParserMade, Verdicts, Decisions, ValidOnes, Chosen;
    StagesKeepOrder(steps);
    InitialInv();
    RunKeepsInv(INITIAL, steps);
    var s := After(INITIAL, steps);
    DispatchInvariant.OfKeyConcat(s.d.history, LocalHand(s.routing), k);
    assert DispatchInvariant.Account(s.d, k) == DispatchInvariant.OfKey(s.d.history, k);
    assert DispatchInvariant.Held(s.d, k) == DispatchTheorems.Current(s.d, k) + DispatchTheorems.Queued(s.d, k);
  }

  /**
   Where nothing but an arrival can happen any more, everything that entered was taken, everything
   the parser made was judged, everything valid was decided, everything that leaves has left, and
   what stays was settled by handlers, in order per thread.
   */
  lemma AtRestAllIsHandled(steps: seq<Step>, k: string)
    requires Runs(INITIAL, steps)
    requires forall st: Step {:trigger Enabled(After(INITIAL, steps), st)} ::
      !st.Inject? ==> !Enabled(After(INITIAL, steps), st)
    ensures |Verdicts(steps)| == |ParserMade(steps)| && |Decisions(steps)| == |ValidOnes(steps)|
    ensures !Panicked(steps) ==> ParserTook(steps) == |Entered(steps)|
    ensures EgressTook(steps) == |Chosen(ValidOnes(steps), Decisions(steps), Elsewhere)|
    ensures DispatchInvariant.OfKey(DispatchInvariant.Messages(After(INITIAL, steps).d.log), k)
      == DispatchInvariant.OfKey(Chosen(ValidOnes(steps), Decisions(steps), Here), k)
  {
    hide Runs, After, ParserMade, Verdicts, Decisions, ValidOnes, Chosen, Entered, ParserTook, EgressTook,
      Panicked, Enabled;
    var s := After(INITIAL, steps);
    StagesKeepOrder(steps);
    InitialInv();
    RunKeepsInv(INITIAL, steps);
    RestMeansEmpty(s);
    hide Inv;
    assert !Loaded(s);
    assert s.d.history + LocalHand(s.routing) == s.d.history;
  }

  // ---- What workers send back ----

  /** The answers worker `w` was given to send, call after call. */
  ghost function Promised(s: State, steps: seq<Step>, w: nat): seq<nat>
    requires Runs(s, steps)
    decreases |steps|
  {
    if steps == [] then []
    else
      var st := steps[0];
      (if st.Fan? && Starts(s.d, st.st) == Some(w) then st.answers else []) + Promised(Apply(s, st), steps[1..], w)
  }

  /** What worker `w` has sent into the first channel. */
  function SentBy(steps: seq<Step>, w: nat): seq<nat> {
    if steps == [] then []
    else (if steps[0].Emit? && steps[0].w == w then [steps[0].raw] else []) + SentBy(steps[1..], w)
  }

  ghost predicate Unharmed(steps: seq<Step>, w: nat) {
    forall i :: 0 <= i < |steps| ==> steps[i].Fan? ==> steps[i].st != Dispatch.WPanic(w)
  }

  /** A worker that is put inside a handler call was in none, and owed nothing. */
  lemma StartsFree(s: State, st: Step, w: nat)
    requires Inv(s) && Enabled(s, st) && st.Fan? && Starts(s.d, st.st) == Some(w)
    ensures Answers(s.owed, w) == []
  {
    assert !s.d.workers[w].phase.Processing?;
  }

  lemma StepOwes(s: State, st: Step, w: nat)
    requires Inv(s) && Enabled(s, st) && (st.Fan? ==> st.st != Dispatch.WPanic(w))
    ensures Answers(s.owed, w) + (if st.Fan? && Starts(s.d, st.st) == Some(w) then st.answers else [])
      == (if st.Emit? && st.w == w then [st.raw] else []) + Answers(Apply(s, st).owed, w)
  {
    hide Inv, Dispatch.Apply, Dispatch.Enabled, Starts;
    if st.Fan? && Starts(s.d, st.st) == Some(w) {
      StartsFree(s, st, w);
    }
  }

  lemma Exchange<T>(owed: seq<T>, given: seq<T>, promised: seq<T>,
                    sent: seq<T>, owed': seq<T>, later: seq<T>, left: seq<T>)
    requires owed + given == sent + owed' && owed' + promised == later + left
    ensures owed + (given + promised) == (sent + later) + left
  {
    assert owed + (given + promised) == (owed + given) + promised;
    assert (sent + owed') + promised == sent + (owed' + promised);
  }

  /** A worker sends exactly what its handlers answered, in order, unless a handler panics. */
  lemma {:induction false} WorkersSendTheirAnswers(s: State, steps: seq<Step>, w: nat)
    requires Inv(s) && Runs(s, steps) && Unharmed(steps, w)
    ensures Answers(s.owed, w) + Promised(s, steps, w) == SentBy(steps, w) + Answers(After(s, steps).owed, w)
    decreases |steps|
  {
    if steps != [] {
      var st := steps[0];
      StepOwes(s, st, w);
      InvKept(s, st);
      assert forall i :: 0 <= i < |steps[1..]| ==> steps[1..][i] == steps[i + 1];
      hide Inv, Apply, Enabled, Answers, Starts, Unharmed;
      WorkersSendTheirAnswers(Apply(s, st), steps[1..], w);
      var given := if st.Fan? && Starts(s.d, st.st) == Some(w) then st.answers else [];
      var sent := if st.Emit? && st.w == w then [st.raw] else [];
      var s1 := Apply(s, st);
      Exchange(Answers(s.owed, w), given, Promised(s1, steps[1..], w), sent, Answers(s1.owed, w),
               SentBy(steps[1..], w), Answers(After(s1, steps[1..]).owed, w));
    }
  }
}
