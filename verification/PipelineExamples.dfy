/**
 Runs from boot, message by message, at which the pipeline does something else than its
 documentation says.
 */
module PipelineExamples {
  import opened Results
  import opened Text
  import opened Wire
  import opened Addresses
  import opened Codec
  import opened CodecTheorems
  import opened EnvelopeTheorems
  import opened Callees
  import opened Chains
  import opened Threads
  import opened Routing
  import opened Pipeline
  import opened PipelineRuns
  import opened PipelineTheorems

  // ---- The configuration ----

  function Same(s: string): string {
    s
  }

  const BOSS := Registration("b", "T", true, {"w", "h"})
  const BOSS_ACKS := Registration("b", "SpawnAck", true, {"w", "h"})
  const WORKER := Registration("w", "T", true, {})
  const HELPER := Registration("h", "T", false, {})

  /** An agent `b` with two peers, an agent `w` without peers, and a tool `h`. */
  const TABLE :=
    Registered(Registered(Registered(Registered(NO_ROUTES, Same, BOSS), Same, BOSS_ACKS), Same, WORKER), Same, HELPER)

  /** One remote node, `n`; no schemas. */
  const CONFIG := Config(TABLE, Same, map[], Some({"n"}), s => None)

  /** The registry after boot. */
  const BOOTED := WithRoot(EMPTY, "o", "r").0

  function First(to: string, tag: string): Option<string> {
    var r := Resolve(TABLE, Same, Some(to), tag);
    if r.Ok? then Some(r.value[0].name) else None
  }

  lemma Keys()
    ensures Key(Same, "b", "T") == "b.T" && Key(Same, "b", "SpawnAck") == "b.SpawnAck"
    ensures Key(Same, "w", "T") == "w.T" && Key(Same, "h", "T") == "h.T" && Key(Same, "h", "U") == "h.U"
  {
  }

  lemma TableAnswers()
    ensures First("b", "T") == Some("b") && First("b", "SpawnAck") == Some("b") && First("w", "T") == Some("w")
    ensures First("h", "U") == None
    ensures forall y :: MayMessage(TABLE, "b", y) <==> y == "w" || y == "h"
    ensures "w" in TABLE.byName && TABLE.byName["w"].isAgent && TABLE.byName["w"].peers == {}
    ensures forall y :: !MayMessage(TABLE, "w", y)
    ensures forall y :: MayMessage(TABLE, "x", y) && MayMessage(TABLE, "n", y) && MayMessage(TABLE, "h", y)
  {
    Keys();
  }

  const REGISTRATIONS := [BOSS, BOSS_ACKS, WORKER, HELPER]

  lemma TableIsBuilt()
    ensures Built(Same, REGISTRATIONS) == TABLE
  {
    var r := REGISTRATIONS;
    assert r[..3] == [BOSS, BOSS_ACKS, WORKER] && r[..3][..2] == [BOSS, BOSS_ACKS] && r[..3][..2][..1] == [BOSS];
    assert [BOSS][..0] == [];
    hide Registered;
    assert Built(Same, []) == NO_ROUTES;
    assert Built(Same, [BOSS]) == Registered(NO_ROUTES, Same, BOSS);
    assert Built(Same, [BOSS, BOSS_ACKS]) == Registered(Built(Same, [BOSS]), Same, BOSS_ACKS);
    assert Built(Same, [BOSS, BOSS_ACKS, WORKER]) == Registered(Built(Same, [BOSS, BOSS_ACKS]), Same, WORKER);
  }

  /** The names are as the theorems want them. */
  lemma ConfigIsWellNamed()
    ensures WellNamed(CONFIG)
  {
    hide IsSpace, Built, TABLE, Consistent, Trimmed, Plain;
    TableIsBuilt();
    TableNames();
    BuiltConsistent(Same, REGISTRATIONS);
    WordParts();
  }

  lemma TableNames()
    ensures TABLE.byName.Keys == {"b", "w", "h"}
  {
    hide Entries, Key;
  }

  lemma WordParts()
    ensures forall name :: name in {"b", "w", "h"} ==> Plain(name) && Trimmed(name, IsSpace)
  {
  }

  // ---- Messages ----

  predicate Word(s: string) {
    s != "" && Plain(s) && Trimmed(s, IsSpace)
  }

  function Note(from: Address, to: string, thread: string, payload: Payload): Envelope {
    Envelope(Meta(from, Some(Flat(to)), thread, NO_PROVENANCE), payload)
  }

  const TASK := Payload("T", Nil)
  const OTHER := Payload("U", Nil)

  ghost predicate Simple(p: Payload) {
    NoMarkup(p.tag) && Clean(p.value) && RealsPrinted(p.value, CONFIG.reals)
  }

  lemma SimplePayloads()
    ensures Simple(TASK) && Simple(OTHER) && Simple(SpawnAck(true))
  {
    PlainPayload("T");
    PlainPayload("U");
    AckIsClean(true);
    AcksPrinted(CONFIG);
    hide NoMarkup, Clean, RealsPrinted;
  }

  lemma PlainPayload(tag: string)
    requires NoMarkup(tag)
    ensures Simple(Payload(tag, Nil))
  {
  }

  function Post(from: Address, to: Address, thread: string, payload: Payload): Envelope {
    Envelope(Meta(from, Some(to), thread, NO_PROVENANCE), payload)
  }

  /** Such a message is received as it was written. */
  lemma PostArrives(from: Address, to: Address, thread: string, p: Payload)
    requires AddressCarries(from) && AddressCarries(to) && Word(thread) && Simple(p)
    ensures Received(Post(from, to, thread, p)) == Ok(Post(from, to, thread, p))
  {
    hide Decode, Delivered, WrittenEnvelope, Received, RealsPrinted, Trimmed, Clean, NoMarkup, Plain, AddressCarries;
    var e := Post(from, to, thread, p);
    RoundTrip(e, CONFIG.reals);
    DecodeEncoded(e, CONFIG.reals);
  }

  lemma NoteArrives(from: Address, to: string, thread: string, p: Payload)
    requires AddressCarries(from) && Word(to) && Word(thread) && Simple(p)
    ensures Received(Note(from, to, thread, p)) == Ok(Note(from, to, thread, p))
  {
    hide Received, Simple, AddressCarries, Word;
    WordCarries(to);
    PostArrives(from, Flat(to), thread, p);
  }

  lemma WordCarries(name: string)
    requires Word(name)
    ensures AddressCarries(Flat(name))
  {
    FlatRoundTrip(name);
  }

  // ---- Runs ----

  lemma {:induction false} RunMore(c: Config, s: State, a: seq<Step>, b: seq<Step>)
    requires Run(c, s, a) && Run(c, After(c, s, a), b)
    ensures Run(c, s, a + b) && After(c, s, a + b) == After(c, After(c, s, a), b)
    decreases |a|
  {
    hide Enabled, Apply;
    if a == [] {
      assert a + b == b;
    } else {
      assert (a + b)[1..] == a[1..] + b;
      RunMore(c, Apply(c, s, a[0]), a[1..], b);
    }
  }

  lemma RunOne(c: Config, s: State, step: Step)
    requires Enabled(c, s, step)
    ensures Run(c, s, [step]) && After(c, s, [step]) == Apply(c, s, step)
  {
    hide Enabled, Apply;
    assert [step][1..] == [];
    assert Run(c, Apply(c, s, step), []);
  }

  /** The message at `i` goes through the three stages. */
  function Stages(i: nat): seq<Step> {
    [Advance(i), Advance(i), Advance(i)]
  }

  /** A message, between others, has gone through them; `d` was received of it. */
  function Through(s: State, before: seq<Message>, m: Message, d: Envelope, after: seq<Message>): State {
    match Route(CONFIG, d)
    case Dispatch(target) =>
      s.(items := before + [m.(item := Item.Routed(d, target))] + after,
         registry := Registering(s.registry, d, Dispatch(target)),
         log := s.log + [Dispatched(d, target, m.root, m.cause)])
    case Escalated => s.(items := before + after, gone := s.gone + [Gone(d, m.root, m.cause, m.sent)])
    case _ => s.(items := before + after)
  }

  /** A message written from `e`: from outside, or an answer of `cause`. */
  function Fresh(e: Envelope, root: nat, cause: Option<string>): Message {
    Message(Raw(Delivered(WrittenEnvelope(e))), root, cause, if cause.Some? then Some(e) else None)
  }

  lemma Middle(before: seq<Message>, m: Message, after: seq<Message>, m': Message)
    ensures var items := before + [m] + after;
      var i := |before|;
      items[i] == m && items[i := m'] == before + [m'] + after && Without(items, i) == before + after
  {
  }

  lemma GoesThrough(s: State, before: seq<Message>, e: Envelope, d: Envelope, root: nat, cause: Option<string>,
                    after: seq<Message>)
    requires s.items == before + [Fresh(e, root, cause)] + after && !s.down
    requires Received(e) == Ok(d) && RealsPrinted(e.payload.value, CONFIG.reals)
    ensures Run(CONFIG, s, Stages(|before|))
    ensures After(CONFIG, s, Stages(|before|)) == Through(s, before, Fresh(e, root, cause), d, after)
  {
    hide Decode, Delivered, WrittenEnvelope, Received, RealsPrinted, Route, Run, After, Registering, Valid, Without;
    DecodeEncoded(e, CONFIG.reals);
    NoSchemas(d.payload);
    var i := |before|;
    var m0 := Fresh(e, root, cause);
    var m1, m2 := m0.(item := Parsed(d)), m0.(item := Checked(d));
    Middle(before, m0, after, m1);
    Middle(before, m1, after, m2);
    var target := if Route(CONFIG, d).Dispatch? then Route(CONFIG, d).target else "";
    Middle(before, m2, after, m0.(item := Item.Routed(d, target)));
    var s1 := s.(items := before + [m1] + after);
    assert Apply(CONFIG, s, Advance(i)) == s1;
    RunOne(CONFIG, s, Advance(i));
    var s2 := s.(items := before + [m2] + after);
    assert Apply(CONFIG, s1, Advance(i)) == s2;
    RunOne(CONFIG, s1, Advance(i));
    assert Apply(CONFIG, s2, Advance(i)) == Through(s, before, m0, d, after);
    RunOne(CONFIG, s2, Advance(i));
    RunMore(CONFIG, s, [Advance(i)], [Advance(i)]);
    RunMore(CONFIG, s, [Advance(i)] + [Advance(i)], [Advance(i)]);
    assert [Advance(i)] + [Advance(i)] + [Advance(i)] == Stages(i);
  }

  lemma NoSchemas(p: Payload)
    ensures Valid(CONFIG, p)
  {
  }

  /** A message comes in from outside and goes through the stages. */
  function Arrival(s: State, e: Envelope): seq<Step> {
    [Inject(Delivered(WrittenEnvelope(e)))] + Stages(|s.items|)
  }

  lemma ComesIn(s: State, e: Envelope)
    requires !s.down && Received(e) == Ok(e) && RealsPrinted(e.payload.value, CONFIG.reals)
    ensures var s1 := s.(injected := s.injected + [Delivered(WrittenEnvelope(e))]);
      && Run(CONFIG, s, Arrival(s, e))
      && After(CONFIG, s, Arrival(s, e)) == Through(s1, s.items, Fresh(e, |s.injected|, None), e, [])
  {
    hide Decode, Delivered, WrittenEnvelope, Received, RealsPrinted, Route, Run, After, Registering, Through;
    var inject := Inject(Delivered(WrittenEnvelope(e)));
    var s1 := Apply(CONFIG, s, inject);
    RunOne(CONFIG, s, inject);
    assert s1.items == s.items + [Fresh(e, |s.injected|, None)] + [];
    var m := Fresh(e, |s.injected|, None);
    GoesThrough(s1, s.items, e, e, |s.injected|, None, []);
    SameThrough(s1, s.(injected := s.injected + [Delivered(WrittenEnvelope(e))]), s.items, m, e, []);
    RunMore(CONFIG, s, [inject], Stages(|s.items|));
  }

  /** Going through replaces the list of messages. */
  lemma SameThrough(s: State, t: State, before: seq<Message>, m: Message, d: Envelope, after: seq<Message>)
    requires t == s.(items := t.items)
    ensures Through(s, before, m, d, after) == Through(t, before, m, d, after)
  {
  }

  /** A handler's answer: its message goes, what it answers comes behind all others. */
  lemma Answered(s: State, before: seq<Message>, m: Message, after: seq<Message>, o: Outcome, uuid: string)
    requires s.items == before + [m] + after && m.item.Routed? && Printed(CONFIG, o) && uuid !in s.registry.uuids
    ensures var step := Process(|before|, o, uuid);
      var (r, out) := Processed(TABLE, s.registry, m.item.env, m.item.target, o, uuid);
      && Run(CONFIG, s, [step])
      && After(CONFIG, s, [step]) == s.(items := before + after + Reinjected(out, m.root, m.item.target), registry := r)
  {
    hide Run, After, Processed, Without, Printed, Reinjected;
    Middle(before, m, after, m);
    RunOne(CONFIG, s, Process(|before|, o, uuid));
  }

  lemma OneBack(e: Envelope, root: nat, cause: string)
    ensures Reinjected([e], root, cause) == [Fresh(e, root, Some(cause))]
  {
    hide Delivered, WrittenEnvelope;
    assert [e][..0] == [];
  }

  lemma TwoBack(e: Envelope, f: Envelope, root: nat, cause: string)
    ensures Reinjected([e, f], root, cause) == [Fresh(e, root, Some(cause)), Fresh(f, root, Some(cause))]
  {
    hide Delivered, WrittenEnvelope;
    OneBack(e, root, cause);
    assert [e, f][..1] == [e];
  }

  // ---- The registry on the way ----

  const ROOT := "system.o"

  lemma BootedFacts()
    ensures BOOTED.uuids == map["r" := ROOT] && BOOTED.chains == map[ROOT := "r"]
    ensures BOOTED.rootUuid == Some("r") && BOOTED.rootChain == ROOT
    ensures Inverse(BOOTED)
  {
    assert "system" + [DOT] + "o" == ROOT;
  }

  /** The chain a message from outside opens. */
  function Opened(from: string, target: string): string {
    ROOT + [DOT] + (from + [DOT] + target)
  }

  lemma OpenedParts(from: string, target: string)
    requires DotFree(from) && DotFree(target)
    ensures var caller := ROOT + [DOT] + from;
      && Opened(from, target) == caller + [DOT] + target
      && Split(caller) == Split(ROOT) + [from]
      && Split(Opened(from, target)) == Split(caller) + [target]
      && Join(Split(caller)) == caller
      && caller != ROOT && Opened(from, target) != ROOT && Opened(from, target) != caller
      && Deep(Opened(from, target))
  {
    hide Split, Join, DotFree;
    var caller := ROOT + [DOT] + from;
    SplitConcat(ROOT, from);
    SplitDotFree(from);
    SplitConcat(caller, target);
    SplitDotFree(target);
    JoinSplit(caller);
    assert Opened(from, target) == caller + [DOT] + target;
  }

  /** The first message from outside binds its thread, and an answer on it goes back to the sender. */
  lemma FirstThread(id: string, from: string, target: string, uuid: string)
    requires DotFree(from) && DotFree(target) && id != "r"
    ensures var r := WithThread(BOOTED, id, from, target).0;
      && r == Bind(BOOTED, Opened(from, target), id) && Inverse(r)
      && id in r.uuids && r.uuids[id] == Opened(from, target)
      && (forall u :: u in r.uuids <==> u == "r" || u == id)
      && (forall ch :: ch in r.chains <==> ch == ROOT || ch == Opened(from, target))
      && Pruned(r, id, uuid).1 == Some(Target(from, uuid))
  {
    hide Split, Join;
    BootedFacts();
    OpenedParts(from, target);
    BindKeepsInverse(BOOTED, Opened(from, target), id);
    var caller := ROOT + [DOT] + from;
    var parts := Split(Opened(from, target));
    assert parts[..|parts| - 1] == Split(caller) && parts[|parts| - 2] == from;
  }

  lemma Letter(c: char)
    requires 'a' <= c <= 'z' || '0' <= c <= '9'
    ensures Word([c])
  {
  }

  lemma Words()
    ensures Word("b") && Word("w") && Word("h") && Word("n") && Word("x")
      && Word("t") && Word("u") && Word("1") && Word("2")
    ensures AddressCarries(Flat("b")) && AddressCarries(Flat("w"))
      && AddressCarries(Flat("h")) && AddressCarries(Flat("x"))
  {
    hide Canonical, Print, Word, AddressCarries;
    Letter('b');
    Letter('w');
    Letter('h');
    Letter('n');
    Letter('x');
    Letter('t');
    Letter('u');
    Letter('1');
    Letter('2');
    WordCarries("b");
    WordCarries("w");
    WordCarries("h");
    WordCarries("x");
  }

  lemma Routes(e: Envelope, from: string, to: string)
    requires OrganismOrEmpty(e.meta.from) == from && e.meta.to == Some(Flat(to))
    ensures Route(CONFIG, e)
      == if to == "n" then Escalated
         else if First(to, e.payload.tag) == None then Unroutable
         else if MayMessage(TABLE, from, First(to, e.payload.tag).value) then Dispatch(First(to, e.payload.tag).value)
         else Refused
  {
    hide Resolve, MayMessage;
    FlatRoundTrip(to);
  }

  // ---- A sender at a remote node ----

  const OUTSIDER := Address([Segment("n", None), Segment("x", None)])

  lemma OutsiderCarries()
    ensures AddressCarries(OUTSIDER) && OrganismOrEmpty(OUTSIDER) == "n"
  {
    var segments := OUTSIDER.segments;
    assert segments[..1] == [segments[0]] && [segments[0]][..0] == [];
    assert PrintAll(segments[..1]) == "n.";
    assert Print(OUTSIDER) == "n.x";
    assert forall i :: 0 <= i < |segments| ==> CanonicalSegment(segments[i]);
    assert FirstKeyed(segments[1..]) == 1 by { assert segments[1..][1..] == []; }
  }

  // ---- First contact, and one answer ----

  /** The state after the first message from outside was dispatched. */
  function Contacted(e: Envelope, name: string, target: string): State {
    State([Message(Item.Routed(e, target), 0, None, None)], false, Bind(BOOTED, Opened(name, target), e.meta.thread),
          [Delivered(WrittenEnvelope(e))], [Dispatched(e, target, 0, None)], [])
  }

  lemma Contact(from: Address, name: string, target: string, id: string)
    requires AddressCarries(from) && OrganismOrEmpty(from) == name && DotFree(name)
    requires Word(target) && Word(id) && id != "r" && target != "n"
    requires First(target, "T") == Some(target) && MayMessage(TABLE, name, target)
    ensures var e := Note(from, target, id, TASK);
      && Run(CONFIG, Initial(BOOTED), Arrival(Initial(BOOTED), e))
      && After(CONFIG, Initial(BOOTED), Arrival(Initial(BOOTED), e)) == Contacted(e, name, target)
  {
    hide Run, After, Received, Delivered, WrittenEnvelope, WithThread, Pruned, MayMessage, RealsPrinted, Route, Trimmed,
      AddressCarries, BOOTED, TABLE, Arrival, First, OrganismOrEmpty;
    var e := Note(from, target, id, TASK);
    SimplePayloads();
    NoteArrives(from, target, id, TASK);
    Routes(e, name, target);
    ComesIn(Initial(BOOTED), e);
    FirstThread(id, name, target, "");
    var m := Message(Item.Routed(e, target), 0, None, None);
    assert [] + [m] + [] == [m];
  }

  /** The only message is answered with one envelope, which goes through the stages. */
  function AnswerSteps(o: Outcome, uuid: string): seq<Step> {
    [Process(0, o, uuid)] + Stages(0)
  }

  lemma OneAnswer(s: State, m: Message, o: Outcome, uuid: string, r: Registry, e: Envelope, d: Envelope)
    requires s.items == [m] && m.item.Routed? && !s.down && Printed(CONFIG, o) && uuid !in s.registry.uuids
    requires Processed(TABLE, s.registry, m.item.env, m.item.target, o, uuid) == (r, [e])
    requires Received(e) == Ok(d) && RealsPrinted(e.payload.value, CONFIG.reals)
    ensures Run(CONFIG, s, AnswerSteps(o, uuid))
    ensures After(CONFIG, s, AnswerSteps(o, uuid))
      == Through(s.(registry := r), [], Fresh(e, m.root, Some(m.item.target)), d, [])
  {
    hide Run, After, Received, Delivered, WrittenEnvelope, Processed, RealsPrinted, Reinjected, Fresh,
      Through, TABLE, Printed;
    assert s.items == [] + [m] + [];
    Answered(s, [], m, [], o, uuid);
    var step := Process(0, o, uuid);
    var s2 := After(CONFIG, s, [step]);
    var back := Fresh(e, m.root, Some(m.item.target));
    OneBack(e, m.root, m.item.target);
    assert s2.items == [] + [back] + [];
    GoesThrough(s2, [], e, d, m.root, Some(m.item.target), []);
    SameThrough(s2, s.(registry := r), [], back, d, []);
    RunMore(CONFIG, s, [step], Stages(0));
  }

  // ---- A peerless agent answers a remote node ----

  /**
   The agent `w` has no peers. A message from `x` at node `n` reaches it, it replies, and the reply
   is handed to federation without a peer check.
   */
  lemma PeerlessAgentAnswersNode()
    ensures var first := Note(OUTSIDER, "w", "t", TASK);
      var steps := Arrival(Initial(BOOTED), first) + AnswerSteps(Responded(Reply(TASK)), "u");
      && "w" in TABLE.byName && TABLE.byName["w"].isAgent && TABLE.byName["w"].peers == {}
      && Run(CONFIG, Initial(BOOTED), steps)
      && var reply := Note(Flat("w"), "n", "u", TASK);
      After(CONFIG, Initial(BOOTED), steps).gone == [Gone(reply, 0, Some("w"), Some(reply))]
  {
    TableAnswers();
    hide Run, After, Received, Delivered, WrittenEnvelope, Pruned, MayMessage, RealsPrinted, Route, Word,
      AddressCarries, BOOTED,
      TABLE, Arrival, AnswerSteps, OrganismOrEmpty, First;
    var first, reply := Note(OUTSIDER, "w", "t", TASK), Note(Flat("w"), "n", "u", TASK);
    Words();
    SimplePayloads();
    OutsiderCarries();
    Contact(OUTSIDER, "n", "w", "t");
    FirstThread("t", "n", "w", "u");
    var s1 := Contacted(first, "n", "w");
    NoteArrives(Flat("w"), "n", "u", TASK);
    NamesItself("w");
    Routes(reply, "w", "n");
    var r := Processed(TABLE, s1.registry, first, "w", Responded(Reply(TASK)), "u").0;
    OneAnswer(s1, s1.items[0], Responded(Reply(TASK)), "u", r, reply, reply);
    RunMore(CONFIG, Initial(BOOTED), Arrival(Initial(BOOTED), first), AnswerSteps(Responded(Reply(TASK)), "u"));
  }

  lemma NamesItself(name: string)
    ensures OrganismOrEmpty(Flat(name)) == name
  {
    FlatRoundTrip(name);
  }

  // ---- An agent answers its caller ----

  /**
   The agent `b` calls its peer `w`, which replies. `w` has not listed `b` as a peer, so the reply
   dies at the route stage, and nothing is left.
   */
  lemma PeerlessAgentCannotAnswer()
    ensures var first := Note(Flat("x"), "b", "t", TASK);
      var steps := Arrival(Initial(BOOTED), first) + (AnswerSteps(Responded(Send(Flat("w"), TASK)), "u")
                   + AnswerSteps(Responded(Reply(TASK)), "v"));
      && Run(CONFIG, Initial(BOOTED), steps)
      && var s := After(CONFIG, Initial(BOOTED), steps);
      && s.items == [] && s.gone == [] && |s.log| == 2
      && s.log[1] == Dispatched(Note(Flat("b"), "w", "u", TASK), "w", 0, Some("b"))
  {
    TableAnswers();
    hide Run, After, Received, Delivered, WrittenEnvelope, Pruned, MayMessage, RealsPrinted, Route, Word,
      AddressCarries, BOOTED,
      TABLE, Arrival, AnswerSteps, OrganismOrEmpty, First, WithHop, DotFree;
    var first, call, reply := Note(Flat("x"), "b", "t", TASK), Note(Flat("b"), "w", "u", TASK),
      Note(Flat("w"), "b", "t", TASK);
    Words();
    SimplePayloads();
    NamesItself("x");
    NamesItself("b");
    NamesItself("w");
    NoDots();
    Contact(Flat("x"), "x", "b", "t");
    var s1 := Contacted(first, "x", "b");
    CallFromContact();
    NoteArrives(Flat("b"), "w", "u", TASK);
    Routes(call, "b", "w");
    var r1 := WithHop(s1.registry, "t", "w", "u").0;
    OneAnswer(s1, s1.items[0], Responded(Send(Flat("w"), TASK)), "u", r1, call, call);
    var s2 := Through(s1.(registry := r1), [], Fresh(call, 0, Some("b")), call, []);
    var m := Message(Item.Routed(call, "w"), 0, Some("b"), Some(call));
    assert [] + [m] + [] == [m];
    NoteArrives(Flat("w"), "b", "t", TASK);
    Routes(reply, "w", "b");
    OneAnswer(s2, m, Responded(Reply(TASK)), "v", r1, reply, reply);
    RunMore(CONFIG, s1, AnswerSteps(Responded(Send(Flat("w"), TASK)), "u"), AnswerSteps(Responded(Reply(TASK)), "v"));
    RunMore(CONFIG, Initial(BOOTED), Arrival(Initial(BOOTED), first),
            AnswerSteps(Responded(Send(Flat("w"), TASK)), "u") + AnswerSteps(Responded(Reply(TASK)), "v"));
  }

  lemma NoDots()
    ensures DotFree("x") && DotFree("b") && DotFree("w") && DotFree("n") && DotFree("h")
  {
  }

  /** What the call from thread `t` and the answer to it do to the registry. */
  lemma CallFromContact()
    ensures var r := Bind(BOOTED, Opened("x", "b"), "t");
      var (r1, u) := WithHop(r, "t", "w", "u");
      && "u" !in r.uuids && u == "u" && "u" in r1.uuids && "v" !in r1.uuids
      && Pruned(r1, "u", "v") == (r1, Some(Target("b", "t")))
      && (forall from, target :: WithThread(r1, "u", from, target).0 == r1)
  {
    NoDots();
    hide Split, Join, DotFree;
    FirstThread("t", "x", "b", "v");
    BootedFacts();
    OpenedParts("x", "b");
    var r := Bind(BOOTED, Opened("x", "b"), "t");
    var called := Opened("x", "b") + [DOT] + "w";
    assert |called| > |Opened("x", "b")| && called != ROOT;
    ExtendBinds(r, "t", "w", "u");
    var r1 := WithHop(r, "t", "w", "u").0;
    PruneReturns(r1, "t", "u", "w", "v");
  }

  // ---- Accepted work that is lost ----

  /** An answer of `cause` to the first message, received as it was written, waits for its handler. */
  function AnswerAt(e: Envelope, target: string, cause: string): Message {
    Message(Item.Routed(e, target), 0, Some(cause), Some(e))
  }

  /**
   The agent `b` spawns work for its peer `h`, with a tag that `h` does not handle. It is told that
   the work was accepted; the work is lost.
   */
  lemma AcceptedWorkIsLost()
    ensures var first := Note(Flat("x"), "b", "t", TASK);
      var spawn := Process(0, Responded(Spawn(Flat("h"), OTHER)), "u");
      var steps := Arrival(Initial(BOOTED), first) + ([spawn] + (Stages(0) + Stages(0)));
      && Run(CONFIG, Initial(BOOTED), steps)
      && var s := After(CONFIG, Initial(BOOTED), steps);
      && s.items == [AnswerAt(Note(Flat("h"), "b", "t", SpawnAck(true)), "b", "b")]
      && s.gone == [] && |s.log| == 2 && s.log[0].target == "b" && s.log[1].target == "b"
  {
    TableAnswers();
    hide Run, After, Received, Delivered, WrittenEnvelope, Pruned, MayMessage, RealsPrinted, Route, Word,
      AddressCarries, BOOTED,
      TABLE, Arrival, OrganismOrEmpty, First, WithHop, WithThread, DotFree, Reinjected;
    var first := Note(Flat("x"), "b", "t", TASK);
    var work, ack := Note(Flat("b"), "h", "u", OTHER), Note(Flat("h"), "b", "t", SpawnAck(true));
    Words();
    SimplePayloads();
    NamesItself("x");
    NamesItself("b");
    NamesItself("h");
    NoDots();
    Contact(Flat("x"), "x", "b", "t");
    var s1 := Contacted(first, "x", "b");
    SpawnFromContact();
    NoteArrives(Flat("b"), "h", "u", OTHER);
    NoteArrives(Flat("h"), "b", "t", SpawnAck(true));
    Routes(work, "b", "h");
    Routes(ack, "h", "b");
    var r1 := WithHop(s1.registry, "t", "h", "u").0;
    var m := s1.items[0];
    var o := Responded(Spawn(Flat("h"), OTHER));
    assert s1.items == [] + [m] + [];
    assert [work] + [ack] == [work, ack];
    Answered(s1, [], m, [], o, "u");
    TwoBack(work, ack, 0, "b");
    var s2 := s1.(items := [Fresh(work, 0, Some("b")), Fresh(ack, 0, Some("b"))], registry := r1);
    assert [] + [] + s2.items == s2.items;
    assert s2.items == [] + [Fresh(work, 0, Some("b"))] + [Fresh(ack, 0, Some("b"))];
    GoesThrough(s2, [], work, work, 0, Some("b"), [Fresh(ack, 0, Some("b"))]);
    var s3 := s2.(items := [] + [Fresh(ack, 0, Some("b"))]);
    assert s3.items == [] + [Fresh(ack, 0, Some("b"))] + [];
    GoesThrough(s3, [], ack, ack, 0, Some("b"), []);
    RunMore(CONFIG, s2, Stages(0), Stages(0));
    RunMore(CONFIG, s1, [Process(0, o, "u")], Stages(0) + Stages(0));
    RunMore(CONFIG, Initial(BOOTED), Arrival(Initial(BOOTED), first), [Process(0, o, "u")] + (Stages(0) + Stages(0)));
  }

  lemma SpawnFromContact()
    ensures var r := Bind(BOOTED, Opened("x", "b"), "t");
      WithHop(r, "t", "h", "u").1 == "u" && "u" !in r.uuids
  {
    NoDots();
    hide Split, Join, DotFree;
    FirstThread("t", "x", "b", "v");
    OpenedParts("x", "b");
    var r := Bind(BOOTED, Opened("x", "b"), "t");
    var called := Opened("x", "b") + [DOT] + "h";
    assert |called| > |Opened("x", "b")| && called != ROOT;
  }

  // ---- An offered id that stays unregistered ----

  /**
   Two conversations of one sender with one listener. Both are dispatched, the second id stays
   unregistered, and the reply on it is dropped.
   */
  lemma SecondConversationIsForgotten()
    ensures var first, second := Note(Flat("x"), "b", "1", TASK), Note(Flat("x"), "b", "2", TASK);
      var s0 := Initial(BOOTED);
      var s1 := Contacted(first, "x", "b");
      var steps := Arrival(s0, first) + Arrival(s1, second);
      && Run(CONFIG, s0, steps)
      && var s := After(CONFIG, s0, steps);
      && |s.log| == 2 && s.log[1].env == second && s.log[1].target == "b"
      && |s.items| == 2 && s.items[1].item == Item.Routed(second, "b")
      && "1" in s.registry.uuids && "2" !in s.registry.uuids
      && (forall payload, uuid :: ProcessedAt(CONFIG, s, 1, Responded(Reply(payload)), uuid).1 == [])
  {
    TableAnswers();
    hide Run, After, Received, Delivered, WrittenEnvelope, MayMessage, RealsPrinted, Route, Word,
      AddressCarries, BOOTED,
      TABLE, Arrival, OrganismOrEmpty, First, DotFree;
    var first, second := Note(Flat("x"), "b", "1", TASK), Note(Flat("x"), "b", "2", TASK);
    Words();
    SimplePayloads();
    NamesItself("x");
    NoDots();
    Contact(Flat("x"), "x", "b", "1");
    var s1 := Contacted(first, "x", "b");
    NoteArrives(Flat("x"), "b", "2", TASK);
    Routes(second, "x", "b");
    ComesIn(s1, second);
    SecondThread();
    RunMore(CONFIG, Initial(BOOTED), Arrival(Initial(BOOTED), first), Arrival(s1, second));
    var s := After(CONFIG, s1, Arrival(s1, second));
    assert s.items == s1.items + [Message(Item.Routed(second, "b"), 1, None, None)] + [];
  }

  lemma SecondThread()
    ensures var r := Bind(BOOTED, Opened("x", "b"), "1");
      && WithThread(r, "2", "x", "b").0 == r && "1" in r.uuids && "2" !in r.uuids
      && forall uuid :: Pruned(r, "2", uuid).1 == None
  {
    NoDots();
    hide Split, Join, DotFree;
    BootedFacts();
    FirstThread("1", "x", "b", "v");
  }

  // ---- A spawner that is not told ----

  /**
   The agent `b` spawns work for its peer `w`. The work reaches `w`; the acknowledgement names `w`
   as its sender, which has not listed `b` as a peer, so it dies at the route stage.
   */
  lemma SpawnerIsNotTold()
    ensures var first := Note(Flat("x"), "b", "t", TASK);
      var spawn := Process(0, Responded(Spawn(Flat("w"), TASK)), "u");
      var steps := Arrival(Initial(BOOTED), first) + ([spawn] + (Stages(0) + Stages(1)));
      && Run(CONFIG, Initial(BOOTED), steps)
      && var s := After(CONFIG, Initial(BOOTED), steps);
      && s.items == [AnswerAt(Note(Flat("b"), "w", "u", TASK), "w", "b")]
      && s.gone == [] && |s.log| == 2 && s.log[0].target == "b" && s.log[1].target == "w"
  {
    TableAnswers();
    hide Run, After, Received, Delivered, WrittenEnvelope, Pruned, MayMessage, RealsPrinted, Route, Word,
      AddressCarries, BOOTED,
      TABLE, Arrival, OrganismOrEmpty, First, WithHop, WithThread, DotFree, Reinjected;
    var first := Note(Flat("x"), "b", "t", TASK);
    var work, ack := Note(Flat("b"), "w", "u", TASK), Note(Flat("w"), "b", "t", SpawnAck(true));
    Words();
    SimplePayloads();
    NamesItself("x");
    NamesItself("b");
    NamesItself("w");
    NoDots();
    Contact(Flat("x"), "x", "b", "t");
    var s1 := Contacted(first, "x", "b");
    CallFromContact();
    NoteArrives(Flat("b"), "w", "u", TASK);
    NoteArrives(Flat("w"), "b", "t", SpawnAck(true));
    Routes(work, "b", "w");
    Routes(ack, "w", "b");
    var r1 := WithHop(s1.registry, "t", "w", "u").0;
    var m := s1.items[0];
    var o := Responded(Spawn(Flat("w"), TASK));
    assert s1.items == [] + [m] + [];
    assert [work] + [ack] == [work, ack];
    Answered(s1, [], m, [], o, "u");
    TwoBack(work, ack, 0, "b");
    var m1, m2 := Fresh(work, 0, Some("b")), Fresh(ack, 0, Some("b"));
    var s2 := s1.(items := [m1, m2], registry := r1);
    assert [] + [] + s2.items == s2.items;
    assert s2.items == [] + [m1] + [m2];
    GoesThrough(s2, [], work, work, 0, Some("b"), [m2]);
    var s3 := Through(s2, [], m1, work, [m2]);
    var waiting := AnswerAt(work, "w", "b");
    assert s3.items == [waiting] + [m2] + [];
    GoesThrough(s3, [waiting], ack, ack, 0, Some("b"), []);
    assert [waiting] + [] == [waiting];
    RunMore(CONFIG, s2, Stages(0), Stages(1));
    RunMore(CONFIG, s1, [Process(0, o, "u")], Stages(0) + Stages(1));
    RunMore(CONFIG, Initial(BOOTED), Arrival(Initial(BOOTED), first), [Process(0, o, "u")] + (Stages(0) + Stages(1)));
  }

  // ---- A callee that nobody was asked for ----

  /** As it is typed its organism is `w`; its text reads as an address with another one. */
  const FORGED := Address([Segment("n.evil[x]", None), Segment("w", Some("k"))])
  const READ := Address([Segment("n", None), Segment("evil", Some("x")), Segment("w", Some("k"))])

  lemma ForgedText()
    ensures Print(FORGED) == "n.evil[x].w[k]" && Print(READ) == "n.evil[x].w[k]"
  {
    var f, r := FORGED.segments, READ.segments;
    assert f[..1] == [f[0]] && [f[0]][..0] == [];
    assert PrintAll([]) == "";
    assert PrintAll(f[..1]) == "n.evil[x].";
    assert r[..2] == [r[0], r[1]] && [r[0], r[1]][..1] == [r[0]] && [r[0]][..0] == [];
    assert PrintAll([r[0]]) == "n.";
    assert PrintAll(r[..2]) == "n." + "evil[x]" + ".";
  }

  lemma ForgedNames()
    ensures OrganismOrEmpty(FORGED) == "w" && OrganismOrEmpty(READ) == "evil"
    ensures AddressCarries(READ)
  {
    assert FORGED.segments[1..] == [Segment("w", Some("k"))];
    assert READ.segments[1..] == [Segment("evil", Some("x")), Segment("w", Some("k"))];
    ForgedText();
    PlainDepth("x", 1);
    PlainDepth("k", 1);
    assert Plain("n") && Plain("evil") && Plain("w");
    assert forall i :: 0 <= i < |READ.segments| ==> CanonicalSegment(READ.segments[i]);
    assert AllCanonical(READ.segments);
  }

  /** What is received of an envelope depends on the text of its address only. */
  lemma SameText(e: Envelope, to: Address)
    requires e.meta.to.Some? && Print(to) == Print(e.meta.to.value)
    ensures Received(e.(meta := e.meta.(to := Some(to)))) == Received(e)
  {
    hide CarriedText, Carried, Escape, Print;
  }

  /**
   The agent `b` may message `w` and `h`. It sends to an address whose organism is `w`; what leaves
   is for `evil` at node `n`, whom `b` may not message.
   */
  lemma ForgedCalleeLeaves()
    ensures var first := Note(Flat("x"), "b", "t", TASK);
      var sent, received := Post(Flat("b"), FORGED, "u", TASK), Post(Flat("b"), READ, "u", TASK);
      var steps := Arrival(Initial(BOOTED), first) + AnswerSteps(Responded(Send(FORGED, TASK)), "u");
      && Run(CONFIG, Initial(BOOTED), steps)
      && After(CONFIG, Initial(BOOTED), steps).gone == [Gone(received, 0, Some("b"), Some(sent))]
      && OrganismOrEmpty(FORGED) == "w" && OrganismOrEmpty(READ) == "evil" && !MayMessage(TABLE, "b", "evil")
      && !NamesCallee(FORGED)
  {
    TableAnswers();
    hide Run, After, Received, Delivered, WrittenEnvelope, Pruned, MayMessage, RealsPrinted, Route, Word,
      AddressCarries, BOOTED,
      TABLE, Arrival, AnswerSteps, OrganismOrEmpty, First, WithHop, DotFree, NamesCallee, Arrived, Print;
    var first := Note(Flat("x"), "b", "t", TASK);
    var sent, received := Post(Flat("b"), FORGED, "u", TASK), Post(Flat("b"), READ, "u", TASK);
    Words();
    SimplePayloads();
    NamesItself("x");
    NoDots();
    Contact(Flat("x"), "x", "b", "t");
    var s1 := Contacted(first, "x", "b");
    CallFromContact();
    ForgedText();
    ForgedNames();
    PostArrives(Flat("b"), READ, "u", TASK);
    SameText(received, FORGED);
    ReadIsRemote(received);
    var r1 := WithHop(s1.registry, "t", "w", "u").0;
    OneAnswer(s1, s1.items[0], Responded(Send(FORGED, TASK)), "u", r1, sent, received);
    RunMore(CONFIG, Initial(BOOTED), Arrival(Initial(BOOTED), first), AnswerSteps(Responded(Send(FORGED, TASK)), "u"));
    ToArrives(sent);
    SameCalleeArrives(FORGED);
  }

  lemma ReadIsRemote(e: Envelope)
    requires e.meta.to == Some(READ)
    ensures Route(CONFIG, e) == Escalated
  {
  }
}
