/** What federation guarantees between two nodes, and against everybody else. */
module FederationTheorems {
  import opened Results
  import opened Text
  import opened Wire
  import opened Addresses
  import opened Codec
  import opened CodecTheorems
  import opened EnvelopeTheorems
  import opened Federation

  /**
   The laws of the libraries. Reading a written envelope delivers its events; UTF-8 is a
   bijection on what it accepts; decryption succeeds exactly on what encryption made of the same
   key, nonce and header, and no two calls of encryption agree.
   */
  ghost predicate Lawful(l: Libraries) {
    && (forall env :: l.scan(l.render(WrittenEnvelope(env))) == Delivered(WrittenEnvelope(env)))
    && (forall s :: l.fromUtf8(l.utf8(s)) == Some(s))
    && (forall b :: l.fromUtf8(b).Some? ==> l.utf8(l.fromUtf8(b).value) == b)
    && (forall k, n, a, p :: l.decrypt(k, n, a, l.encrypt(k, n, a, p)) == Some(p))
    && (forall k, n, a, c :: l.decrypt(k, n, a, c).Some? ==> c == l.encrypt(k, n, a, l.decrypt(k, n, a, c).value))
    && (forall k, n, a, p, k', n', a', p' ::
          l.encrypt(k, n, a, p) == l.encrypt(k', n', a', p') ==> k == k' && n == n' && a == a' && p == p')
  }

  // ---- Framing ----

  ghost predicate FitsHeader(l: Libraries, sender: string) {
    |l.utf8(sender)| < 0x1_0000
  }

  /** A header is parsed exactly where one was written for a sender that fits. */
  lemma HeaderExact(l: Libraries, frame: Bytes, sender: string, end: nat)
    requires Lawful(l)
    ensures ParseHeader(l, frame) == Ok((sender, end))
      <==> FitsHeader(l, sender) && end == |Header(l, sender)| <= |frame| && frame[..end] == Header(l, sender)
  {
    var s := l.utf8(sender);
    var h := Header(l, sender);
    if ParseHeader(l, frame) == Ok((sender, end)) {
      assert frame[4..end] == s;
      assert frame[..end] == frame[..4] + frame[4..end];
    }
    if FitsHeader(l, sender) && end == |h| <= |frame| && frame[..end] == h {
      assert frame[0] == h[0] && frame[1] == h[1] && frame[2] == h[2] && frame[3] == h[3];
      assert frame[4..end] == frame[..end][4..] == s;
    }
  }

  /** A sender of 65536 bytes or more is never the one parsed, whatever follows. */
  lemma HeaderRoundTrip(l: Libraries, sender: string, body: Bytes)
    requires Lawful(l)
    ensures ParseHeader(l, Header(l, sender) + body) == Ok((sender, |Header(l, sender)|)) <==> FitsHeader(l, sender)
  {
    HeaderExact(l, Header(l, sender) + body, sender, |Header(l, sender)|);
  }

  /** No header is a prefix of another: frames can be told apart before any body. */
  lemma UniquelyDecodable(l: Libraries, s: string, body: Bytes, t: string, other: Bytes)
    requires Lawful(l) && FitsHeader(l, s) && FitsHeader(l, t)
    requires Header(l, s) + body == Header(l, t) + other
    ensures s == t && body == other
  {
    HeaderRoundTrip(l, s, body);
    HeaderRoundTrip(l, t, other);
    var n := |Header(l, s)|;
    assert body == (Header(l, s) + body)[n..] == (Header(l, t) + other)[n..];
  }

  // ---- Opening ----

  /** The frame a holder of `key` makes of `plaintext`. */
  function Frame(l: Libraries, sender: string, key: Key, nonce: Nonce, plaintext: Bytes): Bytes {
    Header(l, sender) + nonce + l.encrypt(key, nonce, Header(l, sender), plaintext)
  }

  lemma FrameParts(l: Libraries, sender: string, key: Key, nonce: Nonce, plaintext: Bytes)
    ensures var f := Frame(l, sender, key, nonce, plaintext);
      var n := |Header(l, sender)|;
      && |f| >= n + NONCE_LEN && f[..n] == Header(l, sender)
      && f[n..][..NONCE_LEN] == nonce && f[n..][NONCE_LEN..] == l.encrypt(key, nonce, Header(l, sender), plaintext)
  {
    hide Header;
    var f := Frame(l, sender, key, nonce, plaintext);
    var h, c := Header(l, sender), l.encrypt(key, nonce, Header(l, sender), plaintext);
    assert f == h + (nonce + c);
    assert f[|h|..] == nonce + c;
  }

  /** A frame with a sealed body opens exactly under the key, header and nonce it was made with. */
  lemma FrameOpens(l: Libraries, sender: string, key: Key, nonce: Nonce, plaintext: Bytes, peers: map<string, Peer>)
    requires Lawful(l) && FitsHeader(l, sender) && sender in peers
    ensures var r := Open(l, Frame(l, sender, key, nonce, plaintext), peers);
      if peers[sender].key != key then r == Err(OpenFailed)
      else
        var env := Decode(l.scan(plaintext), l.reals);
        r == if env.Ok? then Ok((env.value, sender)) else Err(BadEnvelope(env.error))
  {
    hide Header, ParseHeader, Decode, Delivered, WrittenEnvelope;
    FrameParts(l, sender, key, nonce, plaintext);
    var f := Frame(l, sender, key, nonce, plaintext);
    HeaderExact(l, f, sender, |Header(l, sender)|);
    var h := Header(l, sender);
    var p := l.decrypt(peers[sender].key, nonce, h, l.encrypt(key, nonce, h, plaintext));
    assert p == if peers[sender].key == key then Some(plaintext) else None;
  }

  /**
   Opening what was sealed gives back the envelope and its sender exactly if the receiver
   registered that sender with that key, the name fits, and the envelope is transportable.
   */
  lemma OpenSeal(l: Libraries, env: Envelope, sender: string, key: Key, nonce: Nonce, peers: map<string, Peer>)
    requires Lawful(l) && RealsPrinted(env.payload.value, l.reals)
    ensures Open(l, Sealed(l, env, sender, key, nonce), peers) == Ok((env, sender))
      <==> FitsHeader(l, sender) && sender in peers && peers[sender].key == key && Transportable(env)
  {
    hide Header, ParseHeader, Decode, Delivered, WrittenEnvelope, Transportable, RealsPrinted;
    var plaintext := l.render(WrittenEnvelope(env));
    var frame := Frame(l, sender, key, nonce, plaintext);
    assert frame == Sealed(l, env, sender, key, nonce);
    RoundTrip(env, l.reals);
    var r := Open(l, frame, peers);
    if FitsHeader(l, sender) && sender in peers {
      FrameOpens(l, sender, key, nonce, plaintext, peers);
    } else if r == Ok((env, sender)) {
      var parsed := ParseHeader(l, frame).value;
      HeaderExact(l, frame, sender, parsed.1);
    }
  }

  /** `frame` was made by a holder of the key registered for `sender`, from the text of `env`. */
  ghost predicate MadeBy(l: Libraries, frame: Bytes, sender: string, key: Key, env: Envelope) {
    exists nonce: Nonce, plaintext ::
      frame == Frame(l, sender, key, nonce, plaintext) && Decode(l.scan(plaintext), l.reals) == Ok(env)
  }

  /** Authentication: a frame opens as coming from `sender` exactly if a holder of its key made it. */
  lemma OpensIffMade(l: Libraries, frame: Bytes, peers: map<string, Peer>, env: Envelope, sender: string)
    requires Lawful(l)
    ensures Open(l, frame, peers) == Ok((env, sender))
      <==> FitsHeader(l, sender) && sender in peers && MadeBy(l, frame, sender, peers[sender].key, env)
  {
    hide Header, ParseHeader, Decode, Delivered, WrittenEnvelope;
    if Open(l, frame, peers) == Ok((env, sender)) {
      var end := ParseHeader(l, frame).value.1;
      HeaderExact(l, frame, sender, end);
      var body := frame[end..];
      var nonce: Nonce := body[..NONCE_LEN];
      var plaintext := l.decrypt(peers[sender].key, nonce, frame[..end], body[NONCE_LEN..]).value;
      assert frame == frame[..end] + body && body == nonce + body[NONCE_LEN..];
      assert frame == Frame(l, sender, peers[sender].key, nonce, plaintext);
    }
    if FitsHeader(l, sender) && sender in peers && MadeBy(l, frame, sender, peers[sender].key, env) {
      var nonce: Nonce, plaintext :|
        frame == Frame(l, sender, peers[sender].key, nonce, plaintext) && Decode(l.scan(plaintext), l.reals) == Ok(env);
      FrameOpens(l, sender, peers[sender].key, nonce, plaintext, peers);
    }
  }

  /** A sealed body under another header or nonce does not open at all: relabelling is caught. */
  lemma RelabelledFails(l: Libraries, sender: string, key: Key, nonce: Nonce, plaintext: Bytes,
                        claimed: string, nonce': Nonce, peers: map<string, Peer>)
    requires Lawful(l) && FitsHeader(l, claimed) && FitsHeader(l, sender)
    requires claimed != sender || nonce' != nonce
    ensures var body := l.encrypt(key, nonce, Header(l, sender), plaintext);
      Open(l, Header(l, claimed) + nonce' + body, peers)
        == if claimed in peers then Err(OpenFailed) else Err(UnknownPeer(claimed))
  {
    hide Decode, Delivered, WrittenEnvelope;
    var body := l.encrypt(key, nonce, Header(l, sender), plaintext);
    var f := Header(l, claimed) + nonce' + body;
    var n := |Header(l, claimed)|;
    assert f == Header(l, claimed) + (nonce' + body);
    HeaderRoundTrip(l, claimed, nonce' + body);
    assert f[n..] == nonce' + body && f[..n] == Header(l, claimed);
    assert f[n..][..NONCE_LEN] == nonce' && f[n..][NONCE_LEN..] == body;
    if claimed in peers {
      if Header(l, claimed) == Header(l, sender) {
        UniquelyDecodable(l, claimed, [], sender, []);
      }
      hide Header, ParseHeader;
      assert l.decrypt(peers[claimed].key, nonce', Header(l, claimed), body).None?;
    }
  }

  /** What a receiver says to a frame that it cannot even try to decrypt. */
  lemma OpenRefuses(l: Libraries, sender: string, body: Bytes, peers: map<string, Peer>)
    requires Lawful(l) && FitsHeader(l, sender)
    ensures var r := Open(l, Header(l, sender) + body, peers);
      && (sender !in peers ==> r == Err(UnknownPeer(sender)))
      && (sender in peers && |body| < NONCE_LEN ==> r == Err(MalformedFrame))
  {
    HeaderRoundTrip(l, sender, body);
    hide Header, ParseHeader, Decode, Lawful;
    var frame := Header(l, sender) + body;
    assert frame[|Header(l, sender)|..] == body;
  }

  // ---- Origins ----

  /** Re-rooting forgets the earlier root exactly on addresses that have a segment. */
  lemma RerootTwice(from: Address, first: string, second: string)
    ensures Reroot(Reroot(from, first), second) == Reroot(from, second) <==> from.segments != []
  {
    var once := Reroot(from, first);
    if from.segments != [] {
      assert once.segments[1..] == if |from.segments| >= 2 then from.segments[1..] else from.segments;
    } else {
      assert |Reroot(once, second).segments| == 2 && |Reroot(from, second).segments| == 1;
    }
  }

  /**
   The origin cannot be forged: whatever bytes arrive, an envelope that is let in was made by a
   holder of a registered peer's key, starts with that peer's namespace and no other, carries
   that peer's edge labels, and, if it has a destination, was authorised under this origin.
   */
  lemma OriginUnforgeable(l: Libraries, frame: Bytes, node: string,
                            peers: map<string, Peer>, authorize: Authorizer, e: Envelope)
    requires Lawful(l) && Inbound(l, frame, node, peers, authorize) == Ok(e)
    ensures exists sender, sent: Envelope ::
      && sender in peers && MadeBy(l, frame, sender, peers[sender].key, sent)
      && e.meta.from.segments[..1] == [Segment(sender, None)]
      && (forall i :: HasLabel(e.meta.provenance, i)
            <==> HasLabel(sent.meta.provenance, i) || HasLabel(peers[sender].inbound, i))
      && (sent.meta.to.Some? ==> authorize(e.meta.from, sent.meta.to.value))
  {
    hide Decode, ParseHeader, HasLabel, Union, Delivered, WrittenEnvelope;
    var (sent, sender) := Open(l, frame, peers).value;
    OpensIffMade(l, frame, peers, sent, sender);
    var edge := peers[sender].inbound;
    forall i ensures HasLabel(e.meta.provenance, i) <==> HasLabel(sent.meta.provenance, i) || HasLabel(edge, i) {
      UnionIsUnion(sent.meta.provenance, peers[sender].inbound, i);
    }
  }

  /** The authorizer is asked about destinations only. */
  predicate Allowed(authorize: Authorizer, origin: Address, to: Option<Address>) {
    to.Some? ==> authorize(origin, to.value)
  }

  /** `frame` was made by the registered peer `sender` from `sent`, and nobody objects. */
  ghost predicate Admissible(l: Libraries, frame: Bytes, peers: map<string, Peer>, authorize: Authorizer,
                             sender: string, sent: Envelope) {
    && FitsHeader(l, sender) && sender in peers && MadeBy(l, frame, sender, peers[sender].key, sent)
    && Allowed(authorize, Reroot(sent.meta.from, sender), sent.meta.to)
  }

  /**
   A frame is delivered exactly if a holder of a registered peer's key made it, and it has no
   destination or is authorised under the peer's origin.
   */
  lemma DeliveredExactly(l: Libraries, frame: Bytes, node: string, peers: map<string, Peer>, authorize: Authorizer)
    requires Lawful(l)
    ensures Inbound(l, frame, node, peers, authorize).Ok?
      <==> exists sender, sent :: Admissible(l, frame, peers, authorize, sender, sent)
  {
    hide Open, Reroot, FitsHeader, MadeBy, Union, Lawful;
    if Inbound(l, frame, node, peers, authorize).Ok? {
      var (sent, sender) := Open(l, frame, peers).value;
      OpensIffMade(l, frame, peers, sent, sender);
      assert Admissible(l, frame, peers, authorize, sender, sent);
    }
    if sender, sent :| Admissible(l, frame, peers, authorize, sender, sent) {
      OpensIffMade(l, frame, peers, sent, sender);
    }
  }

  /** An envelope from `x` for nobody. */
  const UNADDRESSED := Envelope(Meta(Flat("x"), None, "t", NO_PROVENANCE), Payload("T", Nil))

  lemma UnaddressedTravels(reals: Reals)
    ensures Transportable(UNADDRESSED) && RealsPrinted(UNADDRESSED.payload.value, reals)
  {
    hide Canonical, Print, Delivered, IsSpace;
    FlatRoundTrip("x");
    PlainWords();
    assert Canonical(UNADDRESSED.meta.from) && Print(UNADDRESSED.meta.from) == "x";
    assert Clean(Nil) && RealsPrinted(Nil, reals);
  }

  lemma PlainWords()
    ensures Plain("x") && Trimmed("x", IsSpace) && Trimmed("t", IsSpace) && NoMarkup("T")
  {
  }

  /** Nobody is asked about it: it is delivered even by a node that authorises nothing. */
  lemma UnaddressedIsNotAuthorized(l: Libraries, sender: string, key: Key, nonce: Nonce,
                                     node: string, peers: map<string, Peer>)
    requires Lawful(l) && FitsHeader(l, sender) && sender in peers && peers[sender].key == key
    ensures Inbound(l, Sealed(l, UNADDRESSED, sender, key, nonce), node, peers, (from, to) => false).Ok?
  {
    hide Open, Sealed, Reroot, FitsHeader, Union, Lawful, Transportable, RealsPrinted;
    UnaddressedTravels(l.reals);
    OpenSeal(l, UNADDRESSED, sender, key, nonce, peers);
  }

  /**
   Where a delivered envelope goes: if its address has more than one segment and starts with this
   node's name, to the rest of it, and otherwise to the address as it was sent.
   */
  lemma LocalAddress(l: Libraries, frame: Bytes, node: string,
                     peers: map<string, Peer>, authorize: Authorizer, e: Envelope)
    requires Inbound(l, frame, node, peers, authorize) == Ok(e)
    ensures Open(l, frame, peers).Ok?
    ensures var to := Open(l, frame, peers).value.0.meta.to;
      if to.Some? && |to.value.segments| > 1 && to.value.segments[0].name == node
      then e.meta.to.Some? && [to.value.segments[0]] + e.meta.to.value.segments == to.value.segments
      else e.meta.to == to
  {
    hide Open, Union;
  }

  // ---- From node to node ----

  /**
   A frame is transmitted exactly if the address has a leading segment that names a registered
   peer and there is a nonce; otherwise the error says what is missing, in this order.
   */
  lemma TransmitsExactly(l: Libraries, env: Envelope, node: string, peers: map<string, Peer>, nonce: Option<Nonce>)
    ensures var r := Outbound(l, env, node, peers, nonce);
      var addressed := env.meta.to.Some? && env.meta.to.value.segments != [];
      && (r.Ok? <==> addressed && env.meta.to.value.segments[0].name in peers && nonce.Some?)
      && (r == Err(NoDestination) <==> !addressed)
      && (forall name :: r == Err(NotRemote(name))
            <==> addressed && name == env.meta.to.value.segments[0].name && name !in peers)
      && (r == Err(NoNonce) <==> addressed && env.meta.to.value.segments[0].name in peers && nonce.None?)
  {
    hide Sealed;
  }

  /** Two nodes that registered each other with one key. */
  ghost predicate Linked(l: Libraries, a: string, peersA: map<string, Peer>, b: string, peersB: map<string, Peer>) {
    b in peersA && a in peersB && peersA[b].key == peersB[a].key && FitsHeader(l, a)
  }

  /**
   From node `a` to node `b`: what arrives has the same payload and thread, an origin rooted at
   `a`, the original labels and the edge's, and an address without `b` in front. It arrives
   exactly if `b` authorises the origin; otherwise nothing does.
   */
  lemma SendThenReceive(l: Libraries, env: Envelope, a: string, peersA: map<string, Peer>,
                        b: string, peersB: map<string, Peer>, authorize: Authorizer, nonce: Nonce)
    requires Lawful(l) && RealsPrinted(env.payload.value, l.reals) && Transportable(env)
    requires Linked(l, a, peersA, b, peersB)
    requires env.meta.to.Some? && env.meta.to.value.segments != [] && env.meta.to.value.segments[0].name == b
    ensures var out := Outbound(l, env, a, peersA, Some(nonce));
      && out.Ok? && out.value.0 == peersA[b].endpoint
      && var to := env.meta.to.value;
      var from := env.meta.from.segments;
      var origin := Address([Segment(a, None)] + if |from| == 1 then from else from[1..]);
      var r := Inbound(l, out.value.1, b, peersB, authorize);
      if !authorize(origin, to) then r == Err(Unauthorized)
      else
        && r.Ok? && r.value.payload == env.payload && r.value.meta.thread == env.meta.thread
        && r.value.meta.from == origin
        && r.value.meta.to == Some(if |to.segments| == 1 then to else Address(to.segments[1..]))
        && r.value.meta.provenance == Union(env.meta.provenance, peersB[a].inbound)
  {
    hide Header, ParseHeader, Decode, Delivered, WrittenEnvelope, RealsPrinted, Union, Open, Sealed;
    var to := env.meta.to.value;
    OpenSeal(l, env, a, peersA[b].key, nonce, peersB);
    FromHasSegments(env);
    var frame := Outbound(l, env, a, peersA, Some(nonce)).value.1;
    assert Open(l, frame, peersB) == Ok((env, a));
  }

  lemma FromHasSegments(env: Envelope)
    requires Transportable(env)
    ensures env.meta.from.segments != []
  {
  }
}
