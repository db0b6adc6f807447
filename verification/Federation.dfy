/**
 Federation: sealed frames between nodes, and what a node does with one it receives.

 XML text, UTF-8 and the cipher are libraries. They appear as functions under the laws in
 `Lawful`; the cipher is ideal. The nonce is an input, none if the random source fails, and so is
 whether a hook (transport or local delivery) accepts what it is given.
 */
module Federation {
  import opened Results
  import opened Text
  import opened Wire
  import opened Codec
  import opened CodecPrograms

  const NONCE_LEN := 24
  const VERSION: byte := 1
  const AUTH_PSK: byte := 0

  type Bytes = seq<byte>
  type Key = k: Bytes | |k| == 32 witness seq(32, i => 0)
  type Nonce = n: Bytes | |n| == NONCE_LEN witness seq(NONCE_LEN, i => 0)

  datatype Libraries = Libraries(
    render: seq<Event> -> Bytes,
    scan: Bytes -> seq<Event>,
    reals: Reals,
    utf8: string -> Bytes,
    fromUtf8: Bytes -> Option<string>,
    encrypt: (Key, Nonce, Bytes, Bytes) -> Bytes,
    decrypt: (Key, Nonce, Bytes, Bytes) -> Option<Bytes>)

  /** `BadEnvelope(Crash)` is a panic of the decoder, not an error that is returned. */
  datatype FederationError =
    | UnknownPeer(sender: string)
    | MalformedFrame
    | UnsupportedVersion(version: byte)
    | UnsupportedAuth(auth: byte)
    | OpenFailed
    | NoNonce
    | NoDestination
    | NotRemote(node: string)
    | Transport
    | Delivery
    | Unauthorized
    | BadEnvelope(error: CodecError)

  datatype Peer = Peer(namespace: string, endpoint: string, key: Key, inbound: Provenance)

  // ---- Frames ----

  function Header(l: Libraries, sender: string): Bytes {
    var s := l.utf8(sender);
    [VERSION, AUTH_PSK, |s| / 256 % 256, |s| % 256] + s
  }

  /** The two bytes of a length that is cut to 16 bits. */
  lemma Halves(n: nat)
    ensures n % 0x1_0000 / 256 == n / 256 % 256 && n % 0x1_0000 % 256 == n % 256
  {
    var q := n / 0x1_0000;
    var m := n % 0x1_0000;
    assert n == q * 0x1_0000 + m;
    assert n / 256 == q * 256 + m / 256;
  }

  method EncodeHeader(l: Libraries, sender: string) returns (h: Bytes)
    ensures h == Header(l, sender)
  {
    var s := l.utf8(sender);
    h := [];
    h := h + [VERSION];
    h := h + [AUTH_PSK];
    var len := |s| % 0x1_0000;
    Halves(|s|);
    h := h + [len / 256, len % 256];
    h := h + s;
  }

  /** The sender, and where the body starts. */
  function ParseHeader(l: Libraries, frame: Bytes): (r: Result<(string, nat), FederationError>)
    ensures r.Ok? ==> 4 <= r.value.1 <= |frame|
  {
    if |frame| < 4 then Err(MalformedFrame)
    else if frame[0] != VERSION then Err(UnsupportedVersion(frame[0]))
    else if frame[1] != AUTH_PSK then Err(UnsupportedAuth(frame[1]))
    else
      var end: nat := 4 + (frame[2] as int * 256 + frame[3] as int);
      if |frame| < end then Err(MalformedFrame)
      else
        var sender := l.fromUtf8(frame[4..end]);
        if sender.None? then Err(MalformedFrame) else Ok((sender.value, end))
  }

  function Sealed(l: Libraries, env: Envelope, sender: string, key: Key, nonce: Nonce): Bytes {
    Header(l, sender) + nonce + l.encrypt(key, nonce, Header(l, sender), l.render(WrittenEnvelope(env)))
  }

  method Seal(l: Libraries, env: Envelope, sender: string, key: Key, nonce: Option<Nonce>)
    returns (r: Result<Bytes, FederationError>)
    ensures r == if nonce.None? then Err(NoNonce) else Ok(Sealed(l, env, sender, key, nonce.value))
  {
    var written := EncodeEnvelope(env);
    var plaintext := l.render(written);
    var header := EncodeHeader(l, sender);
    if nonce.None? {
      return Err(NoNonce);
    }
    var ct := l.encrypt(key, nonce.value, header, plaintext);
    var frame := header;
    frame := frame + nonce.value;
    frame := frame + ct;
    r := Ok(frame);
  }

  /** The envelope and its authenticated sender. */
  function Open(l: Libraries, frame: Bytes, peers: map<string, Peer>): Result<(Envelope, string), FederationError> {
    var (sender, bodyOff) :- ParseHeader(l, frame);
    if sender !in peers then Err(UnknownPeer(sender))
    else
      var body := frame[bodyOff..];
      if |body| < NONCE_LEN then Err(MalformedFrame)
      else
        var plaintext := l.decrypt(peers[sender].key, body[..NONCE_LEN], frame[..bodyOff], body[NONCE_LEN..]);
        if plaintext.None? then Err(OpenFailed)
        else
          var env := Decode(l.scan(plaintext.value), l.reals);
          if env.Ok? then Ok((env.value, sender)) else Err(BadEnvelope(env.error))
  }

  // ---- The node ----

  class PeerDirectory {
    var peers: map<string, Peer>

    constructor ()
      ensures peers == map[]
    {
      peers := map[];
    }

    method Register(peer: Peer)
      modifies this
      ensures peers == old(peers)[peer.namespace := peer]
    {
      peers := peers[peer.namespace := peer];
    }

    function Get(namespace: string): Option<Peer>
      reads this
    {
      if namespace in peers then Some(peers[namespace]) else None
    }

    predicate IsRemote(namespace: string)
      reads this
    {
      namespace in peers
    }
  }

  /** The leading segment becomes `namespace`; a bare agent gets it in front. */
  function Reroot(from: Address, namespace: string): Address {
    var root := [Segment(namespace, None)];
    Address(root + (if |from.segments| >= 2 then from.segments[1..] else from.segments))
  }

  method RerootOrigin(from: Address, namespace: string) returns (a: Address)
    ensures a == Reroot(from, namespace)
  {
    var segments := [Segment(namespace, None)];
    if |from.segments| >= 2 {
      segments := segments + from.segments[1..];
    } else {
      segments := segments + from.segments;
    }
    a := Address(segments);
  }

  type Authorizer = (Address, Address) -> bool

  function Edge(peers: map<string, Peer>, sender: string): Provenance {
    if sender in peers then peers[sender].inbound else NO_PROVENANCE
  }

  function Stripped(to: Address, node: string): Address {
    if |to.segments| > 1 && to.segments[0].name == node then Address(to.segments[1..]) else to
  }

  /** What a node delivers for an opened envelope. */
  function Admitted(env: Envelope, sender: string, node: string, peers: map<string, Peer>, authorize: Authorizer)
    : Result<Envelope, FederationError>
  {
    var m := env.meta;
    var from := Reroot(m.from, sender);
    if m.to.Some? && !authorize(from, m.to.value) then Err(Unauthorized)
    else
      var to := if m.to.Some? then Some(Stripped(m.to.value, node)) else None;
      Ok(env.(meta := Meta(from, to, m.thread, Union(m.provenance, Edge(peers, sender)))))
  }

  function Inbound(l: Libraries, frame: Bytes, node: string, peers: map<string, Peer>, authorize: Authorizer)
    : Result<Envelope, FederationError>
  {
    var (env, sender) :- Open(l, frame, peers);
    Admitted(env, sender, node, peers, authorize)
  }

  /** Where a frame goes and which frame it is. */
  function Outbound(l: Libraries, env: Envelope, node: string, peers: map<string, Peer>, nonce: Option<Nonce>)
    : Result<(string, Bytes), FederationError>
  {
    if env.meta.to.None? || env.meta.to.value.segments == [] then Err(NoDestination)
    else
      var remote := env.meta.to.value.segments[0].name;
      if remote !in peers then Err(NotRemote(remote))
      else if nonce.None? then Err(NoNonce)
      else Ok((peers[remote].endpoint, Sealed(l, env, node, peers[remote].key, nonce.value)))
  }

  /** The server. `transmitted` and `delivered` list what its two hooks were given. */
  class FederationServer {
    const node: string
    const directory: PeerDirectory
    const authorize: Authorizer
    var transmitted: seq<(string, Bytes)>
    var delivered: seq<Envelope>

    constructor (node: string, directory: PeerDirectory, authorize: Authorizer)
      ensures this.node == node && this.directory == directory && this.authorize == authorize
      ensures transmitted == [] && delivered == []
    {
      this.node, this.directory, this.authorize := node, directory, authorize;
      transmitted, delivered := [], [];
    }

    method Send(l: Libraries, env: Envelope, nonce: Option<Nonce>, accepts: bool)
      returns (r: Result<(), FederationError>)
      modifies this`transmitted
      ensures var out := Outbound(l, env, node, directory.peers, nonce);
        && transmitted == old(transmitted) + (if out.Ok? then [out.value] else [])
        && r == if out.Err? then Err(out.error) else if accepts then Ok(()) else Err(Transport)
    {
      if env.meta.to.None? {
        return Err(NoDestination);
      }
      var to := env.meta.to.value;
      if to.segments == [] {
        return Err(NoDestination);
      }
      var peer := directory.Get(to.segments[0].name);
      if peer.None? {
        return Err(NotRemote(to.segments[0].name));
      }
      var frame :- Seal(l, env, node, peer.value.key, nonce);
      transmitted := transmitted + [(peer.value.endpoint, frame)];
      r := if accepts then Ok(()) else Err(Transport);
    }

    method Receive(l: Libraries, frame: Bytes, accepts: bool) returns (r: Result<(), FederationError>)
      modifies this`delivered
      ensures var out := Inbound(l, frame, node, directory.peers, authorize);
        && delivered == old(delivered) + (if out.Ok? then [out.value] else [])
        && r == if out.Err? then Err(out.error) else if accepts then Ok(()) else Err(Delivery)
    {
      var parsed := Open(l, frame, directory.peers);
      if parsed.Err? {
        return Err(parsed.error);
      }
      var (env, sender) := parsed.value;
      var from := RerootOrigin(env.meta.from, sender);
      env := env.(meta := env.meta.(from := from));
      var peer := directory.Get(sender);
      var edge := if peer.Some? then peer.value.inbound else NO_PROVENANCE;
      env := env.(meta := env.meta.(provenance := Union(env.meta.provenance, edge)));
      if env.meta.to.Some? {
        if !authorize(env.meta.from, env.meta.to.value) {
          return Err(Unauthorized);
        }
      }
      if env.meta.to.Some? {
        var to := env.meta.to.value;
        if |to.segments| > 1 && to.segments[0].name == node {
          env := env.(meta := env.meta.(to := Some(Address(to.segments[1..]))));
        }
      }
      delivered := delivered + [env];
      r := if accepts then Ok(()) else Err(Delivery);
    }
  }
}
