/** The wire types: addresses, provenance sets, payload values and envelopes. */
module Wire {
  import opened Results
  import opened Text

  // ---- Addresses ----

  datatype Segment = Segment(name: string, key: Option<string>)

  datatype Address = Address(segments: seq<Segment>)

  datatype AddressError = Empty | EmptySegment | Unbalanced | EmptyName

  function Flat(name: string): Address {
    Address([Segment(name, None)])
  }

  function PrintSegment(s: Segment): string {
    if s.key.Some? then s.name + "[" + s.key.value + "]" else s.name
  }

  /** Segments, each followed by a dot. */
  function PrintAll(segments: seq<Segment>): string {
    if segments == [] then ""
    else PrintAll(segments[..|segments| - 1]) + PrintSegment(segments[|segments| - 1]) + "."
  }

  /** Segments with dots in between. */
  function Print(a: Address): string {
    var n := |a.segments|;
    if n == 0 then "" else PrintAll(a.segments[..n - 1]) + PrintSegment(a.segments[n - 1])
  }

  /** The position of the first `c`, or the length. */
  function Find(s: string, c: char): (i: nat)
    ensures i <= |s|
    ensures i < |s| ==> s[i] == c
    ensures c !in s[..i]
  {
    if s == "" || s[0] == c then 0
    else
      assert s[..1 + Find(s[1..], c)] == [s[0]] + s[1..][..Find(s[1..], c)];
      1 + Find(s[1..], c)
  }

  function ParseSegment(raw: string): Result<Segment, AddressError> {
    if raw == "" then Err(EmptySegment)
    else
      var open := Find(raw, '[');
      if open == |raw| then Ok(Segment(raw, None))
      else if open == 0 then Err(EmptyName)
      else if raw[|raw| - 1] != ']' then Err(Unbalanced)
      else Ok(Segment(raw[..open], Some(raw[open + 1..|raw| - 1])))
  }

  /** The parser's scan of `s` at bracket depth `depth`, with the text of the current segment. */
  function Scan(s: string, depth: nat, current: string, segments: seq<Segment>): Result<Address, AddressError>
    decreases |s|
  {
    if s == "" then
      if depth != 0 then Err(Unbalanced)
      else
        var seg := ParseSegment(current);
        if seg.Ok? then Ok(Address(segments + [seg.value])) else Err(seg.error)
    else if s[0] == '[' then Scan(s[1..], depth + 1, current + [s[0]], segments)
    else if s[0] == ']' then
      if depth == 0 then Err(Unbalanced) else Scan(s[1..], depth - 1, current + [s[0]], segments)
    else if s[0] == '.' && depth == 0 then
      var seg := ParseSegment(current);
      if seg.Ok? then Scan(s[1..], 0, "", segments + [seg.value]) else Err(seg.error)
    else Scan(s[1..], depth, current + [s[0]], segments)
  }

  function Parse(s: string): Result<Address, AddressError> {
    if s == "" then Err(Empty) else Scan(s, 0, "", [])
  }

  method ParseAddress(s: string) returns (r: Result<Address, AddressError>)
    ensures r == Parse(s)
  {
    if s == "" {
      return Err(Empty);
    }
    var segments: seq<Segment> := [];
    var depth := 0;
    var current := "";
    for i := 0 to |s|
      invariant depth >= 0
      invariant Scan(s[i..], depth, current, segments) == Parse(s)
    {
      var ch := s[i];
      assert s[i..][1..] == s[i + 1..];
      match ch {
        case '[' =>
          depth := depth + 1;
          current := current + [ch];
        case ']' =>
          depth := depth - 1;
          if depth < 0 {
            return Err(Unbalanced);
          }
          current := current + [ch];
        case _ =>
          if ch == '.' && depth == 0 {
            var seg := ParseSegment(current);
            if seg.Err? {
              return Err(seg.error);
            }
            segments := segments + [seg.value];
            current := "";
          } else {
            current := current + [ch];
          }
      }
    }
    assert s[|s|..] == "";
    if depth != 0 {
      return Err(Unbalanced);
    }
    var seg := ParseSegment(current);
    if seg.Err? {
      return Err(seg.error);
    }
    r := Ok(Address(segments + [seg.value]));
  }

  method PrintAddress(a: Address) returns (s: string)
    ensures s == Print(a)
  {
    s := "";
    for i := 0 to |a.segments|
      invariant s == Print(Address(a.segments[..i]))
    {
      assert a.segments[..i + 1][..i] == a.segments[..i];
      if i > 0 {
        assert a.segments[..i][..i - 1] == a.segments[..i - 1];
        s := s + ".";
        assert s == PrintAll(a.segments[..i]);
      }
      s := s + a.segments[i].name;
      if a.segments[i].key.Some? {
        s := s + "[" + a.segments[i].key.value + "]";
      }
      assert s == PrintAll(a.segments[..i]) + PrintSegment(a.segments[i]);
    }
    assert a.segments[..|a.segments|] == a.segments;
  }

  /** The position of the first segment with a key, or the length. */
  function FirstKeyed(segments: seq<Segment>): (i: nat)
    ensures i <= |segments|
    ensures i < |segments| ==> segments[i].key.Some?
    ensures forall j :: 0 <= j < i ==> segments[j].key.None?
  {
    if segments == [] || segments[0].key.Some? then 0 else 1 + FirstKeyed(segments[1..])
  }

  /** The first segment with a key, else the first one. */
  function OrganismIndex(a: Address): nat {
    var i := FirstKeyed(a.segments);
    if i < |a.segments| then i else 0
  }

  /** The listener an address routes to. */
  function Organism(a: Address): Option<string> {
    if a.segments == [] then None else Some(a.segments[OrganismIndex(a)].name)
  }

  /** The name routing and peer checks use. */
  function OrganismOrEmpty(a: Address): string {
    if Organism(a).Some? then Organism(a).value else ""
  }

  // ---- Provenance ----

  /** A set of 128 labels in two words; the pipeline carries and unites such sets, no more. */
  datatype Provenance = Provenance(lo: u64, hi: u64)

  const NO_PROVENANCE := Provenance(0, 0)

  function BitOr(a: nat, b: nat): nat
    decreases a + b
  {
    if a == 0 then b else if b == 0 then a
    else 2 * BitOr(a / 2, b / 2) + (if a % 2 == 1 || b % 2 == 1 then 1 else 0)
  }

  predicate Bit(a: nat, i: nat) {
    if i == 0 then a % 2 == 1 else Bit(a / 2, i - 1)
  }

  function Pow2(n: nat): nat {
    if n == 0 then 1 else 2 * Pow2(n - 1)
  }

  lemma {:induction false} BitOrBound(a: nat, b: nat, n: nat)
    requires a < Pow2(n) && b < Pow2(n)
    ensures BitOr(a, b) < Pow2(n)
    decreases n
  {
    if a != 0 && b != 0 {
      assert n > 0;
      BitOrBound(a / 2, b / 2, n - 1);
    }
  }

  lemma Pow64()
    ensures Pow2(64) == U64_LIMIT
  {
    assert Pow2(16) == 0x1_0000 by { assert Pow2(8) == 0x100; Pow2Add(8, 8); }
    assert Pow2(32) == 0x1_0000_0000 by { Pow2Add(16, 16); }
    Pow2Add(32, 32);
  }

  lemma {:induction false} Pow2Add(m: nat, n: nat)
    ensures Pow2(m + n) == Pow2(m) * Pow2(n)
    decreases m
  {
    if m > 0 {
      Pow2Add(m - 1, n);
    }
  }

  function OrWord(a: u64, b: u64): u64 {
    Pow64();
    BitOrBound(a, b, 64);
    BitOr(a, b)
  }

  function Union(p: Provenance, q: Provenance): Provenance {
    Provenance(OrWord(p.lo, q.lo), OrWord(p.hi, q.hi))
  }

  predicate HasLabel(p: Provenance, i: nat) {
    if i < 64 then Bit(p.lo, i) else i < 128 && Bit(p.hi, i - 64)
  }

  lemma BitOrHalves(a: nat, b: nat)
    requires a != 0 && b != 0
    ensures BitOr(a, b) / 2 == BitOr(a / 2, b / 2)
    ensures BitOr(a, b) % 2 == 1 <==> a % 2 == 1 || b % 2 == 1
  {
    var low := if a % 2 == 1 || b % 2 == 1 then 1 else 0;
    assert BitOr(a, b) == 2 * BitOr(a / 2, b / 2) + low;
  }

  lemma {:induction false} BitOfOr(a: nat, b: nat, i: nat)
    ensures Bit(BitOr(a, b), i) <==> Bit(a, i) || Bit(b, i)
    decreases i
  {
    if a == 0 || b == 0 {
      NoBitOfZero(i);
    } else {
      BitOrHalves(a, b);
      if i > 0 {
        hide BitOr;
        BitOfOr(a / 2, b / 2, i - 1);
      }
    }
  }

  lemma {:induction false} NoBitOfZero(i: nat)
    ensures !Bit(0, i)
  {
    if i > 0 {
      NoBitOfZero(i - 1);
    }
  }

  /** Uniting is set union on labels. */
  lemma UnionIsUnion(p: Provenance, q: Provenance, i: nat)
    ensures HasLabel(Union(p, q), i) <==> HasLabel(p, i) || HasLabel(q, i)
  {
    if i < 64 {
      BitOfOr(p.lo, q.lo, i);
    } else if i < 128 {
      BitOfOr(p.hi, q.hi, i - 64);
    }
  }

  // ---- Payloads and envelopes ----

  /** A decoded payload value. A real number is carried as its printed text. */
  datatype Value =
    | Rec(fields: seq<Field>)
    | Seq(items: seq<Value>)
    | Str(text: string)
    | Uint(u: u64)
    | Sint(i: i64)
    | Real(digits: string)
    | Boolean(b: bool)
    | Blob(bytes: seq<byte>)
    | Nil

  datatype Field = Field(name: string, value: Value)

  datatype Payload = Payload(tag: string, value: Value)

  datatype Meta = Meta(from: Address, to: Option<Address>, thread: string, provenance: Provenance)

  datatype Envelope = Envelope(meta: Meta, payload: Payload)
}
