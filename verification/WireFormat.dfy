/**
 The wire format in concrete terms: what the parts of a document and a frame look like, what is
 made of documents that other programs write, and which errors there are.
 */
module WireFormat {
  import opened Results
  import opened Text
  import opened Hex
  import opened Wire
  import opened Codec
  import opened CodecTheorems
  import opened EnvelopeTheorems
  import opened Federation

  // ---- Numbers ----

  /** Numbers are written in decimal notation, most significant digit first, without leading zeros. */
  lemma Decimal(n: nat, d: nat)
    requires d < 10
    ensures PrintNat(d) == ["0123456789"[d]]
    ensures n > 0 ==> PrintNat(10 * n + d) == PrintNat(n) + ["0123456789"[d]]
    ensures n > 0 ==> PrintInt(0 - n as int) == "-" + PrintNat(n)
  {
    assert (10 * n + d) / 10 == n && (10 * n + d) % 10 == d;
  }

  lemma DecimalSamples()
    ensures PrintNat(120) == "120" && PrintInt(-5) == "-5" && PrintInt(7) == "7"
  {
    hide PrintNat;
    Decimal(0, 1);
    Decimal(1, 2);
    Decimal(12, 0);
    Decimal(5, 5);
    Decimal(0, 7);
  }

  /** What is read as a number: an optional sign, digits, nothing else, and within 64 bits. */
  lemma NumbersRead()
    ensures ParseUnsigned("7", 10, U64_LIMIT) == Some(7) && ParseUnsigned("+7", 10, U64_LIMIT) == Some(7)
    ensures ParseUnsigned("-7", 10, U64_LIMIT) == None && ParseUnsigned("", 10, U64_LIMIT) == None
    ensures ParseUnsigned("+", 10, U64_LIMIT) == None && ParseUnsigned("7a", 10, U64_LIMIT) == None
    ensures ParseSigned("7") == Some(7) && ParseSigned("+7") == Some(7) && ParseSigned("-7") == Some(-7)
    ensures ParseSigned("-") == None && ParseSigned("") == None && ParseSigned("--7") == None
  {
    assert "+7"[1..] == "7" && "-7"[1..] == "7" && "--7"[1..] == "-7" && "+"[1..] == "" && "-"[1..] == "";
    assert "-7"[..1] == "-" && "7a"[1] == 'a';
  }

  /** The first numbers that do not fit. */
  lemma NumberLimits()
    ensures ParseUnsigned(PrintNat(0xFFFF_FFFF_FFFF_FFFF), 10, U64_LIMIT) == Some(0xFFFF_FFFF_FFFF_FFFF)
    ensures ParseUnsigned(PrintNat(0x1_0000_0000_0000_0000), 10, U64_LIMIT) == None
    ensures ParseSigned(PrintInt(0x7FFF_FFFF_FFFF_FFFF)) == Some(0x7FFF_FFFF_FFFF_FFFF)
    ensures ParseSigned(PrintInt(0x8000_0000_0000_0000)) == None
    ensures ParseSigned(PrintInt(-0x8000_0000_0000_0000)) == Some(-0x8000_0000_0000_0000)
    ensures ParseSigned(PrintInt(-0x8000_0000_0000_0001)) == None
  {
    hide PrintNat, DigitsValue;
    DecimalRead(0xFFFF_FFFF_FFFF_FFFF);
    DecimalRead(0x1_0000_0000_0000_0000);
    DecimalRead(0x7FFF_FFFF_FFFF_FFFF);
    DecimalRead(0x8000_0000_0000_0000);
    DecimalRead(0x8000_0000_0000_0001);
  }

  lemma DecimalRead(n: nat)
    ensures ParseUnsigned(PrintNat(n), 10, U64_LIMIT) == if n < U64_LIMIT then Some(n) else None
    ensures ParseSigned(PrintNat(n)) == if n < I64_LIMIT then Some(n) else None
    ensures ParseSigned("-" + PrintNat(n)) == if n <= I64_LIMIT then Some(0 - n as int) else None
  {
    hide PrintNat, DigitsValue, IsSpace;
    PrintNatDigits(n);
    PrintNatTrimmed(n);
    assert ("-" + PrintNat(n))[1..] == PrintNat(n);
  }

  /** A text of this many zeros. */
  function Zeros(n: nat): (s: string)
    ensures |s| == n
  {
    seq(n, _ => '0')
  }

  lemma {:induction false} PaddedHex(n: nat, width: nat)
    requires n < 16
    ensures PrintHex(n, width + 1) == Zeros(width) + ["0123456789abcdef"[n]]
  {
    if width > 0 {
      PaddedHex(0, width - 1);
      assert Zeros(width) == Zeros(width - 1) + "0";
    } else {
      assert Zeros(0) == "" && PrintHex(n / 16, 0) == "";
    }
  }

  /** Hexadecimal notation: lower case, most significant digit first, padded with zeros. */
  lemma HexSamples()
    ensures PrintHex(0xA5, 2) == "a5" && PrintHex(1, 2) == "01"
    ensures PrintHex(10, 16) == Zeros(15) + "a" && PrintHex(0xAB, 16) == Zeros(14) + "ab"
  {
    hide PrintHex;
    PaddedHex(10, 15);
    PaddedHex(10, 14);
    HexStep(0xAB, 15);
    PaddedHex(10, 0);
    HexStep(0xA5, 1);
    PaddedHex(1, 1);
    assert Zeros(0) == "" && Zeros(1) == "0";
  }

  lemma BytesSample()
    ensures ToHex([0xA5, 1]) == "a501"
  {
    hide PrintHex;
    HexSamples();
    var bytes: seq<byte> := [0xA5, 1];
    assert bytes[1..] == [1] && bytes[1..][1..] == [];
    assert ToHex([]) == "" && ToHex(bytes[1..]) == PrintHex(1, 2) + ToHex([]);
  }

  lemma HexStep(n: nat, width: nat)
    ensures PrintHex(n, width + 1) == PrintHex(n / 16, width) + ["0123456789abcdef"[n % 16]]
  {
  }

  /** The first and the last digits, in either case, and the characters next to them. */
  lemma HexDigits()
    ensures DigitValue('0') == Some(0) && DigitValue('9') == Some(9)
    ensures DigitValue('a') == Some(10) && DigitValue('f') == Some(15)
    ensures DigitValue('A') == Some(10) && DigitValue('F') == Some(15)
    ensures forall c :: c in "/:@G`g+-. " ==> DigitValue(c) == None
  {
  }

  /** Two digits of either case make a byte; so does a plus sign and one digit; anything else does not. */
  lemma HexPair(c: char, d: char, blanks: string)
    requires Width(c) == 1 && Width(d) == 1 && !IsSpace(c) && !IsSpace(d) && AllSpace(blanks, IsSpace)
    ensures var high, low := DigitValue(c), DigitValue(d);
      FromHex(blanks + [c, d] + blanks)
        == if high.Some? && low.Some? then Ok([16 * high.value + low.value])
           else if c == '+' && low.Some? then Ok([low.value]) else Err(NotHex)
  {
    hide IsSpace, DigitValue, Trim, CharsIn, HexPairs;
    var s := [c, d];
    TrimCore(blanks, s, blanks, IsSpace);
    assert s[1..] == [d] && [d][1..] == "";
    TwoBytes(c, d);
    PairValue(c, d);
  }

  lemma TwoBytes(c: char, d: char)
    requires Width(c) == 1 && Width(d) == 1
    ensures ByteLen([c, d]) == 2 && CharsIn([c, d], 2) == Some(2)
    ensures HexPairs([c, d])
      == if ParseUnsigned([c, d], 16, 256).Some? then Ok([ParseUnsigned([c, d], 16, 256).value]) else Err(NotHex)
  {
    var s := [c, d];
    assert s[1..] == [d] && [d][1..] == "" && s[..2] == s && s[2..] == "";
    hide ParseUnsigned;
    assert CharsIn("", 0) == Some(0) && ByteLen("") == 0;
    assert CharsIn([d], 1) == Some(1) && ByteLen([d]) == 1;
    assert CharsIn(s, 2) == Some(2);
    NoPairs();
    if ParseUnsigned(s, 16, 256).Some? {
      var b: byte := ParseUnsigned(s, 16, 256).value;
      assert [b] + [] == [b];
    }
  }

  lemma PairValue(c: char, d: char)
    ensures var high, low := DigitValue(c), DigitValue(d);
      ParseUnsigned([c, d], 16, 256)
        == if high.Some? && low.Some? then Some(16 * high.value + low.value)
           else if c == '+' && low.Some? then Some(low.value) else None
  {
    var s := [c, d];
    assert s[..1] == [c] && s[1..] == [d];
    assert DigitsValue([c], 16) == DigitValue(c) && DigitsValue([d], 16) == DigitValue(d);
    assert c == '+' ==> DigitValue(c) == None;
  }

  // ---- Documents ----

  function V(kind: string): Event {
    Start("v", [Attr("k", kind)])
  }

  /** One value of every kind, as it is written. */
  lemma WrittenKinds()
    ensures Written(Str("a b")) == [V("text"), Chars("a b"), End("v")]
    ensures Written(Uint(120)) == [V("uint"), Chars("120"), End("v")]
    ensures Written(Sint(-5)) == [V("sint"), Chars("-5"), End("v")]
    ensures Written(Real("1.5")) == [V("real"), Chars("1.5"), End("v")]
    ensures Written(Boolean(true)) == [V("bool"), Chars("true"), End("v")]
    ensures Written(Boolean(false)) == [V("bool"), Chars("false"), End("v")]
    ensures Written(Blob([0xA5, 1])) == [V("blob"), Chars("a501"), End("v")]
    ensures Written(Nil) == [Void("v", [Attr("k", "nil")])]
  {
    hide PrintNat, ToHex;
    DecimalSamples();
    BytesSample();
  }

  /** A sequence, and a record: fields in their order, each with its name. */
  lemma WrittenSeq()
    ensures Written(Seq([Nil, Nil]))
      == [V("seq"), Void("v", [Attr("k", "nil")]), Void("v", [Attr("k", "nil")]), End("v")]
  {
    var nils := [Nil, Nil];
    assert nils[1..] == [Nil] && [Nil][1..] == [];
    assert WrittenItems([Nil]) == Written(Nil);
    assert WrittenItems(nils) == Written(Nil) + Written(Nil);
  }

  lemma WrittenRec()
    ensures Written(Rec([Field("a", Nil), Field("b", Str("x"))]))
      == [V("rec"),
          Start("f", [Attr("n", "a")]), Void("v", [Attr("k", "nil")]), End("f"),
          Start("f", [Attr("n", "b")]), V("text"), Chars("x"), End("v"), End("f"),
          End("v")]
  {
    var a, b := Field("a", Nil), Field("b", Str("x"));
    assert [a, b][1..] == [b] && [b][1..] == [];
    assert WrittenFields([b]) == WrittenField(b);
    assert WrittenFields([a, b]) == WrittenField(a) + WrittenField(b);
  }

  const SAMPLE_META :=
    Meta(Address([Segment("hub", None), Segment("bob", Some("k.1"))]), Some(Flat("amy")), "t", Provenance(10, 0xAB))

  lemma WrittenSampleMeta()
    ensures WrittenMeta(SAMPLE_META)
      == [Start("from", []), Chars("hub.bob[k.1]"), End("from"),
          Start("to", []), Chars("amy"), End("to"),
          Start("thread", []), Chars("t"), End("thread"),
          Start("provenance", []), Chars("00000000000000ab000000000000000a"), End("provenance")]
  {
    SampleTexts();
    hide Print, ProvenanceHex;
  }

  lemma SampleTexts()
    ensures Print(SAMPLE_META.from) == "hub.bob[k.1]" && Print(Flat("amy")) == "amy"
    ensures ProvenanceHex(SAMPLE_META.provenance) == "00000000000000ab000000000000000a"
  {
    hide PrintHex, Zeros;
    SampleProvenance();
    hide ProvenanceHex;
    var hub, bob := Segment("hub", None), Segment("bob", Some("k.1"));
    assert [hub, bob][..1] == [hub] && [hub][..0] == [];
    assert PrintAll([hub]) == "hub.";
  }

  lemma SampleProvenance()
    ensures ProvenanceHex(SAMPLE_META.provenance) == "00000000000000ab000000000000000a"
  {
    HexSamples();
    hide PrintHex, ToHex, Print, PrintAll;
    assert Zeros(14) == "00000000000000" && Zeros(15) == "000000000000000";
  }

  lemma WrittenSample()
    ensures WrittenEnvelope(Envelope(SAMPLE_META, Payload("T", Nil)))
      == [Start("message", [Attr("xmlns", "https://xml-pipeline.org/ns/envelope/v1")]), Start("meta", []),
          Start("from", []), Chars("hub.bob[k.1]"), End("from"),
          Start("to", []), Chars("amy"), End("to"),
          Start("thread", []), Chars("t"), End("thread"),
          Start("provenance", []), Chars("00000000000000ab000000000000000a"), End("provenance"),
          End("meta"), Start("payload", [Attr("tag", "T")]),
          Void("v", [Attr("k", "nil")]),
          End("payload"), End("message")]
  {
    hide WrittenMeta;
    WrittenSampleMeta();
  }

  // ---- Documents of other writers ----

  /** An element inside the meta part, with attributes nobody looks at. */
  datatype Part = Part(name: string, attrs: seq<Attr>, text: string)

  function PartEvents(parts: seq<Part>): seq<Event> {
    if parts == [] then []
    else [Start(parts[0].name, parts[0].attrs), Chars(parts[0].text), End(parts[0].name)] + PartEvents(parts[1..])
  }

  function PartsRead(m: MetaSoFar, parts: seq<Part>): Result<MetaSoFar, CodecError>
    decreases |parts|
  {
    if parts == [] then Ok(m)
    else
      var m' :- SetField(m, parts[0].name, parts[0].text);
      PartsRead(m', parts[1..])
  }

  ghost predicate NoMeta(parts: seq<Part>) {
    forall i :: 0 <= i < |parts| ==> parts[i].name != "meta"
  }

  lemma PartHere(evs: seq<Event>, i: nat, m: MetaSoFar, part: Part)
    requires part.name != "meta"
    requires Here(evs, i, [Start(part.name, part.attrs), Chars(part.text), End(part.name)])
    ensures var m' := SetField(m, part.name, part.text);
      MetaFrom(evs, i, m, None) == if m'.Ok? then MetaFrom(evs, i + 3, m'.value, None) else Err(m'.error)
  {
    hide SetField;
    var part3 := [Start(part.name, part.attrs), Chars(part.text), End(part.name)];
    var here := evs[i..i + 3];
    assert here[0] == evs[i] && here[1] == evs[i + 1] && here[2] == evs[i + 2];
    assert At(evs, i) == part3[0] && At(evs, i + 1) == part3[1] && At(evs, i + 2) == part3[2];
    assert MetaFrom(evs, i, m, None) == MetaFrom(evs, i + 1, m, Some(part.name));
    MetaChars(evs, i + 1, m, part.name, part.text);
    if SetField(m, part.name, part.text).Ok? {
      MetaEnd(evs, i + 2, SetField(m, part.name, part.text).value, part.name);
    }
  }

  lemma {:induction false} PartsHere(evs: seq<Event>, i: nat, m: MetaSoFar, parts: seq<Part>)
    requires NoMeta(parts) && Here(evs, i, PartEvents(parts) + [End("meta")])
    ensures PartsRead(m, parts).Ok?
      ==> MetaFrom(evs, i, m, None) == Ok((PartsRead(m, parts).value, i + 3 * |parts| + 1))
    ensures PartsRead(m, parts).Err? ==> MetaFrom(evs, i, m, None) == Err(PartsRead(m, parts).error)
    decreases |parts|
  {
    hide SetField, MetaFrom, Here;
    if parts == [] {
      assert [] + [End("meta")] == [End("meta")];
      HereOne(evs, i, End("meta"));
      MetaEnd(evs, i, m, "meta");
    } else {
      var first := [Start(parts[0].name, parts[0].attrs), Chars(parts[0].text), End(parts[0].name)];
      var rest := PartEvents(parts[1..]) + [End("meta")];
      assert PartEvents(parts) + [End("meta")] == first + rest;
      HereSplit(evs, i, first, rest);
      PartHere(evs, i, m, parts[0]);
      var m' := SetField(m, parts[0].name, parts[0].text);
      if m'.Ok? {
        PartsHere(evs, i + 3, m'.value, parts[1..]);
      }
    }
  }

  /** `i` is the last part of this name. */
  ghost predicate LastPart(parts: seq<Part>, name: string, i: nat) {
    i < |parts| && parts[i].name == name && forall j :: i < j < |parts| ==> parts[j].name != name
  }

  ghost predicate Absent(parts: seq<Part>, name: string) {
    forall i :: 0 <= i < |parts| ==> parts[i].name != name
  }

  /** What a part has to be to be read. */
  predicate Readable(part: Part) {
    var s := Trim(part.text, IsSpace);
    && (part.name == "from" || part.name == "to" ==> Parse(s).Ok?)
    && (part.name == "provenance" ==> ProvenanceOfHex(s).Ok?)
  }

  /** What the parts say about origin, destination, thread and labels: the last of a name counts. */
  ghost predicate Says(m: MetaSoFar, parts: seq<Part>, r: MetaSoFar) {
    && (Absent(parts, "from") ==> r.from == m.from)
    && (Absent(parts, "to") ==> r.to == m.to)
    && (Absent(parts, "thread") ==> r.thread == m.thread)
    && (Absent(parts, "provenance") ==> r.provenance == m.provenance)
    && forall i :: 0 <= i < |parts| && LastPart(parts, parts[i].name, i) ==> SaysPart(r, parts[i])
  }

  predicate SaysPart(r: MetaSoFar, part: Part) {
    var s := Trim(part.text, IsSpace);
    && (part.name == "from" ==> r.from.Some? && Parse(s) == Ok(r.from.value))
    && (part.name == "to" ==> r.to.Some? && Parse(s) == Ok(r.to.value))
    && (part.name == "thread" ==> r.thread == Some(s))
    && (part.name == "provenance" ==> ProvenanceOfHex(s) == Ok(r.provenance))
  }

  lemma FirstPart(m: MetaSoFar, part: Part)
    ensures var r := SetField(m, part.name, part.text);
      && (r.Ok? <==> Readable(part))
      && (r.Ok? ==>
            && SaysPart(r.value, part)
            && (part.name != "from" ==> r.value.from == m.from) && (part.name != "to" ==> r.value.to == m.to)
            && (part.name != "thread" ==> r.value.thread == m.thread)
            && (part.name != "provenance" ==> r.value.provenance == m.provenance))
  {
    hide Parse, ProvenanceOfHex, Trim;
  }

  lemma {:induction false} PartsSay(m: MetaSoFar, parts: seq<Part>)
    ensures var r := PartsRead(m, parts);
      && (r.Ok? <==> forall i :: 0 <= i < |parts| ==> Readable(parts[i]))
      && (r.Ok? ==> Says(m, parts, r.value))
    decreases |parts|
  {
    hide SetField, Readable, SaysPart;
    if parts != [] {
      var first, rest := parts[0], parts[1..];
      FirstPart(m, first);
      var m' := SetField(m, first.name, first.text);
      assert forall i :: 1 <= i < |parts| ==> parts[i] == rest[i - 1];
      if m'.Ok? {
        PartsSay(m'.value, rest);
        if PartsRead(m'.value, rest).Ok? {
          FirstSays(m, m'.value, parts, PartsRead(m'.value, rest).value);
        }
      }
    }
  }

  lemma FirstSays(m: MetaSoFar, m': MetaSoFar, parts: seq<Part>, r: MetaSoFar)
    requires parts != [] && SetField(m, parts[0].name, parts[0].text) == Ok(m') && Says(m', parts[1..], r)
    ensures Says(m, parts, r)
  {
    hide SetField;
    var first, rest := parts[0], parts[1..];
    FirstPart(m, first);
    hide Parse, ProvenanceOfHex, Trim, Readable;
    assert forall i :: 0 <= i < |rest| ==> rest[i] == parts[i + 1];
    forall i | 0 <= i < |parts| && LastPart(parts, parts[i].name, i) ensures SaysPart(r, parts[i]) {
      if i > 0 {
        assert LastPart(rest, rest[i - 1].name, i - 1);
      } else {
        assert Absent(rest, first.name);
      }
    }
  }

  /**
   The meta part of any document: its elements may come in any order, more than once, and with
   others between them. It is read exactly if every element is readable, and then the last one
   of each name counts.
   */
  lemma ForeignMeta(evs: seq<Event>, i: nat, parts: seq<Part>)
    requires NoMeta(parts) && Here(evs, i, PartEvents(parts) + [End("meta")])
    ensures var r := MetaFrom(evs, i, NO_META, None);
      && (r.Ok? <==> forall k :: 0 <= k < |parts| ==> Readable(parts[k]))
      && (r.Ok? ==> r.value.1 == i + 3 * |parts| + 1 && Says(NO_META, parts, r.value.0))
  {
    hide MetaFrom, Here, Readable, Says, PartsRead, PartEvents, NoMeta;
    PartsHere(evs, i, NO_META, parts);
    PartsSay(NO_META, parts);
  }

  /** Attributes are found by name, the first of a name; a missing one reads as the empty text. */
  lemma {:induction false} AttributeByName(attrs: seq<Attr>, key: string, i: nat)
    requires i <= |attrs| && (i < |attrs| ==> attrs[i].key == key) && forall j :: 0 <= j < i ==> attrs[j].key != key
    ensures GetAttr(attrs, key) == if i < |attrs| then attrs[i].value else ""
  {
    if i > 0 {
      assert forall j :: 0 <= j < |attrs[1..]| ==> attrs[1..][j] == attrs[j + 1];
      AttributeByName(attrs[1..], key, i - 1);
    }
  }

  /** Inside a record everything but fields and its own end is passed over. */
  lemma RecordPassesOver(reals: Reals)
    ensures ValueFrom([V("rec"), Other, Start("x", []), Chars("t"), End("x"), Void("f", []), End("v")], 0, reals)
      == Ok((Rec([]), 7))
  {
    var evs := [V("rec"), Other, Start("x", []), Chars("t"), End("x"), Void("f", []), End("v")];
    assert FieldsFrom(evs, 6, [], reals) == Ok((Rec([]), 7));
    assert FieldsFrom(evs, 4, [], reals) == FieldsFrom(evs, 6, [], reals);
    assert FieldsFrom(evs, 2, [], reals) == FieldsFrom(evs, 4, [], reals);
    assert FieldsFrom(evs, 1, [], reals) == FieldsFrom(evs, 2, [], reals);
    assert ValueFrom(evs, 0, reals) == BodyFrom(evs, 1, "rec", reals);
  }

  /** Inside a sequence everything but values and its own end is. */
  lemma SequencePassesOver(reals: Reals)
    ensures ValueFrom([V("seq"), Other, Start("f", []), Void("v", [Attr("k", "nil")]), End("f"), End("v")], 0, reals)
      == Ok((Seq([Nil]), 6))
  {
    var evs := [V("seq"), Other, Start("f", []), Void("v", [Attr("k", "nil")]), End("f"), End("v")];
    assert ItemsFrom(evs, 5, [Nil], reals) == Ok((Seq([Nil]), 6));
    assert ItemsFrom(evs, 4, [Nil], reals) == ItemsFrom(evs, 5, [Nil], reals);
    assert [] + [Nil] == [Nil];
    assert ItemsFrom(evs, 3, [], reals) == ItemsFrom(evs, 4, [Nil], reals);
    assert ItemsFrom(evs, 1, [], reals) == ItemsFrom(evs, 3, [], reals);
    assert ValueFrom(evs, 0, reals) == BodyFrom(evs, 1, "seq", reals);
  }

  /** Before a value there may be text and nothing else, and behind a field's value as well. */
  lemma NothingBesideFieldValues(reals: Reals)
    ensures var nil := Void("v", [Attr("k", "nil")]);
      && ValueFrom([Chars("t"), nil], 0, reals) == Ok((Nil, 2))
      && ValueFrom([Other, nil], 0, reals) == Err(Malformed)
      && ValueFrom([Start("x", [])], 0, reals) == Err(Malformed)
      && EndFrom([Chars("t"), End("f")], 0, "f") == Ok(2)
      && EndFrom([Other, End("f")], 0, "f") == Err(Malformed)
      && EndFrom([End("v")], 0, "f") == Err(Malformed)
  {
  }

  lemma UnknownKinds(reals: Reals)
    ensures ValueFrom([V("float"), End("v")], 0, reals) == Err(Malformed)
    ensures ValueFrom([Start("v", []), End("v")], 0, reals) == Err(Malformed)
  {
  }

  /** The text of a scalar is all the text up to its end, whatever elements stand in between. */
  lemma TextThroughElements()
    ensures ScalarFrom([Chars("a"), Start("b", []), Chars("c"), End("b"), Other, End("v")], 0, "") == Ok(("ac", 6))
  {
    var evs := [Chars("a"), Start("b", []), Chars("c"), End("b"), Other, End("v")];
    assert "a" + "c" == "ac" && "" + "a" == "a";
    assert ScalarFrom(evs, 4, "ac") == Ok(("ac", 6));
    assert ScalarFrom(evs, 2, "a") == ScalarFrom(evs, 3, "ac");
    assert ScalarFrom(evs, 0, "") == ScalarFrom(evs, 1, "a");
  }

  /** Text with a bad entity is refused where it is read, and passed over where it is not. */
  lemma GarbledText(reals: Reals)
    ensures ScalarFrom([Garbled, End("v")], 0, "") == Err(Malformed)
    ensures MetaFrom([Start("x", []), Garbled, End("x"), End("meta")], 0, NO_META, None) == Err(Malformed)
    ensures MetaFrom([Garbled, End("meta")], 0, NO_META, None) == Ok((NO_META, 2))
    ensures ValueFrom([Garbled, Void("v", [Attr("k", "nil")])], 0, reals) == Ok((Nil, 2))
    ensures EndFrom([Garbled, End("f")], 0, "f") == Ok(2)
  {
  }

  /** Where the reader itself fails, and where the document ends too early, decoding does. */
  lemma BrokenOff(e: Event, reals: Reals)
    requires e == Bad || e == Eof
    ensures ScalarFrom([e], 0, "") == Err(Malformed) && EndFrom([e], 0, "f") == Err(Malformed)
    ensures ValueFrom([e], 0, reals) == Err(Malformed) && MetaFrom([e], 0, NO_META, None) == Err(Malformed)
    ensures FieldsFrom([e], 0, [], reals) == Err(Malformed) && ItemsFrom([e], 0, [], reals) == Err(Malformed)
    ensures Decode([Bad], reals) == Err(Malformed)
  {
  }

  /** A boolean is true only if it says so; a text that is no number is refused. */
  lemma ScalarsRead(text: string, reals: Reals)
    ensures ScalarValue("bool", text, reals) == Ok(Boolean(text == "true"))
    ensures ScalarValue("text", text, reals) == Ok(Str(text)) && ScalarValue("nil", text, reals) == Ok(Nil)
    ensures ScalarValue("uint", "", reals) == Err(Malformed) && ScalarValue("sint", "x", reals) == Err(Malformed)
  {
  }

  /** The parts that a document has to have, in the order in which they are missed. */
  lemma MissingParts(reals: Reals)
    ensures Decode([], reals) == Err(Malformed)
    ensures Decode([Void("message", [])], reals) == Err(Malformed)
    ensures Decode([Start("message", []), Start("other", [])], reals) == Err(Malformed)
    ensures Decode([Start("message", []), End("message")], reals) == Err(Missing("from"))
  {
  }

  /** A document with nothing but a meta part. */
  function MetaOnly(parts: seq<Part>): seq<Event> {
    [Start("message", []), Start("meta", [])] + (PartEvents(parts) + [End("meta")])
  }

  lemma MetaOnlyParts(parts: seq<Part>)
    ensures var evs := MetaOnly(parts);
      && At(evs, 0) == Start("message", []) && At(evs, 1) == Start("meta", [])
      && Here(evs, 2, PartEvents(parts) + [End("meta")]) && |evs| == 3 * |parts| + 3
  {
    PartEventsLength(parts);
    assert MetaOnly(parts)[2..] == PartEvents(parts) + [End("meta")];
  }

  lemma {:induction false} PartEventsLength(parts: seq<Part>)
    ensures |PartEvents(parts)| == 3 * |parts|
  {
    if parts != [] {
      PartEventsLength(parts[1..]);
    }
  }

  lemma NoMore(evs: seq<Event>, i: nat, d: DocSoFar, reals: Reals)
    requires i >= |evs|
    ensures DocumentFrom(evs, i, d, reals) == Ok(d)
  {
  }

  lemma WhatIsMissing(m: MetaSoFar, parts: seq<Part>)
    requires Says(NO_META, parts, m)
    ensures m.from.Some? <==> !Absent(parts, "from")
    ensures m.thread.Some? <==> !Absent(parts, "thread")
  {
    hide Parse, ProvenanceOfHex, Trim;
    if !Absent(parts, "from") {
      var _ := LastOne(parts, "from");
    }
    if !Absent(parts, "thread") {
      var _ := LastOne(parts, "thread");
    }
  }

  lemma {:induction false} LastOne(parts: seq<Part>, name: string) returns (i: nat)
    requires !Absent(parts, name)
    ensures LastPart(parts, name, i)
    decreases |parts|
  {
    var n := |parts| - 1;
    if parts[n].name == name {
      i := n;
    } else {
      assert forall k :: 0 <= k < n ==> parts[..n][k] == parts[k];
      i := LastOne(parts[..n], name);
    }
  }

  lemma MetaAlone(parts: seq<Part>, reals: Reals)
    requires NoMeta(parts) && forall i :: 0 <= i < |parts| ==> Readable(parts[i])
    ensures Decode(MetaOnly(parts), reals)
      == Err(Missing(if Absent(parts, "from") then "from" else if Absent(parts, "thread") then "thread" else "payload"))
  {
    hide MetaFrom, Readable, Says, NoMeta, PartEvents, DocumentFrom, Here;
    var evs, d := MetaOnly(parts), DocSoFar(NO_META, None, false);
    MetaOnlyParts(parts);
    ForeignMeta(evs, 2, parts);
    var (m, j) := MetaFrom(evs, 2, NO_META, None).value;
    DocMessage(evs, 0, [], d, reals);
    DocMeta(evs, 1, d.(found := true), reals);
    NoMore(evs, j, DocSoFar(m, None, true), reals);
    WhatIsMissing(m, parts);
  }

  /** A document with these parts in its meta element, and with a payload. */
  function ForeignEvents(parts: seq<Part>, p: Payload): seq<Event> {
    [Start("message", [])]
    + ([Start("meta", [])]
       + ((PartEvents(parts) + [End("meta")])
          + ([Start("payload", [Attr("tag", Escape(p.tag))])]
             + (Doc(p.value) + ([End("payload")] + [End("message")])))))
  }

  function AllOf(m: Meta): MetaSoFar {
    MetaSoFar(Some(m.from), m.to, Some(m.thread), m.provenance)
  }

  /**
   What is made of a document by another writer: it is an envelope exactly if all parts of the
   meta element are readable and one of them is the origin and one the thread, whatever their
   order, and then the last part of each name is what it says.
   */
  lemma ForeignDocument(parts: seq<Part>, p: Payload, reals: Reals)
    requires NoMeta(parts) && RealsPrinted(p.value, reals)
    ensures var r := Decode(ForeignEvents(parts, p), reals);
      var readable := forall i :: 0 <= i < |parts| ==> Readable(parts[i]);
      && (r.Ok? <==> readable && !Absent(parts, "from") && !Absent(parts, "thread"))
      && (readable && Absent(parts, "from") ==> r == Err(Missing("from")))
      && (readable && !Absent(parts, "from") && Absent(parts, "thread") ==> r == Err(Missing("thread")))
      && (r.Ok? ==> Says(NO_META, parts, AllOf(r.value.meta)))
      && (r.Ok? ==> r.value.payload == Payload(Escape(p.tag), Carried(p.value)))
  {
    hide MetaFrom, Readable, Says, NoMeta, Absent, PartEvents, DocumentFrom, Here, Doc, RealsPrinted, Carried, Escape;
    var evs, d := ForeignEvents(parts, p), DocSoFar(NO_META, None, false);
    var j := ForeignParts(parts, p, evs);
    DocMessage(evs, 0, [], d, reals);
    DocMeta(evs, 1, d.(found := true), reals);
    ForeignMeta(evs, 2, parts);
    var r := MetaFrom(evs, 2, NO_META, None);
    if r.Ok? {
      PayloadHere(evs, j, p, DocSoFar(r.value.0, None, true), reals);
      WhatIsMissing(r.value.0, parts);
    }
  }

  /** Where the parts of such a document stand. */
  lemma ForeignParts(parts: seq<Part>, p: Payload, evs: seq<Event>) returns (j: nat)
    requires evs == ForeignEvents(parts, p)
    ensures At(evs, 0) == Start("message", []) && At(evs, 1) == Start("meta", [])
    ensures Here(evs, 2, PartEvents(parts) + [End("meta")])
    ensures j == 3 * |parts| + 3
    ensures Here(evs, j,
      [Start("payload", [Attr("tag", Escape(p.tag))])] + (Doc(p.value) + ([End("payload")] + [End("message")])))
  {
    hide Here, PartEvents, Doc, Escape;
    var rest := [Start("payload", [Attr("tag", Escape(p.tag))])]
      + (Doc(p.value) + ([End("payload")] + [End("message")]));
    var meta := PartEvents(parts) + [End("meta")];
    PartEventsLength(parts);
    WholeHere(evs);
    HereSplit(evs, 0, [Start("message", [])], [Start("meta", [])] + (meta + rest));
    HereOne(evs, 0, Start("message", []));
    HereSplit(evs, 1, [Start("meta", [])], meta + rest);
    HereOne(evs, 1, Start("meta", []));
    HereSplit(evs, 2, meta, rest);
    j := 3 * |parts| + 3;
  }

  lemma WholeHere(evs: seq<Event>)
    ensures Here(evs, 0, evs)
  {
  }

  // ---- Addresses ----

  lemma AddressErrors()
    ensures Parse("") == Err(Empty)
    ensures Parse("a..b") == Err(EmptySegment) && Parse(".a") == Err(EmptySegment) && Parse("a.") == Err(EmptySegment)
    ensures Parse("[k]") == Err(EmptyName)
    ensures Parse("b[k") == Err(Unbalanced) && Parse("b]") == Err(Unbalanced)
    ensures Parse("b[k]c") == Err(Unbalanced)
  {
    var s := "b[k]c";
    assert Find(s, '[') == 1;
    assert ParseSegment(s) == Err(Unbalanced);
    assert s[1..] == "[k]c" && s[1..][1..] == "k]c" && s[1..][1..][1..] == "]c" && s[1..][1..][1..][1..] == "c";
    assert "b[k]" + "c" == s && "b[k" + "]" == "b[k]" && "b[" + "k" == "b[k" && "b" + "[" == "b[";
    assert Scan("c", 0, "b[k]", []) == Err(Unbalanced);
    assert Scan("]c", 1, "b[k", []) == Err(Unbalanced);
    assert Scan("k]c", 1, "b[", []) == Err(Unbalanced);
    assert Scan("[k]c", 0, "b", []) == Err(Unbalanced);
    assert "" + "b" == "b" && s[0] == 'b';
    assert Parse(s) == Scan(s, 0, "", []) == Scan(s[1..], 0, "b", []);
  }

  // ---- Frames ----

  /** A frame starts with version 1, authentication 0, and the sender's length, high byte first. */
  lemma HeaderBytes(l: Libraries, sender: string)
    ensures var h, name := Header(l, sender), l.utf8(sender);
      && |h| == 4 + |name| && h[..2] == [1, 0] && h[4..] == name
      && (|name| < 0x1_0000 ==> h[2] as int * 256 + h[3] as int == |name|)
  {
  }

  /** Behind the header stand 24 bytes of nonce and the sealed document. */
  lemma FrameBytes(l: Libraries, env: Envelope, sender: string, key: Key, nonce: Nonce)
    ensures var f, n := Sealed(l, env, sender, key, nonce), |Header(l, sender)|;
      && |f| >= n + 24 && f[..n] == Header(l, sender) && f[n..n + 24] == nonce
      && f[n + 24..] == l.encrypt(key, nonce, Header(l, sender), l.render(WrittenEnvelope(env)))
  {
    hide Header, WrittenEnvelope;
  }

  lemma HeaderErrors(l: Libraries, frame: Bytes)
    ensures |frame| < 4 ==> ParseHeader(l, frame) == Err(MalformedFrame)
    ensures |frame| >= 4 && frame[0] != 1 ==> ParseHeader(l, frame) == Err(UnsupportedVersion(frame[0]))
    ensures |frame| >= 4 && frame[0] == 1 && frame[1] != 0 ==> ParseHeader(l, frame) == Err(UnsupportedAuth(frame[1]))
    ensures |frame| >= 4 && frame[0] == 1 && frame[1] == 0 && |frame| < 4 + frame[2] as int * 256 + frame[3] as int
      ==> ParseHeader(l, frame) == Err(MalformedFrame)
  {
  }
}
