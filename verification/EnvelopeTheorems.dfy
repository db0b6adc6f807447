/** The envelope round trip: what arrives, when it is the same, and what always survives. */
module EnvelopeTheorems {
  import opened Results
  import opened Text
  import opened Hex
  import opened Wire
  import opened Addresses
  import opened Codec
  import opened CodecTheorems

  // ---- Reading the written document ----

  /** One optional element of the meta part, then the rest. */
  lemma MetaPartHere(evs: seq<Event>, i: nat, m: MetaSoFar, name: string, text: string, rest: seq<Event>)
    requires name != "meta" && Here(evs, i, Delivered(WrittenText(name, text)) + rest)
    ensures Here(evs, i + |Delivered(WrittenText(name, text))|, rest)
    ensures var m' := CarriedText(m, name, text);
      MetaFrom(evs, i, m, None)
        == if m'.Ok? then MetaFrom(evs, i + |Delivered(WrittenText(name, text))|, m'.value, None)
                                   else Err(m'.error)
  {
    HereSplit(evs, i, Delivered(WrittenText(name, text)), rest);
    MetaTextHere(evs, i, m, name, text);
  }

  /** The meta part from its provenance element on. */
  lemma ProvenanceHere(evs: seq<Event>, i: nat, m: MetaSoFar, p: Provenance)
    requires m.provenance == NO_PROVENANCE
    requires Here(evs, i, Delivered(WrittenProvenance(p)) + [End("meta")])
    ensures MetaFrom(evs, i, m, None) == Ok((m.(provenance := p), i + |Delivered(WrittenProvenance(p))| + 1))
  {
    hide MetaFrom, Delivered, ProvenanceHex, CarriedText, Here;
    if p == NO_PROVENANCE {
      DeliveredNothing();
      assert [] + [End("meta")] == [End("meta")];
      HereOne(evs, i, End("meta"));
      MetaEnd(evs, i, m, "meta");
    } else {
      var hex := ProvenanceHex(p);
      var n := |Delivered(WrittenText("provenance", hex))|;
      MetaPartHere(evs, i, m, "provenance", hex, [End("meta")]);
      ProvenanceRoundTrip(m, p);
      HereOne(evs, i + n, End("meta"));
      MetaEnd(evs, i + n, m.(provenance := p), "meta");
    }
  }

  lemma DeliveredNothing()
    ensures Delivered([]) == []
  {
  }

  function WrittenProvenance(p: Provenance): seq<Event> {
    if p != NO_PROVENANCE then WrittenText("provenance", ProvenanceHex(p)) else []
  }

  function WrittenTo(to: Option<Address>): seq<Event> {
    if to.Some? then WrittenText("to", Print(to.value)) else []
  }

  lemma DeliveredMeta(m: Meta)
    ensures Delivered(WrittenMeta(m)) + [End("meta")]
      == Delivered(WrittenText("from", Print(m.from)))
       + (Delivered(WrittenTo(m.to))
          + (Delivered(WrittenText("thread", m.thread)) + (Delivered(WrittenProvenance(m.provenance)) + [End("meta")])))
  {
    hide Delivered, WrittenText, ProvenanceHex;
    var a, b := WrittenText("from", Print(m.from)), WrittenTo(m.to);
    var c, d := WrittenText("thread", m.thread), WrittenProvenance(m.provenance);
    DeliveredConcat(a, b);
    DeliveredConcat(a + b, c);
    DeliveredConcat(a + b + c, d);
  }

  lemma TextKeepsProvenance(m: MetaSoFar, name: string, text: string)
    requires name != "provenance" && CarriedText(m, name, text).Ok?
    ensures CarriedText(m, name, text).value.provenance == m.provenance
  {
  }

  function WrittenFrom(m: Meta): seq<Event> {
    WrittenText("from", Print(m.from))
  }

  function WrittenThread(m: Meta): seq<Event> {
    WrittenText("thread", m.thread)
  }

  /** What follows the addresses, and what follows the thread. */
  function ThreadOn(m: Meta): seq<Event> {
    Delivered(WrittenThread(m)) + ProvenanceOn(m)
  }

  function ProvenanceOn(m: Meta): seq<Event> {
    Delivered(WrittenProvenance(m.provenance)) + [End("meta")]
  }

  function WithFrom(m: Meta): Result<MetaSoFar, CodecError> {
    CarriedText(NO_META, "from", Print(m.from))
  }

  function WithTo(m: Meta, sofar: MetaSoFar): Result<MetaSoFar, CodecError> {
    if m.to.Some? then CarriedText(sofar, "to", Print(m.to.value)) else Ok(sofar)
  }

  function WithThreadText(m: Meta, sofar: MetaSoFar): Result<MetaSoFar, CodecError> {
    CarriedText(sofar, "thread", m.thread)
  }

  /** The loop from `i` on gives what `r` would, with the provenance added. */
  ghost predicate Reads(evs: seq<Event>, i: nat, sofar: MetaSoFar,
                          r: Result<MetaSoFar, CodecError>, p: Provenance, end: nat) {
    MetaFrom(evs, i, sofar, None) == if r.Ok? then Ok((r.value.(provenance := p), end)) else Err(r.error)
  }

  lemma ThreadReads(evs: seq<Event>, i: nat, m: Meta, sofar: MetaSoFar)
    requires sofar.provenance == NO_PROVENANCE && Here(evs, i, ThreadOn(m))
    ensures Reads(evs, i, sofar, WithThreadText(m, sofar), m.provenance, i + |ThreadOn(m)|)
  {
    hide MetaFrom, Delivered, Here, WrittenText, WrittenProvenance, CarriedText;
    MetaPartHere(evs, i, sofar, "thread", m.thread, ProvenanceOn(m));
    var r := WithThreadText(m, sofar);
    if r.Ok? {
      TextKeepsProvenance(sofar, "thread", m.thread);
      ProvenanceHere(evs, i + |Delivered(WrittenThread(m))|, r.value, m.provenance);
    }
  }

  lemma ToReads(evs: seq<Event>, i: nat, m: Meta, sofar: MetaSoFar)
    requires sofar.provenance == NO_PROVENANCE && Here(evs, i, Delivered(WrittenTo(m.to)) + ThreadOn(m))
    ensures var r := WithTo(m, sofar);
      Reads(evs, i, sofar, if r.Ok? then WithThreadText(m, r.value) else r, m.provenance,
            i + |Delivered(WrittenTo(m.to)) + ThreadOn(m)|)
  {
    hide MetaFrom, Delivered, Here, WrittenText, CarriedText, ThreadOn, WithThreadText;
    if m.to.Some? {
      MetaPartHere(evs, i, sofar, "to", Print(m.to.value), ThreadOn(m));
      if WithTo(m, sofar).Ok? {
        TextKeepsProvenance(sofar, "to", Print(m.to.value));
      }
    } else {
      DeliveredNothing();
      assert [] + ThreadOn(m) == ThreadOn(m);
    }
    if WithTo(m, sofar).Ok? {
      ThreadReads(evs, i + |Delivered(WrittenTo(m.to))|, m, WithTo(m, sofar).value);
    }
  }

  /** The meta part, up to and including its closing tag, is read as `CarriedMeta` says. */
  lemma MetaHere(evs: seq<Event>, i: nat, m: Meta)
    requires Here(evs, i, Delivered(WrittenMeta(m)) + [End("meta")])
    ensures var r := CarriedMeta(m);
      MetaFrom(evs, i, NO_META, None)
        == if r.Ok? then Ok((r.value, i + |Delivered(WrittenMeta(m))| + 1)) else Err(r.error)
  {
    hide MetaFrom, Delivered, Here, WrittenText, CarriedText, WrittenMeta, WithTo;
    var rest := Delivered(WrittenTo(m.to)) + ThreadOn(m);
    DeliveredMeta(m);
    assert Delivered(WrittenMeta(m)) + [End("meta")] == Delivered(WrittenFrom(m)) + rest;
    MetaPartHere(evs, i, NO_META, "from", Print(m.from), rest);
    MetaSteps(m);
    if WithFrom(m).Ok? {
      TextKeepsProvenance(NO_META, "from", Print(m.from));
      ToReads(evs, i + |Delivered(WrittenFrom(m))|, m, WithFrom(m).value);
    }
  }

  lemma MetaSteps(m: Meta)
    ensures CarriedMeta(m)
      == if WithFrom(m).Err? then Err(WithFrom(m).error)
         else
           var r := WithTo(m, WithFrom(m).value);
           var t := if r.Ok? then WithThreadText(m, r.value) else r;
           if t.Ok? then Ok(t.value.(provenance := m.provenance)) else Err(t.error)
  {
    hide CarriedText;
  }

  const XMLNS := Attr("xmlns", NAMESPACE)

  lemma DeliveredEnvelope(env: Envelope)
    ensures Delivered(WrittenEnvelope(env))
      == DeliveredEvent(Start("message", [XMLNS]))
       + ([Start("meta", [])]
          + ((Delivered(WrittenMeta(env.meta)) + [End("meta")])
             + ([Start("payload", [Attr("tag", Escape(env.payload.tag))])]
                + (Doc(env.payload.value) + ([End("payload")] + [End("message")])))))
  {
    hide Delivered, Written, WrittenMeta, Escape;
    var tag := Start("payload", [Attr("tag", env.payload.tag)]);
    var open, meta, value := Start("message", [XMLNS]), WrittenMeta(env.meta), Written(env.payload.value);
    assert WrittenEnvelope(env)
        == [open] + ([Start("meta", [])] +
           (meta + ([End("meta")] + ([tag] + (value + ([End("payload")] + [End("message")]))))));
    DeliveredConcat([End("payload")], [End("message")]);
    DeliveredConcat(value, [End("payload")] + [End("message")]);
    DeliveredConcat([tag], value + ([End("payload")] + [End("message")]));
    var rest := [tag] + (value + ([End("payload")] + [End("message")]));
    DeliveredConcat([End("meta")], rest);
    DeliveredConcat(meta, [End("meta")] + rest);
    DeliveredConcat([Start("meta", [])], meta + ([End("meta")] + rest));
    DeliveredConcat([open], [Start("meta", [])] + (meta + ([End("meta")] + rest)));
    DeliveredOne(open);
    DeliveredOne(Start("meta", []));
    DeliveredOne(End("meta"));
    DeliveredOne(tag);
    DeliveredOne(End("payload"));
    DeliveredOne(End("message"));
    EscapedAttr("tag", env.payload.tag);
    assert EscapeAttrs([]) == [];
    var after := Delivered(rest);
    assert Delivered(meta) + ([End("meta")] + after) == (Delivered(meta) + [End("meta")]) + after;
  }

  lemma DocMessage(evs: seq<Event>, i: nat, attrs: seq<Attr>, d: DocSoFar, reals: Reals)
    requires At(evs, i) == Start("message", attrs)
    ensures DocumentFrom(evs, i, d, reals) == DocumentFrom(evs, i + 1, d.(found := true), reals)
  {
  }

  lemma DocMeta(evs: seq<Event>, i: nat, d: DocSoFar, reals: Reals)
    requires At(evs, i) == Start("meta", [])
    ensures var r := MetaFrom(evs, i + 1, d.meta, None);
      DocumentFrom(evs, i, d, reals)
        == if r.Ok? then DocumentFrom(evs, r.value.1, d.(meta := r.value.0), reals) else Err(r.error)
  {
  }

  lemma DocPayload(evs: seq<Event>, i: nat, tag: string, v: Value, j: nat, k: nat, d: DocSoFar, reals: Reals)
    requires At(evs, i) == Start("payload", [Attr("tag", tag)])
    requires ValueFrom(evs, i + 1, reals) == Ok((v, j)) && EndFrom(evs, j, "payload") == Ok(k)
    ensures DocumentFrom(evs, i, d, reals) == DocumentFrom(evs, k, d.(payload := Some(Payload(tag, v))), reals)
  {
    assert GetAttr([Attr("tag", tag)], "tag") == tag;
  }

  lemma DocEnds(evs: seq<Event>, i: nat, d: DocSoFar, reals: Reals)
    requires At(evs, i) == End("message")
    ensures DocumentFrom(evs, i, d, reals) == Ok(d)
  {
  }

  /** The payload element and what closes the document. */
  lemma PayloadHere(evs: seq<Event>, i: nat, p: Payload, d: DocSoFar, reals: Reals)
    requires RealsPrinted(p.value, reals)
    requires Here(evs, i,
      [Start("payload", [Attr("tag", Escape(p.tag))])] + (Doc(p.value) + ([End("payload")] + [End("message")])))
    ensures DocumentFrom(evs, i, d, reals) == Ok(d.(payload := Some(Payload(Escape(p.tag), Carried(p.value)))))
  {
    hide DocumentFrom, ValueFrom, EndFrom, Doc, Here, RealsPrinted, Carried, Escape;
    var n := |Doc(p.value)|;
    var close := [End("payload")] + [End("message")];
    HereSplit(evs, i, [Start("payload", [Attr("tag", Escape(p.tag))])], Doc(p.value) + close);
    HereOne(evs, i, Start("payload", [Attr("tag", Escape(p.tag))]));
    HereSplit(evs, i + 1, Doc(p.value), close);
    HereSplit(evs, i + 1 + n, [End("payload")], [End("message")]);
    HereOne(evs, i + 1 + n, End("payload"));
    HereOne(evs, i + 2 + n, End("message"));
    ValueHere(p.value, evs, i + 1, reals);
    EndRead(evs, i + 1 + n, "payload");
    DocPayload(evs, i, Escape(p.tag), Carried(p.value), i + 1 + n, i + 2 + n, d, reals);
    DocEnds(evs, i + 2 + n, d.(payload := Some(Payload(Escape(p.tag), Carried(p.value)))), reals);
  }

  /** The document, once its first tag was consumed. */
  lemma DocumentHere(evs: seq<Event>, i: nat, env: Envelope, d: DocSoFar, reals: Reals)
    requires RealsPrinted(env.payload.value, reals) && d.meta == NO_META
    requires Here(evs, i, [Start("meta", [])]
      + ((Delivered(WrittenMeta(env.meta)) + [End("meta")])
         + ([Start("payload", [Attr("tag", Escape(env.payload.tag))])]
            + (Doc(env.payload.value) + ([End("payload")] + [End("message")])))))
    ensures var m := CarriedMeta(env.meta);
      DocumentFrom(evs, i, d, reals)
        == if m.Ok?
           then Ok(d.(meta := m.value, payload := Some(Payload(Escape(env.payload.tag), Carried(env.payload.value)))))
           else Err(m.error)
  {
    hide DocumentFrom, MetaFrom, Doc, Here, Delivered, RealsPrinted, Carried, Escape, WrittenMeta, CarriedMeta;
    var meta := Delivered(WrittenMeta(env.meta)) + [End("meta")];
    var rest := [Start("payload", [Attr("tag", Escape(env.payload.tag))])]
      + (Doc(env.payload.value) + ([End("payload")] + [End("message")]));
    HereSplit(evs, i, [Start("meta", [])], meta + rest);
    HereOne(evs, i, Start("meta", []));
    HereSplit(evs, i + 1, meta, rest);
    MetaHere(evs, i + 1, env.meta);
    DocMeta(evs, i, d, reals);
    var m := CarriedMeta(env.meta);
    if m.Ok? {
      PayloadHere(evs, i + 1 + |meta|, env.payload, d.(meta := m.value), reals);
    }
  }

  /** Decoding what was encoded gives exactly `Received`, errors included. */
  lemma DecodeEncoded(env: Envelope, reals: Reals)
    requires RealsPrinted(env.payload.value, reals)
    ensures Decode(Delivered(WrittenEnvelope(env)), reals) == Received(env)
  {
    var evs := Delivered(WrittenEnvelope(env));
    DeliveredEnvelope(env);
    hide DocumentFrom, Doc, Delivered, RealsPrinted, Carried, Escape, WrittenMeta, WrittenEnvelope, CarriedMeta;
    var open := Start("message", EscapeAttrs([XMLNS]));
    var rest := [Start("meta", [])]
      + ((Delivered(WrittenMeta(env.meta)) + [End("meta")])
         + ([Start("payload", [Attr("tag", Escape(env.payload.tag))])]
            + (Doc(env.payload.value) + ([End("payload")] + [End("message")]))));
    assert evs == [open] + rest;
    HereSplit(evs, 0, [open], rest);
    HereOne(evs, 0, open);
    hide Here;
    var d0 := DocSoFar(NO_META, None, false);
    DocMessage(evs, 0, EscapeAttrs([XMLNS]), d0, reals);
    DocumentHere(evs, 1, env, d0.(found := true), reals);
  }

  // ---- When the envelope arrives unchanged ----

  ghost predicate AddressCarries(a: Address) {
    Canonical(a) && Trimmed(Print(a), IsSpace)
  }

  /** Everything a sender can check about an envelope before encoding it. */
  ghost predicate Transportable(env: Envelope) {
    && AddressCarries(env.meta.from)
    && (env.meta.to.Some? ==> AddressCarries(env.meta.to.value))
    && env.meta.thread != "" && Trimmed(env.meta.thread, IsSpace)
    && NoMarkup(env.payload.tag)
    && Clean(env.payload.value)
  }

  /** The two trims of a meta text: nothing is left of it, or this. */
  function ArrivedText(text: string): Option<string> {
    var t := Trim(text, IsXmlSpace);
    if t == "" then None else Some(Trim(t, IsSpace))
  }

  lemma ArrivedUnchanged(text: string)
    ensures ArrivedText(text) == Some(text) <==> text != "" && Trimmed(text, IsSpace)
  {
    TrimFixpoint(text, IsXmlSpace);
    TrimFixpoint(text, IsSpace);
    var t := Trim(text, IsXmlSpace);
    if text != "" && Trimmed(text, IsSpace) {
      SpaceIncludesXml(text);
    } else if ArrivedText(text) == Some(text) {
      TrimLength(text, IsXmlSpace);
      TrimLength(t, IsSpace);
    }
  }

  /** A meta text with blanks around it arrives as what stands between them. */
  lemma CoreArrives(before: string, core: string, after: string)
    requires AllSpace(before, IsSpace) && AllSpace(after, IsSpace) && core != "" && Trimmed(core, IsSpace)
    ensures ArrivedText(before + core + after) == Some(core)
  {
    hide Trim, IsSpace, IsXmlSpace;
    var s := before + core + after;
    var i, j := TrimSlice(s, IsXmlSpace);
    XmlSpacesAreSpaces(s[..i]);
    XmlSpacesAreSpaces(s[j..]);
    var n, m := |before|, |before| + |core|;
    assert s[n] == core[0] && s[m - 1] == core[|core| - 1];
    BlanksStop(s, IsSpace, n);
    BlanksStop(s, IsSpace, m - 1);
    var front, back := before[i..], after[..j - m];
    assert s[i..j] == front + core + back;
    TrimCore(front, core, back, IsSpace);
  }

  lemma XmlSpacesAreSpaces(s: string)
    requires AllSpace(s, IsXmlSpace)
    ensures AllSpace(s, IsSpace)
  {
  }

  /** A payload text with white space of XML around it arrives as what stands between. */
  lemma TextArrivesAsCore(before: string, core: string, after: string)
    requires AllSpace(before, IsXmlSpace) && AllSpace(after, IsXmlSpace) && Trimmed(core, IsXmlSpace)
    ensures Carried(Str(before + core + after)) == Str(core)
  {
    TrimCore(before, core, after, IsXmlSpace);
  }

  /** An address arrives unchanged exactly if it is canonical and its text is trimmed. */
  lemma AddressArrives(a: Address)
    ensures (ArrivedText(Print(a)).Some? && Parse(ArrivedText(Print(a)).value) == Ok(a)) <==> AddressCarries(a)
  {
    hide Trim, Parse, Print, Trimmed;
    ArrivedUnchanged(Print(a));
    PrintParseIffCanonical(a);
    if ArrivedText(Print(a)).Some? {
      var s := ArrivedText(Print(a)).value;
      if Parse(s) == Ok(a) {
        ParsePrints(s);
        assert s == Print(a);
      }
    }
    if Canonical(a) {
      CanonicalPrintsText(a);
    }
  }

  lemma CanonicalPrintsText(a: Address)
    requires Canonical(a)
    ensures Print(a) != ""
  {
    PrintParses(a);
  }

  /** What `Received` says about the meta part, text by text. */
  lemma ReceivedMeta(env: Envelope)
    requires Received(env).Ok?
    ensures var d := Received(env).value;
      var from, to, thread := ArrivedText(Print(env.meta.from)), env.meta.to, ArrivedText(env.meta.thread);
      && from.Some? && Parse(from.value) == Ok(d.meta.from)
      && (to.None? || ArrivedText(Print(to.value)).None? ==> d.meta.to == None)
      && (to.Some? && ArrivedText(Print(to.value)).Some? ==>
            d.meta.to.Some? && Parse(ArrivedText(Print(to.value)).value) == Ok(d.meta.to.value))
      && thread == Some(d.meta.thread)
      && d.meta.provenance == env.meta.provenance
      && d.payload == Payload(Escape(env.payload.tag), Carried(env.payload.value))
  {
    hide Trim, Parse, Print, Escape, Carried;
  }

  /** The provenance of an envelope survives every trip on which it arrives at all. */
  lemma ProvenanceSurvives(env: Envelope, reals: Reals)
    requires RealsPrinted(env.payload.value, reals)
    ensures var r := Decode(Delivered(WrittenEnvelope(env)), reals);
      r.Ok? ==> r.value.meta.provenance == env.meta.provenance
  {
    DecodeEncoded(env, reals);
    if Received(env).Ok? {
      ReceivedMeta(env);
    }
  }

  /** A transportable envelope is not refused. */
  lemma TransportableArrives(env: Envelope)
    requires Transportable(env)
    ensures Received(env).Ok?
  {
    hide Trim, Parse, Print, Escape, Carried, Trimmed;
    AddressArrives(env.meta.from);
    if env.meta.to.Some? {
      AddressArrives(env.meta.to.value);
    }
    ArrivedUnchanged(env.meta.thread);
  }

  /**
   The round trip: an envelope comes back as it was sent exactly if it is transportable. All
   conditions are local, and each of them is needed.
   */
  lemma RoundTrip(env: Envelope, reals: Reals)
    requires RealsPrinted(env.payload.value, reals)
    ensures Decode(Delivered(WrittenEnvelope(env)), reals) == Ok(env) <==> Transportable(env)
  {
    hide Trim, Parse, Print, Escape, Carried, Trimmed, Decode, Delivered, CarriedMeta, RealsPrinted, Clean, NoMarkup,
      AddressCarries;
    DecodeEncoded(env, reals);
    if Transportable(env) {
      TransportableArrives(env);
    }
    if Received(env).Ok? {
      ReceivedMeta(env);
      AddressArrives(env.meta.from);
      if env.meta.to.Some? {
        AddressArrives(env.meta.to.value);
      }
      ArrivedUnchanged(env.meta.thread);
      EscapeFixpoint(env.payload.tag);
      CarriedFixpoint(env.payload.value);
    }
  }

  /**
   What has arrived once arrives unchanged the next time, if names needed no escaping and
   something is left of the thread.
   */
  lemma SecondTripIsFixpoint(env: Envelope, reals: Reals)
    requires RealsPrinted(env.payload.value, reals)
    requires NoMarkup(env.payload.tag) && PlainNames(env.payload.value)
    requires Received(env).Ok? && Received(env).value.meta.thread != ""
    ensures var d := Received(env).value;
      Decode(Delivered(WrittenEnvelope(d)), reals) == Ok(d)
  {
    hide Parse, Print, Escape, Carried, Decode, Delivered, CarriedMeta, RealsPrinted, Clean, PlainNames;
    var d := Received(env).value;
    ReceivedMeta(env);
    ArrivedIsTrimmed(Print(env.meta.from));
    ParsePrints(ArrivedText(Print(env.meta.from)).value);
    if d.meta.to.Some? {
      ArrivedIsTrimmed(Print(env.meta.to.value));
      ParsePrints(ArrivedText(Print(env.meta.to.value)).value);
    }
    ArrivedIsTrimmed(env.meta.thread);
    EscapeFixpoint(env.payload.tag);
    CarriedIsClean(env.payload.value);
    CarriedKeepsReals(env.payload.value, reals);
    RoundTrip(d, reals);
  }

  lemma ArrivedIsTrimmed(text: string)
    ensures ArrivedText(text).Some? ==> Trimmed(ArrivedText(text).value, IsSpace)
  {
    TrimFixpoint(Trim(text, IsXmlSpace), IsSpace);
  }

  /** A flat sender with a plain name is recognised after the trip. */
  lemma FlatSenderSurvives(env: Envelope, name: string)
    requires env.meta.from == Flat(name) && name != "" && Plain(name) && Trimmed(name, IsSpace)
    requires Received(env).Ok?
    ensures Received(env).value.meta.from == Flat(name)
  {
    FlatRoundTrip(name);
    AddressArrives(env.meta.from);
    ReceivedMeta(env);
  }

  /** So is a flat destination. */
  lemma FlatTargetSurvives(env: Envelope, name: string)
    requires env.meta.to == Some(Flat(name)) && name != "" && Plain(name) && Trimmed(name, IsSpace)
    requires Received(env).Ok?
    ensures Received(env).value.meta.to == Some(Flat(name))
  {
    FlatRoundTrip(name);
    AddressArrives(Flat(name));
    ReceivedMeta(env);
  }

  // ---- Panics ----

  lemma AddressTextsDoNotPanic(m: MetaSoFar, name: string, text: string)
    requires name != "provenance"
    ensures CarriedText(m, name, text) != Err(Crash)
  {
    hide Trim, Parse;
  }

  /** What the program itself has written never makes it panic. */
  lemma OwnDocumentsDoNotPanic(env: Envelope, reals: Reals)
    requires RealsPrinted(env.payload.value, reals)
    ensures Decode(Delivered(WrittenEnvelope(env)), reals) != Err(Crash)
  {
    hide Decode, Delivered, WrittenEnvelope, Print, Carried, Escape, CarriedText, RealsPrinted;
    DecodeEncoded(env, reals);
    var m := env.meta;
    AddressTextsDoNotPanic(NO_META, "from", Print(m.from));
    var m1 := CarriedText(NO_META, "from", Print(m.from));
    if m1.Ok? {
      if m.to.Some? {
        AddressTextsDoNotPanic(m1.value, "to", Print(m.to.value));
      }
      var m2 := if m.to.Some? then CarriedText(m1.value, "to", Print(m.to.value)) else Ok(m1.value);
      if m2.Ok? {
        AddressTextsDoNotPanic(m2.value, "thread", m.thread);
      }
    }
  }

  const CUT_BLOB := "a\U{E9}b"

  lemma CutBlobPanics()
    ensures FromHex(CUT_BLOB) == Err(SplitCharacter)
    ensures Trim(CUT_BLOB, IsXmlSpace) == CUT_BLOB
  {
    TrimFixpoint(CUT_BLOB, IsSpace);
    TrimFixpoint(CUT_BLOB, IsXmlSpace);
    assert Width('a') == 1 && Width('\U{E9}') == 2 && Width('b') == 1;
    assert CUT_BLOB[1..] == "\U{E9}b" && CUT_BLOB[1..][1..] == "b" && "b"[1..] == "";
    assert ByteLen("b") == 1;
    assert ByteLen(CUT_BLOB[1..]) == 3;
    assert ByteLen(CUT_BLOB) == 4;
    assert CharsIn(CUT_BLOB[1..], 1) == None;
    assert CharsIn(CUT_BLOB, 2) == None;
  }

  /** A document anybody can send: three characters in a blob end the task that decodes it. */
  const CUT_DOCUMENT := [
    Start("message", []), Start("payload", [Attr("tag", "T")]),
    VStart("blob"), Chars(CUT_BLOB), End("v"),
    End("payload"), End("message")]

  lemma CutDocumentPanics(reals: Reals)
    ensures Decode(CUT_DOCUMENT, reals) == Err(Crash)
  {
    hide FromHex, DocumentFrom;
    var evs := CUT_DOCUMENT;
    CutBlobPanics();
    assert At(evs, 2) == VStart("blob") && At(evs, 3) == Chars(CUT_BLOB) && At(evs, 4) == End("v");
    assert ScalarFrom(evs, 4, CUT_BLOB) == Ok((CUT_BLOB, 5));
    assert "" + CUT_BLOB == CUT_BLOB;
    assert ScalarFrom(evs, 3, "") == Ok((CUT_BLOB, 5));
    assert ScalarValue("blob", CUT_BLOB, reals) == Err(Crash);
    assert BodyFrom(evs, 3, "blob", reals) == Err(Crash);
    assert GetAttr([Attr("k", "blob")], "k") == "blob";
    assert ValueFrom(evs, 2, reals) == Err(Crash);
    var d := DocSoFar(NO_META, None, false);
    DocMessage(evs, 0, [], d, reals);
    PayloadPanics(evs, 1, [Attr("tag", "T")], d.(found := true), reals);
  }

  lemma PayloadPanics(evs: seq<Event>, i: nat, attrs: seq<Attr>, d: DocSoFar, reals: Reals)
    requires At(evs, i) == Start("payload", attrs) && ValueFrom(evs, i + 1, reals) == Err(Crash)
    ensures DocumentFrom(evs, i, d, reals) == Err(Crash)
  {
  }
}
