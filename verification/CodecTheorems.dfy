/** What encoding and then decoding makes of an envelope, and of anything else. */
module CodecTheorems {
  import opened Results
  import opened Text
  import opened Hex
  import opened Wire
  import opened Codec

  // ---- Delivered documents, piece by piece ----

  lemma {:induction false} DeliveredConcat(a: seq<Event>, b: seq<Event>)
    ensures Delivered(a + b) == Delivered(a) + Delivered(b)
    decreases |b|
  {
    if b == [] {
      assert a + b == a;
    } else {
      var n := |b| - 1;
      assert (a + b)[..|a + b| - 1] == a + b[..n];
      DeliveredConcat(a, b[..n]);
    }
  }

  lemma DeliveredOne(e: Event)
    ensures Delivered([e]) == DeliveredEvent(e)
  {
    assert [e][..0] == [];
  }

  function Kind(v: Value): string {
    match v
    case Rec(_) => "rec"
    case Seq(_) => "seq"
    case Str(_) => "text"
    case Uint(_) => "uint"
    case Sint(_) => "sint"
    case Real(_) => "real"
    case Boolean(_) => "bool"
    case Blob(_) => "blob"
    case Nil => "nil"
  }

  /** The text of a scalar. */
  function ScalarText(v: Value): string
    requires !v.Rec? && !v.Seq? && !v.Nil?
  {
    match v
    case Str(s) => s
    case Uint(n) => PrintNat(n)
    case Sint(n) => PrintInt(n)
    case Real(digits) => digits
    case Boolean(b) => if b then "true" else "false"
    case Blob(bytes) => ToHex(bytes)
  }

  /** What is written between the tags of a value. */
  function Inside(v: Value): seq<Event>
    requires !v.Nil?
  {
    if v.Rec? then WrittenFields(v.fields)
    else if v.Seq? then WrittenItems(v.items)
    else [Chars(ScalarText(v))]
  }

  function Doc(v: Value): seq<Event> {
    Delivered(Written(v))
  }

  lemma DeliveredEnclosed(open: Event, inside: seq<Event>, close: Event)
    ensures Delivered([open] + inside + [close]) == DeliveredEvent(open) + (Delivered(inside) + DeliveredEvent(close))
  {
    assert [open] + inside + [close] == [open] + (inside + [close]);
    DeliveredConcat([open], inside + [close]);
    DeliveredConcat(inside, [close]);
    DeliveredOne(open);
    DeliveredOne(close);
  }

  lemma EscapedAttr(key: string, value: string)
    ensures EscapeAttrs([Attr(key, value)]) == [Attr(key, Escape(value))]
  {
  }

  lemma DeliveredKind(v: Value)
    ensures DeliveredEvent(VStart(Kind(v))) == [VStart(Kind(v))]
    ensures DeliveredEvent(Void("v", [Attr("k", "nil")])) == [Void("v", [Attr("k", "nil")])]
  {
    hide Escape, EscapeAttrs;
    EscapeFixpoint(Kind(v));
    EscapedAttr("k", Kind(v));
    EscapeFixpoint("nil");
    EscapedAttr("k", "nil");
  }

  lemma DocShape(v: Value)
    requires !v.Nil?
    ensures Doc(v) == [VStart(Kind(v))] + (Delivered(Inside(v)) + [End("v")])
  {
    hide Written, Inside, Delivered, Kind, DeliveredEvent;
    WrittenShape(v);
    DeliveredEnclosed(VStart(Kind(v)), Inside(v), End("v"));
    DeliveredKind(v);
    DeliveredEnd("v");
  }

  lemma WrittenShape(v: Value)
    requires !v.Nil?
    ensures Written(v) == [VStart(Kind(v))] + Inside(v) + [End("v")]
  {
    hide WrittenFields, WrittenItems, PrintNat, PrintInt, ToHex;
  }

  lemma DeliveredEnd(name: string)
    ensures DeliveredEvent(End(name)) == [End(name)]
  {
  }

  lemma DocNil()
    ensures Doc(Nil) == [Void("v", [Attr("k", "nil")])]
  {
    DeliveredOne(Void("v", [Attr("k", "nil")]));
    DeliveredKind(Nil);
  }

  lemma DocField(f: Field)
    ensures Delivered(WrittenField(f)) == [Start("f", [Attr("n", Escape(f.name))])] + (Doc(f.value) + [End("f")])
  {
    DeliveredEnclosed(Start("f", [Attr("n", f.name)]), Written(f.value), End("f"));
    EscapedAttr("n", f.name);
  }

  /** The events `w` stand in the stream from position `i` on. */
  ghost predicate Here(evs: seq<Event>, i: nat, w: seq<Event>) {
    i + |w| <= |evs| && forall j {:trigger w[j]} :: 0 <= j < |w| ==> evs[i + j] == w[j]
  }

  lemma HereSplit(evs: seq<Event>, i: nat, a: seq<Event>, b: seq<Event>)
    requires Here(evs, i, a + b)
    ensures Here(evs, i, a) && Here(evs, i + |a|, b)
  {
    forall j | 0 <= j < |b|
      ensures evs[i + |a| + j] == b[j]
    {
      assert (a + b)[|a| + j] == b[j];
    }
    forall j | 0 <= j < |a|
      ensures evs[i + j] == a[j]
    {
      assert (a + b)[j] == a[j];
    }
  }

  lemma HereOne(evs: seq<Event>, i: nat, e: Event)
    requires Here(evs, i, [e])
    ensures At(evs, i) == e
  {
    assert [e][0] == e;
  }

  lemma HereEnclosed(evs: seq<Event>, i: nat, open: Event, inside: seq<Event>, close: Event)
    requires Here(evs, i, [open] + (inside + [close]))
    ensures At(evs, i) == open && Here(evs, i + 1, inside + [close])
    ensures Here(evs, i + 1, inside) && At(evs, i + 1 + |inside|) == close
  {
    HereSplit(evs, i, [open], inside + [close]);
    HereOne(evs, i, open);
    HereSplit(evs, i + 1, inside, [close]);
    HereOne(evs, i + 1 + |inside|, close);
  }

  lemma HereFirst(evs: seq<Event>, i: nat, a: seq<Event>, b: seq<Event>, close: Event)
    requires Here(evs, i, (a + b) + [close])
    ensures Here(evs, i, a) && Here(evs, i + |a|, b + [close])
  {
    assert (a + b) + [close] == a + (b + [close]);
    HereSplit(evs, i, a, b + [close]);
  }

  // ---- Values ----

  /** What arrives of a value: trimmed text, and field names as they stand in the document. */
  function Carried(v: Value): Value
    decreases v, 1
  {
    match v
    case Rec(fields) => Rec(CarriedFields(fields))
    case Seq(items) => Seq(CarriedItems(items))
    case Str(s) => Str(Trim(s, IsXmlSpace))
    case _ => v
  }

  function CarriedFields(fields: seq<Field>): seq<Field>
    decreases fields, 0
  {
    if fields == [] then []
    else [Field(Escape(fields[0].name), Carried(fields[0].value))] + CarriedFields(fields[1..])
  }

  function CarriedItems(items: seq<Value>): seq<Value>
    decreases items, 0
  {
    if items == [] then [] else [Carried(items[0])] + CarriedItems(items[1..])
  }

  /** Every real number in the value is printed the way it is read back. */
  ghost predicate RealsPrinted(v: Value, reals: Reals)
    decreases v
  {
    match v
    case Rec(fields) => forall i :: 0 <= i < |fields| ==> RealsPrinted(fields[i].value, reals)
    case Seq(items) => forall i :: 0 <= i < |items| ==> RealsPrinted(items[i], reals)
    case Real(digits) => Trimmed(digits, IsXmlSpace) && reals(digits) == Some(digits)
    case _ => true
  }

  lemma ScalarTextRead(v: Value, reals: Reals)
    requires !v.Rec? && !v.Seq? && !v.Nil? && RealsPrinted(v, reals)
    ensures ScalarValue(Kind(v), Trim(ScalarText(v), IsXmlSpace), reals) == Ok(Carried(v))
  {
    TrimFixpoint(ScalarText(v), IsXmlSpace);
    match v
    case Uint(n) => UnsignedRoundTrip(n);
    case Sint(n) => SignedRoundTrip(n);
    case Blob(bytes) => BlobRoundTrip(bytes);
    case _ =>
  }

  lemma ScalarHere(evs: seq<Event>, i: nat, text: string)
    requires Here(evs, i, DeliveredEvent(Chars(text)) + [End("v")])
    ensures ScalarFrom(evs, i, "") == Ok((Trim(text, IsXmlSpace), i + |DeliveredEvent(Chars(text))| + 1))
  {
    var d := DeliveredEvent(Chars(text));
    HereSplit(evs, i, d, [End("v")]);
    HereOne(evs, i + |d|, End("v"));
    if d != [] {
      HereOne(evs, i, d[0]);
      assert "" + Trim(text, IsXmlSpace) == Trim(text, IsXmlSpace);
    }
  }

  lemma ScalarBodyHere(v: Value, evs: seq<Event>, i: nat, reals: Reals)
    requires !v.Rec? && !v.Seq? && !v.Nil? && RealsPrinted(v, reals)
    requires Here(evs, i, Delivered(Inside(v)) + [End("v")])
    ensures BodyFrom(evs, i, Kind(v), reals) == Ok((Carried(v), i + |Delivered(Inside(v))| + 1))
  {
    DeliveredOne(Chars(ScalarText(v)));
    ScalarHere(evs, i, ScalarText(v));
    ScalarTextRead(v, reals);
  }

  lemma RecBody(evs: seq<Event>, i: nat, reals: Reals)
    ensures BodyFrom(evs, i, "rec", reals) == FieldsFrom(evs, i, [], reals)
  {
  }

  lemma SeqBody(evs: seq<Event>, i: nat, reals: Reals)
    ensures BodyFrom(evs, i, "seq", reals) == ItemsFrom(evs, i, [], reals)
  {
  }

  lemma RecEnds(evs: seq<Event>, i: nat, fields: seq<Field>, reals: Reals)
    requires At(evs, i) == End("v")
    ensures FieldsFrom(evs, i, fields, reals) == Ok((Rec(fields), i + 1))
  {
  }

  lemma SeqEnds(evs: seq<Event>, i: nat, items: seq<Value>, reals: Reals)
    requires At(evs, i) == End("v")
    ensures ItemsFrom(evs, i, items, reals) == Ok((Seq(items), i + 1))
  {
  }

  lemma BodyParts(v: Value, evs: seq<Event>, i: nat)
    requires !v.Nil? && Here(evs, i, Doc(v))
    ensures At(evs, i) == VStart(Kind(v))
    ensures Here(evs, i + 1, Delivered(Inside(v)) + [End("v")])
    ensures |Doc(v)| == |Delivered(Inside(v))| + 2
  {
    DocShape(v);
    HereEnclosed(evs, i, VStart(Kind(v)), Delivered(Inside(v)), End("v"));
  }

  lemma FieldsParts(fields: seq<Field>, evs: seq<Event>, i: nat, d: seq<Event>, ds: seq<Event>)
    requires fields != [] && Here(evs, i, Delivered(WrittenFields(fields)) + [End("v")])
    requires d == Delivered(WrittenField(fields[0])) && ds == Delivered(WrittenFields(fields[1..]))
    ensures Here(evs, i, d) && Here(evs, i + |d|, ds + [End("v")])
    ensures |Delivered(WrittenFields(fields))| == |d| + |ds|
  {
    DeliveredConcat(WrittenField(fields[0]), WrittenFields(fields[1..]));
    HereFirst(evs, i, d, ds, End("v"));
  }

  lemma ItemsParts(items: seq<Value>, evs: seq<Event>, i: nat, d: seq<Event>, ds: seq<Event>)
    requires items != [] && Here(evs, i, Delivered(WrittenItems(items)) + [End("v")])
    requires d == Doc(items[0]) && ds == Delivered(WrittenItems(items[1..]))
    ensures Here(evs, i, d) && Here(evs, i + |d|, ds + [End("v")])
    ensures |Delivered(WrittenItems(items))| == |d| + |ds|
  {
    DeliveredConcat(Written(items[0]), WrittenItems(items[1..]));
    HereFirst(evs, i, d, ds, End("v"));
  }

  /** A written value, standing anywhere in a stream, is read back and nothing after it is touched. */
  lemma {:induction false} BodyHere(v: Value, evs: seq<Event>, i: nat, reals: Reals)
    requires !v.Nil? && RealsPrinted(v, reals) && Here(evs, i, Doc(v))
    ensures At(evs, i) == VStart(Kind(v))
    ensures BodyFrom(evs, i + 1, Kind(v), reals) == Ok((Carried(v), i + |Doc(v)|))
    decreases v, 2
  {
    hide ValueFrom, BodyFrom, FieldsFrom, ItemsFrom, Written, Delivered, Here;
    BodyParts(v, evs, i);
    if v.Rec? {
      RecBody(evs, i + 1, reals);
      FieldsHere(v.fields, [], evs, i + 1, reals);
      assert [] + CarriedFields(v.fields) == CarriedFields(v.fields);
    } else if v.Seq? {
      SeqBody(evs, i + 1, reals);
      ItemsHere(v.items, [], evs, i + 1, reals);
      assert [] + CarriedItems(v.items) == CarriedItems(v.items);
    } else {
      ScalarBodyHere(v, evs, i + 1, reals);
    }
  }

  lemma {:induction false} ValueHere(v: Value, evs: seq<Event>, i: nat, reals: Reals)
    requires RealsPrinted(v, reals) && Here(evs, i, Doc(v))
    ensures ValueFrom(evs, i, reals) == Ok((Carried(v), i + |Doc(v)|))
    decreases v, 3
  {
    if v.Nil? {
      DocNil();
      HereOne(evs, i, Void("v", [Attr("k", "nil")]));
    } else {
      BodyHere(v, evs, i, reals);
    }
  }

  /** One field, then the rest of a record. */
  lemma FieldsStep(evs: seq<Event>, i: nat, before: seq<Field>, reals: Reals, f: Field,
                   j: nat, k: nat, rest: seq<Field>, m: nat)
    requires At(evs, i) == Start("f", [Attr("n", f.name)])
    requires ValueFrom(evs, i + 1, reals) == Ok((f.value, j)) && EndFrom(evs, j, "f") == Ok(k)
    requires FieldsRead(evs, k, before + [f], reals, rest, m)
    ensures FieldsRead(evs, i, before, reals, [f] + rest, m)
  {
    assert GetAttr([Attr("n", f.name)], "n") == f.name;
    assert (before + [f]) + rest == before + ([f] + rest);
  }

  /** The fields stand from position `i` on, followed by the closing tag. */
  ghost predicate FieldsStand(fields: seq<Field>, evs: seq<Event>, i: nat, reals: Reals) {
    && (forall j :: 0 <= j < |fields| ==> RealsPrinted(fields[j].value, reals))
    && Here(evs, i, Delivered(WrittenFields(fields)) + [End("v")])
  }

  /** A record is read from position `i` to `j`, ending in the fields `rest`. */
  ghost predicate FieldsRead(evs: seq<Event>, i: nat, before: seq<Field>, reals: Reals, rest: seq<Field>, j: nat) {
    FieldsFrom(evs, i, before, reals) == Ok((Rec(before + rest), j))
  }

  lemma NoFieldsRead(evs: seq<Event>, i: nat, before: seq<Field>, reals: Reals)
    requires FieldsStand([], evs, i, reals)
    ensures FieldsRead(evs, i, before, reals, [], i + |Delivered(WrittenFields([]))| + 1)
  {
    assert Delivered([]) + [End("v")] == [End("v")];
    HereOne(evs, i, End("v"));
    RecEnds(evs, i, before, reals);
    assert before + [] == before;
  }

  lemma {:induction false} FieldsHere(fields: seq<Field>, before: seq<Field>, evs: seq<Event>, i: nat, reals: Reals)
    requires FieldsStand(fields, evs, i, reals)
    ensures FieldsRead(evs, i, before, reals, CarriedFields(fields), i + |Delivered(WrittenFields(fields))| + 1)
    decreases fields, 1
  {
    hide FieldsRead, Here, Delivered, RealsPrinted, Carried;
    if fields == [] {
      NoFieldsRead(evs, i, before, reals);
    } else {
      hide WrittenFields, WrittenField;
      var f, rest := fields[0], fields[1..];
      var d, ds := Delivered(WrittenField(f)), Delivered(WrittenFields(rest));
      FieldsParts(fields, evs, i, d, ds);
      FieldHere(f, evs, i, reals);
      var f' := Field(Escape(f.name), Carried(f.value));
      FieldsHere(rest, before + [f'], evs, i + |d|, reals);
      FieldsStep(evs, i, before, reals, f', i + |d| - 1, i + |d|, CarriedFields(rest), i + |d| + |ds| + 1);
    }
  }

  /** The two calls a record makes for one field. */
  lemma {:induction false} FieldHere(f: Field, evs: seq<Event>, i: nat, reals: Reals)
    requires RealsPrinted(f.value, reals) && Here(evs, i, Delivered(WrittenField(f)))
    ensures At(evs, i) == Start("f", [Attr("n", Escape(f.name))])
    ensures |Delivered(WrittenField(f))| >= 2
    ensures ValueFrom(evs, i + 1, reals) == Ok((Carried(f.value), i + |Delivered(WrittenField(f))| - 1))
    ensures EndFrom(evs, i + |Delivered(WrittenField(f))| - 1, "f") == Ok(i + |Delivered(WrittenField(f))|)
    decreases f, 0
  {
    hide ValueFrom, BodyFrom, FieldsFrom, ItemsFrom, Written, WrittenField, Delivered, Here;
    DocField(f);
    HereEnclosed(evs, i, Start("f", [Attr("n", Escape(f.name))]), Doc(f.value), End("f"));
    ValueHere(f.value, evs, i + 1, reals);
    EndRead(evs, i + 1 + |Doc(f.value)|, "f");
  }

  lemma EndRead(evs: seq<Event>, i: nat, name: string)
    requires At(evs, i) == End(name)
    ensures EndFrom(evs, i, name) == Ok(i + 1)
  {
  }

  /** The value `v` was read as an item between `i` and `j`. */
  ghost predicate ItemRead(v: Value, evs: seq<Event>, i: nat, reals: Reals, j: nat) {
    if v.Nil? then At(evs, i) == Void("v", [Attr("k", "nil")]) && j == i + 1
    else At(evs, i) == VStart(Kind(v)) && BodyFrom(evs, i + 1, Kind(v), reals) == Ok((Carried(v), j))
  }

  lemma {:induction false} ItemHere(v: Value, evs: seq<Event>, i: nat, reals: Reals)
    requires RealsPrinted(v, reals) && Here(evs, i, Doc(v))
    ensures ItemRead(v, evs, i, reals, i + |Doc(v)|)
    decreases v, 3
  {
    if v.Nil? {
      DocNil();
      HereOne(evs, i, Void("v", [Attr("k", "nil")]));
    } else {
      BodyHere(v, evs, i, reals);
    }
  }

  /** One item, then the rest of a sequence. */
  lemma ItemsStep(v: Value, evs: seq<Event>, i: nat, before: seq<Value>, reals: Reals, j: nat, rest: seq<Value>, m: nat)
    requires ItemRead(v, evs, i, reals, j)
    requires ItemsRead(evs, j, before + [Carried(v)], reals, rest, m)
    ensures ItemsRead(evs, i, before, reals, [Carried(v)] + rest, m)
  {
    assert GetAttr([Attr("k", Kind(v))], "k") == Kind(v);
    assert (before + [Carried(v)]) + rest == before + ([Carried(v)] + rest);
  }

  ghost predicate ItemsStand(items: seq<Value>, evs: seq<Event>, i: nat, reals: Reals) {
    && (forall j :: 0 <= j < |items| ==> RealsPrinted(items[j], reals))
    && Here(evs, i, Delivered(WrittenItems(items)) + [End("v")])
  }

  ghost predicate ItemsRead(evs: seq<Event>, i: nat, before: seq<Value>, reals: Reals, rest: seq<Value>, j: nat) {
    ItemsFrom(evs, i, before, reals) == Ok((Seq(before + rest), j))
  }

  lemma NoItemsRead(evs: seq<Event>, i: nat, before: seq<Value>, reals: Reals)
    requires ItemsStand([], evs, i, reals)
    ensures ItemsRead(evs, i, before, reals, [], i + |Delivered(WrittenItems([]))| + 1)
  {
    assert Delivered([]) + [End("v")] == [End("v")];
    HereOne(evs, i, End("v"));
    SeqEnds(evs, i, before, reals);
    assert before + [] == before;
  }

  lemma {:induction false} ItemsHere(items: seq<Value>, before: seq<Value>, evs: seq<Event>, i: nat, reals: Reals)
    requires ItemsStand(items, evs, i, reals)
    ensures ItemsRead(evs, i, before, reals, CarriedItems(items), i + |Delivered(WrittenItems(items))| + 1)
    decreases items, 1
  {
    hide ItemsRead, ItemRead, Here, Delivered, RealsPrinted, Carried;
    if items == [] {
      NoItemsRead(evs, i, before, reals);
    } else {
      hide Written, WrittenItems;
      var v, rest := items[0], items[1..];
      var ds := Delivered(WrittenItems(rest));
      ItemsParts(items, evs, i, Doc(v), ds);
      ItemHere(v, evs, i, reals);
      ItemsHere(rest, before + [Carried(v)], evs, i + |Doc(v)|, reals);
      ItemsStep(v, evs, i, before, reals, i + |Doc(v)|, CarriedItems(rest), i + |Doc(v)| + |ds| + 1);
    }
  }

  /** A value arrives unchanged exactly if its texts are trimmed and its names need no escaping. */
  ghost predicate Clean(v: Value)
    decreases v
  {
    match v
    case Rec(fields) => forall i :: 0 <= i < |fields| ==> NoMarkup(fields[i].name) && Clean(fields[i].value)
    case Seq(items) => forall i :: 0 <= i < |items| ==> Clean(items[i])
    case Str(s) => Trimmed(s, IsXmlSpace)
    case _ => true
  }

  lemma {:induction false} CarriedFieldsAt(fields: seq<Field>, i: nat)
    requires i < |fields|
    ensures |CarriedFields(fields)| == |fields|
    ensures CarriedFields(fields)[i] == Field(Escape(fields[i].name), Carried(fields[i].value))
    decreases |fields|
  {
    if |fields| > 1 {
      CarriedFieldsAt(fields[1..], if i > 0 then i - 1 else 0);
    }
  }

  lemma {:induction false} CarriedItemsAt(items: seq<Value>, i: nat)
    requires i < |items|
    ensures |CarriedItems(items)| == |items|
    ensures CarriedItems(items)[i] == Carried(items[i])
    decreases |items|
  {
    if |items| > 1 {
      CarriedItemsAt(items[1..], if i > 0 then i - 1 else 0);
    }
  }

  lemma {:induction false} CarriedFixpoint(v: Value)
    ensures Carried(v) == v <==> Clean(v)
    decreases v
  {
    match v
    case Rec(fields) =>
      var carried := CarriedFields(fields);
      forall i | 0 <= i < |fields|
        ensures |carried| == |fields|
        ensures carried[i] == fields[i] <==> NoMarkup(fields[i].name) && Clean(fields[i].value)
      {
        CarriedFieldsAt(fields, i);
        EscapeFixpoint(fields[i].name);
        CarriedFixpoint(fields[i].value);
      }
      assert carried == fields <==> forall i :: 0 <= i < |fields| ==> carried[i] == fields[i];
    case Seq(items) =>
      var carried := CarriedItems(items);
      forall i | 0 <= i < |items|
        ensures |carried| == |items|
        ensures carried[i] == items[i] <==> Clean(items[i])
      {
        CarriedItemsAt(items, i);
        CarriedFixpoint(items[i]);
      }
      assert carried == items <==> forall i :: 0 <= i < |items| ==> carried[i] == items[i];
    case Str(s) => TrimFixpoint(s, IsXmlSpace);
    case _ =>
  }

  /** Field names need no escaping; texts may be anything. */
  ghost predicate PlainNames(v: Value)
    decreases v
  {
    match v
    case Rec(fields) => forall i :: 0 <= i < |fields| ==> NoMarkup(fields[i].name) && PlainNames(fields[i].value)
    case Seq(items) => forall i :: 0 <= i < |items| ==> PlainNames(items[i])
    case _ => true
  }

  /** Trimming happens once: what has arrived arrives unchanged the next time. */
  lemma {:induction false} CarriedIsClean(v: Value)
    requires PlainNames(v)
    ensures Clean(Carried(v))
    decreases v
  {
    match v
    case Rec(fields) =>
      forall i | 0 <= i < |CarriedFields(fields)|
        ensures NoMarkup(CarriedFields(fields)[i].name) && Clean(CarriedFields(fields)[i].value)
      {
        if fields != [] {
          CarriedFieldsAt(fields, 0);
        }
        CarriedFieldsAt(fields, i);
        EscapeFixpoint(fields[i].name);
        CarriedIsClean(fields[i].value);
      }
    case Seq(items) =>
      forall i | 0 <= i < |CarriedItems(items)|
        ensures Clean(CarriedItems(items)[i])
      {
        if items != [] {
          CarriedItemsAt(items, 0);
        }
        CarriedItemsAt(items, i);
        CarriedIsClean(items[i]);
      }
    case Str(s) => TrimFixpoint(s, IsXmlSpace);
    case _ =>
  }

  lemma {:induction false} CarriedKeepsReals(v: Value, reals: Reals)
    requires RealsPrinted(v, reals)
    ensures RealsPrinted(Carried(v), reals)
    decreases v
  {
    match v
    case Rec(fields) =>
      forall i | 0 <= i < |CarriedFields(fields)|
        ensures RealsPrinted(CarriedFields(fields)[i].value, reals)
      {
        if fields != [] {
          CarriedFieldsAt(fields, 0);
        }
        CarriedFieldsAt(fields, i);
        CarriedKeepsReals(fields[i].value, reals);
      }
    case Seq(items) =>
      forall i | 0 <= i < |CarriedItems(items)|
        ensures RealsPrinted(CarriedItems(items)[i], reals)
      {
        if items != [] {
          CarriedItemsAt(items, 0);
        }
        CarriedItemsAt(items, i);
        CarriedKeepsReals(items[i], reals);
      }
    case _ =>
  }

  // ---- Self-closing values ----

  /** What a value element with nothing in it is read as, from the parser's own loops. */
  lemma EmptyElement(kind: string, reals: Reals)
    ensures kind == "rec" ==> ValueFrom([VStart(kind), End("v")], 0, reals) == Ok((Rec([]), 2))
    ensures kind == "seq" ==> ValueFrom([VStart(kind), End("v")], 0, reals) == Ok((Seq([]), 2))
    ensures kind == "text" ==> ValueFrom([VStart(kind), End("v")], 0, reals) == Ok((Str(""), 2))
    ensures kind == "blob" ==> ValueFrom([VStart(kind), End("v")], 0, reals) == Ok((Blob([]), 2))
    ensures kind == "nil" ==> ValueFrom([VStart(kind), End("v")], 0, reals) == Ok((Nil, 2))
  {
    var evs := [VStart(kind), End("v")];
    assert GetAttr([Attr("k", kind)], "k") == kind;
    assert At(evs, 0) == VStart(kind) && At(evs, 1) == End("v");
    assert ScalarFrom(evs, 1, "") == Ok(("", 2));
    assert BodyFrom(evs, 1, kind, reals) == ValueFrom(evs, 0, reals);
    NoBlob();
  }

  lemma NoBlob()
    ensures FromHex("") == Ok([])
  {
  }

  /**
   A self-closing value is the value of the element with nothing in it, for records, sequences,
   texts, blobs and nil; of any other kind it is nil.
   */
  lemma SelfClosingValue(kind: string, reals: Reals)
    ensures var closed := ValueFrom([Void("v", [Attr("k", kind)])], 0, reals);
      && closed.Ok?
      && if kind in {"rec", "seq", "text", "blob", "nil"}
         then ValueFrom([VStart(kind), End("v")], 0, reals).Ok?
              && closed.value.0 == ValueFrom([VStart(kind), End("v")], 0, reals).value.0
         else closed.value.0 == Nil
  {
    var evs := [Void("v", [Attr("k", kind)])];
    assert At(evs, 0) == evs[0];
    assert GetAttr([Attr("k", kind)], "k") == kind;
    assert ValueFrom(evs, 0, reals) == Ok((EmptyValue(kind), 1));
    EmptyElement(kind, reals);
    hide ValueFrom;
  }

  // ---- Locality ----

  /** The two streams agree up to position `j`. */
  ghost predicate Same(evs: seq<Event>, other: seq<Event>, j: nat) {
    j <= |evs| && j <= |other| && forall k :: 0 <= k < j ==> evs[k] == other[k]
  }

  lemma {:induction false} ScalarLocal(evs: seq<Event>, other: seq<Event>, i: nat, text: string)
    requires ScalarFrom(evs, i, text).Ok? && Same(evs, other, ScalarFrom(evs, i, text).value.1)
    ensures ScalarFrom(other, i, text) == ScalarFrom(evs, i, text)
    decreases |evs| - i
  {
    var r := ScalarFrom(evs, i, text);
    assert At(other, i) == At(evs, i);
    if i + 1 < r.value.1 {
      ScalarLocal(evs, other, i + 1, if evs[i].Chars? then text + evs[i].text else text);
    }
  }

  lemma {:induction false} EndLocal(evs: seq<Event>, other: seq<Event>, i: nat, name: string)
    requires EndFrom(evs, i, name).Ok? && Same(evs, other, EndFrom(evs, i, name).value)
    ensures EndFrom(other, i, name) == EndFrom(evs, i, name)
    decreases |evs| - i
  {
    assert At(other, i) == At(evs, i);
    if i + 1 < EndFrom(evs, i, name).value {
      EndLocal(evs, other, i + 1, name);
    }
  }

  /** A parsed value depends on nothing after the position the parser stops at. */
  lemma {:induction false} ValueLocal(evs: seq<Event>, other: seq<Event>, i: nat, reals: Reals)
    requires ValueFrom(evs, i, reals).Ok? && Same(evs, other, ValueFrom(evs, i, reals).value.1)
    ensures ValueFrom(other, i, reals) == ValueFrom(evs, i, reals)
    decreases |evs| - i, 0
  {
    hide BodyFrom;
    assert At(other, i) == At(evs, i);
    match At(evs, i)
    case Start(_, attrs) => BodyLocal(evs, other, i + 1, GetAttr(attrs, "k"), reals);
    case Chars(_) => ValueLocal(evs, other, i + 1, reals);
    case Garbled => ValueLocal(evs, other, i + 1, reals);
    case _ =>
  }

  lemma {:induction false} BodyLocal(evs: seq<Event>, other: seq<Event>, i: nat, kind: string, reals: Reals)
    requires BodyFrom(evs, i, kind, reals).Ok? && Same(evs, other, BodyFrom(evs, i, kind, reals).value.1)
    ensures BodyFrom(other, i, kind, reals) == BodyFrom(evs, i, kind, reals)
    decreases |evs| - i, 2
  {
    hide FieldsFrom, ItemsFrom, ScalarFrom, ScalarValue;
    if kind == "rec" {
      FieldsLocal(evs, other, i, [], reals);
    } else if kind == "seq" {
      ItemsLocal(evs, other, i, [], reals);
    } else {
      ScalarLocal(evs, other, i, "");
    }
  }

  lemma {:induction false} FieldsLocal(evs: seq<Event>, other: seq<Event>, i: nat, fields: seq<Field>, reals: Reals)
    requires FieldsFrom(evs, i, fields, reals).Ok? && Same(evs, other, FieldsFrom(evs, i, fields, reals).value.1)
    ensures FieldsFrom(other, i, fields, reals) == FieldsFrom(evs, i, fields, reals)
    decreases |evs| - i, 1
  {
    hide ValueFrom, EndFrom;
    var e := At(evs, i);
    assert At(other, i) == e;
    if e.Start? && e.name == "f" {
      var (v, j) := ValueFrom(evs, i + 1, reals).value;
      var k := EndFrom(evs, j, "f").value;
      FieldsLocal(evs, other, k, fields + [Field(GetAttr(e.attrs, "n"), v)], reals);
      ValueLocal(evs, other, i + 1, reals);
      EndLocal(evs, other, j, "f");
    } else if !(e.End? && e.name == "v") {
      FieldsLocal(evs, other, i + 1, fields, reals);
    }
  }

  lemma {:induction false} ItemsLocal(evs: seq<Event>, other: seq<Event>, i: nat, items: seq<Value>, reals: Reals)
    requires ItemsFrom(evs, i, items, reals).Ok? && Same(evs, other, ItemsFrom(evs, i, items, reals).value.1)
    ensures ItemsFrom(other, i, items, reals) == ItemsFrom(evs, i, items, reals)
    decreases |evs| - i, 1
  {
    hide BodyFrom;
    var e := At(evs, i);
    assert At(other, i) == e;
    if e.Start? && e.name == "v" {
      var (v, j) := BodyFrom(evs, i + 1, GetAttr(e.attrs, "k"), reals).value;
      ItemsLocal(evs, other, j, items + [v], reals);
      BodyLocal(evs, other, i + 1, GetAttr(e.attrs, "k"), reals);
    } else if e.Void? && e.name == "v" {
      ItemsLocal(evs, other, i + 1, items + [EmptyValue(GetAttr(e.attrs, "k"))], reals);
    } else if !(e.End? && e.name == "v") {
      ItemsLocal(evs, other, i + 1, items, reals);
    }
  }

  // ---- Envelopes ----

  /** What the meta loop makes of one written element. */
  function CarriedText(m: MetaSoFar, name: string, text: string): Result<MetaSoFar, CodecError> {
    var t := Trim(text, IsXmlSpace);
    if t == "" then Ok(m) else SetField(m, name, t)
  }

  /** What arrives of the meta part, or why it is refused. */
  function CarriedMeta(m: Meta): Result<MetaSoFar, CodecError> {
    var m1 :- CarriedText(NO_META, "from", Print(m.from));
    var m2 :- if m.to.Some? then CarriedText(m1, "to", Print(m.to.value)) else Ok(m1);
    var m3 :- CarriedText(m2, "thread", m.thread);
    Ok(m3.(provenance := m.provenance))
  }

  /** What arrives of an envelope, or why it is refused. */
  function Received(env: Envelope): Result<Envelope, CodecError> {
    var m :- CarriedMeta(env.meta);
    Assemble(DocSoFar(m, Some(Payload(Escape(env.payload.tag), Carried(env.payload.value))), true))
  }

  lemma DeliveredText(name: string, text: string)
    ensures Delivered(WrittenText(name, text)) == [Start(name, [])] + (DeliveredEvent(Chars(text)) + [End(name)])
  {
    assert WrittenText(name, text) == [Start(name, [])] + [Chars(text)] + [End(name)];
    DeliveredEnclosed(Start(name, []), [Chars(text)], End(name));
    DeliveredOne(Chars(text));
    assert EscapeAttrs([]) == [];
  }

  /** One element of the meta part is read, and the loop goes on after it. */
  lemma MetaTextHere(evs: seq<Event>, i: nat, m: MetaSoFar, name: string, text: string)
    requires name != "meta" && Here(evs, i, Delivered(WrittenText(name, text)))
    ensures var m' := CarriedText(m, name, text);
      MetaFrom(evs, i, m, None)
        == if m'.Ok? then MetaFrom(evs, i + |Delivered(WrittenText(name, text))|, m'.value, None)
                                   else Err(m'.error)
  {
    DeliveredText(name, text);
    var d := DeliveredEvent(Chars(text));
    HereEnclosed(evs, i, Start(name, []), d, End(name));
    if d != [] {
      HereOne(evs, i + 1, d[0]);
      MetaStart(evs, i, m, name);
      MetaChars(evs, i + 1, m, name, Trim(text, IsXmlSpace));
      if SetField(m, name, Trim(text, IsXmlSpace)).Ok? {
        MetaEnd(evs, i + 2, SetField(m, name, Trim(text, IsXmlSpace)).value, name);
      }
    } else {
      MetaStart(evs, i, m, name);
      MetaEnd(evs, i + 1, m, name);
    }
  }

  lemma MetaStart(evs: seq<Event>, i: nat, m: MetaSoFar, name: string)
    requires At(evs, i) == Start(name, [])
    ensures MetaFrom(evs, i, m, None) == MetaFrom(evs, i + 1, m, Some(name))
  {
  }

  lemma MetaChars(evs: seq<Event>, i: nat, m: MetaSoFar, name: string, text: string)
    requires At(evs, i) == Chars(text)
    ensures var m' := SetField(m, name, text);
      MetaFrom(evs, i, m, Some(name)) == if m'.Ok? then MetaFrom(evs, i + 1, m'.value, Some(name)) else Err(m'.error)
  {
  }

  lemma MetaEnd(evs: seq<Event>, i: nat, m: MetaSoFar, name: string)
    requires At(evs, i) == End(name)
    ensures name == "meta" ==> MetaFrom(evs, i, m, None) == Ok((m, i + 1))
    ensures name != "meta" ==> MetaFrom(evs, i, m, Some(name)) == MetaFrom(evs, i + 1, m, None)
  {
  }

  /** The provenance words survive their hexadecimal form. */
  lemma ProvenanceRoundTrip(m: MetaSoFar, p: Provenance)
    ensures CarriedText(m, "provenance", ProvenanceHex(p)) == Ok(m.(provenance := p))
  {
    hide IsSpace, PrintHex, Trim, WordsFromHex;
    var s := ProvenanceHex(p);
    WordsRoundTrip(p.hi, p.lo);
    DigitsAreTrimmed(s);
    assert ProvenanceOfHex(s) == Ok(p);
  }
}
