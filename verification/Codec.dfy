/**
 The envelope codec: a recursive writer and a pull parser over XML events.

 The XML library is the boundary. The writer emits events; reading the document back delivers
 them with attribute values still escaped, text trimmed of XML space, and empty text dropped.
 */
module Codec {
  import opened Results
  import opened Text
  import opened Hex
  import opened Wire

  datatype Attr = Attr(key: string, value: string)

  /** `Garbled` is text with a bad entity, `Bad` a point where the reader itself fails. */
  datatype Event =
    | Start(name: string, attrs: seq<Attr>)
    | Void(name: string, attrs: seq<Attr>)
    | End(name: string)
    | Chars(text: string)
    | Garbled
    | Other
    | Bad
    | Eof

  /** `Crash` is the panic of a slice inside a character, which ends the task that decodes. */
  datatype CodecError = Malformed | Missing(what: string) | Crash

  function OfHex(e: HexError): CodecError {
    if e.SplitCharacter? then Crash else Malformed
  }

  /** How a real number is read: the printed text of the number read, if there is one. */
  type Reals = string -> Option<string>

  const NAMESPACE := "https://xml-pipeline.org/ns/envelope/v1"

  // ---- What the writer emits ----

  function VStart(kind: string): Event {
    Start("v", [Attr("k", kind)])
  }

  function WrittenScalar(kind: string, text: string): seq<Event> {
    [VStart(kind), Chars(text), End("v")]
  }

  function Written(v: Value): seq<Event>
    decreases v, 1
  {
    match v
    case Rec(fields) => [VStart("rec")] + WrittenFields(fields) + [End("v")]
    case Seq(items) => [VStart("seq")] + WrittenItems(items) + [End("v")]
    case Str(s) => WrittenScalar("text", s)
    case Uint(n) => WrittenScalar("uint", PrintNat(n))
    case Sint(n) => WrittenScalar("sint", PrintInt(n))
    case Real(digits) => WrittenScalar("real", digits)
    case Boolean(b) => WrittenScalar("bool", if b then "true" else "false")
    case Blob(bytes) => WrittenScalar("blob", ToHex(bytes))
    case Nil => [Void("v", [Attr("k", "nil")])]
  }

  function WrittenField(f: Field): seq<Event>
    decreases f, 1
  {
    [Start("f", [Attr("n", f.name)])] + Written(f.value) + [End("f")]
  }

  function WrittenFields(fields: seq<Field>): seq<Event>
    decreases fields, 0
  {
    if fields == [] then [] else WrittenField(fields[0]) + WrittenFields(fields[1..])
  }

  function WrittenItems(items: seq<Value>): seq<Event>
    decreases items, 0
  {
    if items == [] then [] else Written(items[0]) + WrittenItems(items[1..])
  }

  function WrittenText(name: string, text: string): seq<Event> {
    [Start(name, []), Chars(text), End(name)]
  }

  /** Sixteen hex digits a word, the high word first. */
  function ProvenanceHex(p: Provenance): string {
    PrintHex(p.hi, 16) + PrintHex(p.lo, 16)
  }

  function WrittenMeta(m: Meta): seq<Event> {
    WrittenText("from", Print(m.from))
    + (if m.to.Some? then WrittenText("to", Print(m.to.value)) else [])
    + WrittenText("thread", m.thread)
    + (if m.provenance != NO_PROVENANCE then WrittenText("provenance", ProvenanceHex(m.provenance)) else [])
  }

  function WrittenEnvelope(env: Envelope): seq<Event> {
    [Start("message", [Attr("xmlns", NAMESPACE)]), Start("meta", [])]
    + WrittenMeta(env.meta)
    + [End("meta"), Start("payload", [Attr("tag", env.payload.tag)])]
    + Written(env.payload.value)
    + [End("payload"), End("message")]
  }

  // ---- What the reader delivers ----

  function EscapeAttrs(attrs: seq<Attr>): (r: seq<Attr>)
    ensures |r| == |attrs|
  {
    seq(|attrs|, i requires 0 <= i < |attrs| => Attr(attrs[i].key, Escape(attrs[i].value)))
  }

  function DeliveredEvent(e: Event): seq<Event> {
    match e
    case Start(name, attrs) => [Start(name, EscapeAttrs(attrs))]
    case Void(name, attrs) => [Void(name, EscapeAttrs(attrs))]
    case Chars(text) => if Trim(text, IsXmlSpace) == "" then [] else [Chars(Trim(text, IsXmlSpace))]
    case _ => [e]
  }

  function Delivered(written: seq<Event>): seq<Event> {
    if written == [] then []
    else Delivered(written[..|written| - 1]) + DeliveredEvent(written[|written| - 1])
  }

  /** The event at position `i`; past the end there is only end of file. */
  function At(evs: seq<Event>, i: nat): Event {
    if i < |evs| then evs[i] else Eof
  }

  /** The value of the first attribute `key`, or the empty text. */
  function GetAttr(attrs: seq<Attr>, key: string): string {
    if attrs == [] then ""
    else if attrs[0].key == key then attrs[0].value
    else GetAttr(attrs[1..], key)
  }

  // ---- What the parser makes of the events from position `i` on ----

  /** A result and the position after what was consumed. */
  type Parsed<T> = Result<(T, nat), CodecError>

  ghost predicate Advances<T>(r: Parsed<T>, i: nat, n: nat) {
    r.Ok? ==> i < r.value.1 <= n
  }

  function EmptyValue(kind: string): Value {
    if kind == "rec" then Rec([])
    else if kind == "seq" then Seq([])
    else if kind == "text" then Str("")
    else if kind == "blob" then Blob([])
    else Nil
  }

  /** Text up to the closing `v`, appended to `text`. */
  function ScalarFrom(evs: seq<Event>, i: nat, text: string): (r: Parsed<string>)
    ensures Advances(r, i, |evs|)
    decreases |evs| - i
  {
    match At(evs, i)
    case Chars(t) => ScalarFrom(evs, i + 1, text + t)
    case Garbled => Err(Malformed)
    case Bad => Err(Malformed)
    case Eof => Err(Malformed)
    case End(name) => if name == "v" then Ok((text, i + 1)) else ScalarFrom(evs, i + 1, text)
    case _ => ScalarFrom(evs, i + 1, text)
  }

  /** The position after `</name>`; only text may come before it. */
  function EndFrom(evs: seq<Event>, i: nat, name: string): (r: Result<nat, CodecError>)
    ensures r.Ok? ==> i < r.value <= |evs|
    decreases |evs| - i
  {
    match At(evs, i)
    case Chars(_) => EndFrom(evs, i + 1, name)
    case Garbled => EndFrom(evs, i + 1, name)
    case End(n) => if n == name then Ok(i + 1) else Err(Malformed)
    case _ => Err(Malformed)
  }

  /** The next `<v>` element, skipping text. */
  function ValueFrom(evs: seq<Event>, i: nat, reals: Reals): (r: Parsed<Value>)
    ensures Advances(r, i, |evs|)
    decreases |evs| - i, 0
  {
    match At(evs, i)
    case Start(name, attrs) => if name == "v" then BodyFrom(evs, i + 1, GetAttr(attrs, "k"), reals) else Err(Malformed)
    case Void(name, attrs) => if name == "v" then Ok((EmptyValue(GetAttr(attrs, "k")), i + 1)) else Err(Malformed)
    case Chars(_) => ValueFrom(evs, i + 1, reals)
    case Garbled => ValueFrom(evs, i + 1, reals)
    case _ => Err(Malformed)
  }

  /** What the text of a scalar of this kind stands for. */
  function ScalarValue(kind: string, text: string, reals: Reals): Result<Value, CodecError> {
    if kind == "text" then Ok(Str(text))
    else if kind == "uint" then
      var n := ParseUnsigned(text, 10, U64_LIMIT);
      if n.Some? then Ok(Uint(n.value)) else Err(Malformed)
    else if kind == "sint" then
      var n := ParseSigned(text);
      if n.Some? then Ok(Sint(n.value)) else Err(Malformed)
    else if kind == "real" then
      var x := reals(text);
      if x.Some? then Ok(Real(x.value)) else Err(Malformed)
    else if kind == "bool" then Ok(Boolean(text == "true"))
    else if kind == "blob" then
      var bytes := FromHex(text);
      if bytes.Ok? then Ok(Blob(bytes.value)) else Err(OfHex(bytes.error))
    else Ok(Nil)
  }

  predicate IsScalarKind(kind: string) {
    kind in {"text", "uint", "sint", "real", "bool", "blob", "nil"}
  }

  /** The body of a `<v k=kind>` whose start was consumed. */
  function BodyFrom(evs: seq<Event>, i: nat, kind: string, reals: Reals): (r: Parsed<Value>)
    ensures Advances(r, i, |evs|)
    decreases |evs| - i, 2
  {
    if kind == "rec" then FieldsFrom(evs, i, [], reals)
    else if kind == "seq" then ItemsFrom(evs, i, [], reals)
    else if IsScalarKind(kind) then
      var (text, j) :- ScalarFrom(evs, i, "");
      var v :- ScalarValue(kind, text, reals);
      Ok((v, j))
    else Err(Malformed)
  }

  function FieldsFrom(evs: seq<Event>, i: nat, fields: seq<Field>, reals: Reals): (r: Parsed<Value>)
    ensures Advances(r, i, |evs|)
    decreases |evs| - i, 1
  {
    match At(evs, i)
    case Start(name, attrs) =>
      if name == "f" then
        var (v, j) :- ValueFrom(evs, i + 1, reals);
        var k :- EndFrom(evs, j, "f");
        FieldsFrom(evs, k, fields + [Field(GetAttr(attrs, "n"), v)], reals)
      else FieldsFrom(evs, i + 1, fields, reals)
    case End(name) => if name == "v" then Ok((Rec(fields), i + 1)) else FieldsFrom(evs, i + 1, fields, reals)
    case Eof => Err(Malformed)
    case Bad => Err(Malformed)
    case _ => FieldsFrom(evs, i + 1, fields, reals)
  }

  function ItemsFrom(evs: seq<Event>, i: nat, items: seq<Value>, reals: Reals): (r: Parsed<Value>)
    ensures Advances(r, i, |evs|)
    decreases |evs| - i, 1
  {
    match At(evs, i)
    case Start(name, attrs) =>
      if name == "v" then
        var (v, j) :- BodyFrom(evs, i + 1, GetAttr(attrs, "k"), reals);
        ItemsFrom(evs, j, items + [v], reals)
      else ItemsFrom(evs, i + 1, items, reals)
    case Void(name, attrs) =>
      ItemsFrom(evs, i + 1, if name == "v" then items + [EmptyValue(GetAttr(attrs, "k"))] else items, reals)
    case End(name) => if name == "v" then Ok((Seq(items), i + 1)) else ItemsFrom(evs, i + 1, items, reals)
    case Eof => Err(Malformed)
    case Bad => Err(Malformed)
    case _ => ItemsFrom(evs, i + 1, items, reals)
  }

  /** What has been read of the meta element. */
  datatype MetaSoFar =
    MetaSoFar(from: Option<Address>, to: Option<Address>, thread: Option<string>, provenance: Provenance)

  const NO_META := MetaSoFar(None, None, None, NO_PROVENANCE)

  function ProvenanceOfHex(s: string): Result<Provenance, CodecError> {
    var words := WordsFromHex(s);
    if words.Ok? then Ok(Provenance(words.value.1, words.value.0)) else Err(OfHex(words.error))
  }

  /** Text inside the meta field `name`. */
  function SetField(m: MetaSoFar, name: string, text: string): Result<MetaSoFar, CodecError> {
    var s := Trim(text, IsSpace);
    if name == "from" then
      var a := Parse(s);
      if a.Ok? then Ok(m.(from := Some(a.value))) else Err(Malformed)
    else if name == "to" then
      var a := Parse(s);
      if a.Ok? then Ok(m.(to := Some(a.value))) else Err(Malformed)
    else if name == "thread" then Ok(m.(thread := Some(s)))
    else if name == "provenance" then
      var p := ProvenanceOfHex(s);
      if p.Ok? then Ok(m.(provenance := p.value)) else Err(p.error)
    else Ok(m)
  }

  function MetaFrom(evs: seq<Event>, i: nat, m: MetaSoFar, field: Option<string>): (r: Parsed<MetaSoFar>)
    ensures Advances(r, i, |evs|)
    decreases |evs| - i
  {
    match At(evs, i)
    case Start(name, _) => MetaFrom(evs, i + 1, m, Some(name))
    case Chars(text) =>
      if field.None? then MetaFrom(evs, i + 1, m, field)
      else
        var m' :- SetField(m, field.value, text);
        MetaFrom(evs, i + 1, m', field)
    case Garbled => if field.None? then MetaFrom(evs, i + 1, m, field) else Err(Malformed)
    case End(name) => if name == "meta" then Ok((m, i + 1)) else MetaFrom(evs, i + 1, m, None)
    case Eof => Err(Malformed)
    case Bad => Err(Malformed)
    case _ => MetaFrom(evs, i + 1, m, field)
  }

  /** What has been read of the document. */
  datatype DocSoFar = DocSoFar(meta: MetaSoFar, payload: Option<Payload>, found: bool)

  function DocumentFrom(evs: seq<Event>, i: nat, d: DocSoFar, reals: Reals): Result<DocSoFar, CodecError>
    decreases |evs| - i
  {
    match At(evs, i)
    case Start(name, attrs) =>
      if name == "message" then DocumentFrom(evs, i + 1, d.(found := true), reals)
      else if name == "meta" then
        var (m, j) :- MetaFrom(evs, i + 1, d.meta, None);
        DocumentFrom(evs, j, d.(meta := m), reals)
      else if name == "payload" then
        var (v, j) :- ValueFrom(evs, i + 1, reals);
        var k :- EndFrom(evs, j, "payload");
        DocumentFrom(evs, k, d.(payload := Some(Payload(GetAttr(attrs, "tag"), v))), reals)
      else Err(Malformed)
    case End(name) => if name == "message" then Ok(d) else DocumentFrom(evs, i + 1, d, reals)
    case Eof => Ok(d)
    case Bad => Err(Malformed)
    case _ => DocumentFrom(evs, i + 1, d, reals)
  }

  function Assemble(d: DocSoFar): Result<Envelope, CodecError> {
    if !d.found then Err(Malformed)
    else if d.meta.from.None? then Err(Missing("from"))
    else if d.meta.thread.None? then Err(Missing("thread"))
    else if d.payload.None? then Err(Missing("payload"))
    else Ok(Envelope(Meta(d.meta.from.value, d.meta.to, d.meta.thread.value, d.meta.provenance), d.payload.value))
  }

  /** The envelope a delivered event stream stands for. */
  function Decode(evs: seq<Event>, reals: Reals): Result<Envelope, CodecError> {
    var d :- DocumentFrom(evs, 0, DocSoFar(NO_META, None, false), reals);
    Assemble(d)
  }
}
