/** The codec as it runs: a writer and a reader that are updated in place. */
module CodecPrograms {
  import opened Results
  import opened Text
  import opened Hex
  import opened Wire
  import opened Codec

  class Writer {
    var out: seq<Event>

    constructor ()
      ensures out == []
    {
      out := [];
    }

    method WriteEvent(e: Event)
      modifies this
      ensures out == old(out) + [e]
    {
      out := out + [e];
    }

    method WriteText(name: string, text: string)
      modifies this
      ensures out == old(out) + WrittenText(name, text)
    {
      WriteEvent(Start(name, []));
      WriteEvent(Chars(text));
      WriteEvent(End(name));
    }

    method WriteScalar(kind: string, text: string)
      modifies this
      ensures out == old(out) + WrittenScalar(kind, text)
    {
      WriteEvent(VStart(kind));
      WriteEvent(Chars(text));
      WriteEvent(End("v"));
    }

    method WriteValue(v: Value)
      modifies this
      ensures out == old(out) + Written(v)
      decreases v, 1
    {
      match v {
        case Rec(fields) =>
          WriteEvent(VStart("rec"));
          WriteFields(fields);
          WriteEvent(End("v"));
        case Seq(items) =>
          WriteEvent(VStart("seq"));
          WriteItems(items);
          WriteEvent(End("v"));
        case Str(s) => WriteScalar("text", s);
        case Uint(n) => WriteScalar("uint", PrintNat(n));
        case Sint(n) => WriteScalar("sint", PrintInt(n));
        case Real(digits) => WriteScalar("real", digits);
        case Boolean(b) => WriteScalar("bool", if b then "true" else "false");
        case Blob(bytes) =>
          var hex := WriteHex(bytes);
          WriteScalar("blob", hex);
        case Nil => WriteEvent(Void("v", [Attr("k", "nil")]));
      }
    }

    method WriteFields(fields: seq<Field>)
      modifies this
      ensures out == old(out) + WrittenFields(fields)
      decreases fields, 0
    {
      for i := 0 to |fields|
        invariant out + WrittenFields(fields[i..]) == old(out) + WrittenFields(fields)
      {
        ghost var sofar := out;
        WriteEvent(Start("f", [Attr("n", fields[i].name)]));
        WriteValue(fields[i].value);
        WriteEvent(End("f"));
        assert out == sofar + WrittenField(fields[i]);
        assert fields[i..][1..] == fields[i + 1..];
      }
    }

    method WriteItems(items: seq<Value>)
      modifies this
      ensures out == old(out) + WrittenItems(items)
      decreases items, 0
    {
      for i := 0 to |items|
        invariant out + WrittenItems(items[i..]) == old(out) + WrittenItems(items)
      {
        ghost var sofar := out;
        WriteValue(items[i]);
        assert out == sofar + Written(items[i]);
        assert items[i..][1..] == items[i + 1..];
      }
    }
  }

  method WriteMeta(w: Writer, m: Meta)
    modifies w
    ensures w.out == old(w.out) + WrittenMeta(m)
  {
    w.WriteText("from", Print(m.from));
    if m.to.Some? {
      w.WriteText("to", Print(m.to.value));
    }
    w.WriteText("thread", m.thread);
    if m.provenance != NO_PROVENANCE {
      w.WriteText("provenance", ProvenanceHex(m.provenance));
    }
  }

  method EncodeEnvelope(env: Envelope) returns (written: seq<Event>)
    ensures written == WrittenEnvelope(env)
  {
    hide Written, WrittenMeta;
    var w := new Writer();
    w.WriteEvent(Start("message", [Attr("xmlns", NAMESPACE)]));
    w.WriteEvent(Start("meta", []));
    WriteMeta(w, env.meta);
    w.WriteEvent(End("meta"));
    w.WriteEvent(Start("payload", [Attr("tag", env.payload.tag)]));
    w.WriteValue(env.payload.value);
    w.WriteEvent(End("payload"));
    w.WriteEvent(End("message"));
    written := w.out;
  }

  /** A pull reader over delivered events. */
  class Reader {
    const events: seq<Event>
    const reals: Reals
    var pos: nat

    constructor (events: seq<Event>, reals: Reals)
      ensures this.events == events && this.reals == reals && pos == 0
    {
      this.events := events;
      this.reals := reals;
      pos := 0;
    }

    /** The next event; end of file is delivered again and again. */
    method ReadEvent() returns (e: Event)
      modifies this
      ensures e == At(events, old(pos))
      ensures pos == if old(pos) < |events| then old(pos) + 1 else old(pos)
    {
      if pos < |events| {
        e := events[pos];
        pos := pos + 1;
      } else {
        e := Eof;
      }
    }

    method ReadScalar() returns (r: Result<string, CodecError>)
      modifies this
      ensures Agrees(r, pos, ScalarFrom(events, old(pos), ""))
    {
      var s := "";
      while true
        invariant ScalarFrom(events, pos, s) == ScalarFrom(events, old(pos), "")
        decreases |events| - pos
      {
        var e := ReadEvent();
        match e {
          case Chars(t) => s := s + t;
          case Garbled => return Err(Malformed);
          case Bad => return Err(Malformed);
          case Eof => return Err(Malformed);
          case End(name) =>
            if name == "v" {
              return Ok(s);
            }
          case _ =>
        }
      }
    }

    method ExpectEnd(name: string) returns (r: Result<(), CodecError>)
      modifies this
      ensures r.Ok? <==> EndFrom(events, old(pos), name).Ok?
      ensures r.Ok? ==> pos == EndFrom(events, old(pos), name).value
      ensures r.Err? ==> r.error == EndFrom(events, old(pos), name).error
    {
      while true
        invariant EndFrom(events, pos, name) == EndFrom(events, old(pos), name)
        decreases |events| - pos
      {
        var e := ReadEvent();
        match e {
          case End(n) => return if n == name then Ok(()) else Err(Malformed);
          case Chars(_) =>
          case Garbled =>
          case _ => return Err(Malformed);
        }
      }
    }

    method ExpectValue() returns (r: Result<Value, CodecError>)
      modifies this
      ensures Agrees(r, pos, ValueFrom(events, old(pos), reals))
      decreases |events| - pos, 0
    {
      while true
        invariant old(pos) <= pos
        invariant ValueFrom(events, pos, reals) == ValueFrom(events, old(pos), reals)
        decreases |events| - pos
      {
        var e := ReadEvent();
        match e {
          case Start(name, attrs) =>
            if name != "v" {
              return Err(Malformed);
            }
            r := ParseValue(GetAttr(attrs, "k"));
            return;
          case Void(name, attrs) =>
            return if name == "v" then Ok(EmptyValue(GetAttr(attrs, "k"))) else Err(Malformed);
          case Chars(_) =>
          case Garbled =>
          case _ => return Err(Malformed);
        }
      }
    }

    method ParseValue(kind: string) returns (r: Result<Value, CodecError>)
      modifies this
      ensures Agrees(r, pos, BodyFrom(events, old(pos), kind, reals))
      decreases |events| - pos, 1
    {
      if kind == "rec" {
        var fields: seq<Field> := [];
        while true
          invariant old(pos) <= pos
          invariant FieldsFrom(events, pos, fields, reals) == FieldsFrom(events, old(pos), [], reals)
          decreases |events| - pos
        {
          var e := ReadEvent();
          match e {
            case Start(name, attrs) =>
              if name == "f" {
                var v :- ExpectValue();
                var _ :- ExpectEnd("f");
                fields := fields + [Field(GetAttr(attrs, "n"), v)];
              }
            case End(name) =>
              if name == "v" {
                return Ok(Rec(fields));
              }
            case Eof => return Err(Malformed);
            case Bad => return Err(Malformed);
            case _ =>
          }
        }
      } else if kind == "seq" {
        var items: seq<Value> := [];
        while true
          invariant old(pos) <= pos
          invariant ItemsFrom(events, pos, items, reals) == ItemsFrom(events, old(pos), [], reals)
          decreases |events| - pos
        {
          var e := ReadEvent();
          match e {
            case Start(name, attrs) =>
              if name == "v" {
                var v :- ParseValue(GetAttr(attrs, "k"));
                items := items + [v];
              }
            case Void(name, attrs) =>
              if name == "v" {
                items := items + [EmptyValue(GetAttr(attrs, "k"))];
              }
            case End(name) =>
              if name == "v" {
                return Ok(Seq(items));
              }
            case Eof => return Err(Malformed);
            case Bad => return Err(Malformed);
            case _ =>
          }
        }
      } else if IsScalarKind(kind) {
        var text :- ReadScalar();
        r := ScalarValue(kind, text, reals);
      } else {
        return Err(Malformed);
      }
    }

    method ReadMeta(sofar: MetaSoFar) returns (r: Result<MetaSoFar, CodecError>)
      modifies this
      ensures Agrees(r, pos, MetaFrom(events, old(pos), sofar, None))
    {
      var m := sofar;
      var field: Option<string> := None;
      while true
        invariant MetaFrom(events, pos, m, field) == MetaFrom(events, old(pos), sofar, None)
        decreases |events| - pos
      {
        var e := ReadEvent();
        match e {
          case Start(name, _) => field := Some(name);
          case Chars(text) =>
            if field.Some? {
              m :- SetField(m, field.value, text);
            }
          case Garbled =>
            if field.Some? {
              return Err(Malformed);
            }
          case End(name) =>
            if name == "meta" {
              return Ok(m);
            }
            field := None;
          case Eof => return Err(Malformed);
          case Bad => return Err(Malformed);
          case _ =>
        }
      }
    }
  }

  /** A reader method's result and final position are those of the parsing function. */
  ghost predicate Agrees<T>(r: Result<T, CodecError>, pos: nat, parsed: Parsed<T>) {
    match parsed
    case Ok((value, next)) => r == Ok(value) && pos == next
    case Err(error) => r == Err(error)
  }

  method DecodeEnvelope(events: seq<Event>, reals: Reals) returns (r: Result<Envelope, CodecError>)
    ensures r == Decode(events, reals)
  {
    var reader := new Reader(events, reals);
    var m := NO_META;
    var payload: Option<Payload> := None;
    var found := false;
    ghost var start := DocSoFar(NO_META, None, false);
    while true
      invariant fresh(reader) && reader.events == events && reader.reals == reals
      invariant DocumentFrom(events, reader.pos, DocSoFar(m, payload, found), reals)
             == DocumentFrom(events, 0, start, reals)
      decreases |events| - reader.pos
    {
      var e := reader.ReadEvent();
      match e {
        case Start(name, attrs) =>
          if name == "message" {
            found := true;
          } else if name == "meta" {
            m :- reader.ReadMeta(m);
          } else if name == "payload" {
            var v :- reader.ExpectValue();
            var _ :- reader.ExpectEnd("payload");
            payload := Some(Payload(GetAttr(attrs, "tag"), v));
          } else {
            return Err(Malformed);
          }
        case End(name) =>
          if name == "message" {
            break;
          }
        case Eof => break;
        case Bad => return Err(Malformed);
        case _ =>
      }
    }
    r := Assemble(DocSoFar(m, payload, found));
  }
}
