/** The Python mirror's address parser, a second parser for the same grammar. */
module PyAddresses {
  import opened Results
  import opened Text
  import opened Wire
  import opened Addresses

  /** White space stripped by Python: the string library's, and the four separators. */
  predicate IsPySpace(c: char) {
    IsSpace(c) || '\U{1C}' <= c <= '\U{1F}'
  }

  datatype PyError = EmptyAddress | NamelessSegment | UnclosedBracket | UnexpectedClose

  /** The scan of `s` with the current name and key, and whether a bracket is open. */
  function PyScan(s: string, name: string, key: Option<string>, open: bool, segs: seq<Segment>)
    : Result<Address, PyError>
    requires open ==> key.Some?
    decreases |s|
  {
    if s == "" then
      if open then Err(UnclosedBracket)
      else
        var all := if name != "" then segs + [Segment(name, key)] else segs;
        if all == [] then Err(EmptyAddress) else Ok(Address(all))
    else if s[0] == '[' then
      if open then Err(UnclosedBracket) else PyScan(s[1..], name, Some(""), true, segs)
    else if s[0] == ']' then
      if !open then Err(UnexpectedClose) else PyScan(s[1..], name, key, false, segs)
    else if s[0] == '.' && !open then
      if name == "" then Err(NamelessSegment) else PyScan(s[1..], "", None, false, segs + [Segment(name, key)])
    else if open then PyScan(s[1..], name, Some(key.value + [s[0]]), true, segs)
    else PyScan(s[1..], name + [s[0]], key, false, segs)
  }

  function PyParse(s: string): Result<Address, PyError> {
    var t := Trim(s, IsPySpace);
    if t == "" then Err(EmptyAddress) else PyScan(t, "", None, false, [])
  }

  method PyParseAddress(s: string) returns (r: Result<Address, PyError>)
    ensures r == PyParse(s)
  {
    var t := Trim(s, IsPySpace);
    if t == "" {
      return Err(EmptyAddress);
    }
    var segs: seq<Segment> := [];
    var name, key: Option<string>, inBracket := "", None, false;
    for i := 0 to |t|
      invariant inBracket ==> key.Some?
      invariant PyScan(t[i..], name, key, inBracket, segs) == PyParse(s)
    {
      var ch := t[i];
      assert t[i..][1..] == t[i + 1..];
      if ch == '[' {
        if inBracket {
          return Err(UnclosedBracket);
        }
        inBracket, key := true, Some("");
      } else if ch == ']' {
        if !inBracket {
          return Err(UnexpectedClose);
        }
        inBracket := false;
      } else if ch == '.' && !inBracket {
        if name == "" {
          return Err(NamelessSegment);
        }
        segs := segs + [Segment(name, key)];
        name, key := "", None;
      } else if inBracket {
        key := Some(key.value + [ch]);
      } else {
        name := name + [ch];
      }
    }
    assert t[|t|..] == "";
    if inBracket {
      return Err(UnclosedBracket);
    }
    if name != "" {
      segs := segs + [Segment(name, key)];
    }
    r := if segs == [] then Err(EmptyAddress) else Ok(Address(segs));
  }

  // ---- Agreement ----

  /** The alphabet of segment names in the interface definition. */
  predicate IsNameChar(c: char) {
    'a' <= c <= 'z' || 'A' <= c <= 'Z' || '0' <= c <= '9' || c == '_' || c == '-'
  }

  predicate NameInAlphabet(s: Segment) {
    s.name != "" && forall i :: 0 <= i < |s.name| ==> IsNameChar(s.name[i])
  }

  predicate BracketFree(s: string) {
    '[' !in s && ']' !in s
  }

  predicate KeyBracketFree(s: Segment) {
    s.key.Some? ==> BracketFree(s.key.value)
  }

  lemma {:induction false} PyScanName(text: string, rest: string, name: string, key: Option<string>, segs: seq<Segment>)
    requires Plain(text)
    ensures PyScan(text + rest, name, key, false, segs) == PyScan(rest, name + text, key, false, segs)
    decreases |text|
  {
    if text == "" {
      assert text + rest == rest && name + text == name;
    } else {
      assert (text + rest)[1..] == text[1..] + rest;
      assert text[0] in text;
      PyScanName(text[1..], rest, name + [text[0]], key, segs);
      assert name + [text[0]] + text[1..] == name + text;
    }
  }

  lemma {:induction false} PyScanKey(text: string, rest: string, name: string, key: string, segs: seq<Segment>)
    requires BracketFree(text)
    ensures PyScan(text + rest, name, Some(key), true, segs) == PyScan(rest, name, Some(key + text), true, segs)
    decreases |text|
  {
    if text == "" {
      assert text + rest == rest && key + text == key;
    } else {
      assert (text + rest)[1..] == text[1..] + rest;
      assert text[0] in text;
      PyScanKey(text[1..], rest, name, key + [text[0]], segs);
      assert key + [text[0]] + text[1..] == key + text;
    }
  }

  lemma PyScanSegment(s: Segment, rest: string, segs: seq<Segment>)
    requires Plain(s.name) && KeyBracketFree(s)
    ensures PyScan(PrintSegment(s) + rest, "", None, false, segs) == PyScan(rest, s.name, s.key, false, segs)
  {
    assert "" + s.name == s.name;
    if s.key.None? {
      PyScanName(s.name, rest, "", None, segs);
    } else {
      var close := "]" + rest;
      var tail := "[" + (s.key.value + close);
      assert PrintSegment(s) + rest == s.name + tail;
      PyScanName(s.name, tail, "", None, segs);
      assert tail[1..] == s.key.value + close;
      PyScanKey(s.key.value, close, s.name, "", segs);
      assert "" + s.key.value == s.key.value;
      assert close[1..] == rest;
    }
  }

  /** What both scans read alike: plain names, keys without brackets. */
  ghost predicate Shared(segments: seq<Segment>) {
    forall i :: 0 <= i < |segments| ==> segments[i].name != "" && Plain(segments[i].name) && KeyBracketFree(segments[i])
  }

  lemma {:induction false} PyScanPrinted(before: seq<Segment>, after: seq<Segment>)
    requires after != [] && Shared(after)
    ensures PyScan(PrintTail(after), "", None, false, before) == Ok(Address(before + after))
    decreases |after|
  {
    var s := after[0];
    if |after| == 1 {
      PyScanSegment(s, "", before);
      assert PrintSegment(s) + "" == PrintSegment(s);
      assert after == [s];
    } else {
      var rest := PrintTail(after[1..]);
      PyScanSegment(s, "." + rest, before);
      assert PrintSegment(s) + ("." + rest) == PrintTail(after);
      assert ("." + rest)[1..] == rest;
      PyScanPrinted(before + [s], after[1..]);
      assert before + [s] + after[1..] == before + after;
    }
  }

  lemma {:induction false} PrintTailEnds(segments: seq<Segment>)
    requires segments != [] && NamesInAlphabet(segments)
    ensures PrintTail(segments) != ""
    ensures IsNameChar(PrintTail(segments)[0])
    ensures var last := PrintTail(segments)[|PrintTail(segments)| - 1]; IsNameChar(last) || last == ']'
    decreases |segments|
  {
    if |segments| > 1 {
      PrintTailEnds(segments[1..]);
    }
  }

  ghost predicate KeysBracketFree(segments: seq<Segment>) {
    forall i :: 0 <= i < |segments| ==> KeyBracketFree(segments[i])
  }

  lemma KeysBracketFreeSnoc(segments: seq<Segment>, s: Segment)
    requires KeysBracketFree(segments) && KeyBracketFree(s)
    ensures KeysBracketFree(segments + [s])
  {
  }

  /** Python's scan never puts a bracket into a key. */
  lemma {:induction false} PyKeysBracketFree(s: string, name: string, key: Option<string>, open: bool,
                                              segs: seq<Segment>)
    requires open ==> key.Some?
    requires KeyBracketFree(Segment(name, key)) && KeysBracketFree(segs)
    ensures var r := PyScan(s, name, key, open, segs); r.Ok? ==> KeysBracketFree(r.value.segments)
    decreases |s|
  {
    KeysBracketFreeSnoc(segs, Segment(name, key));
    if s != "" && PyScan(s, name, key, open, segs).Ok? {
      if s[0] == '[' {
        PyKeysBracketFree(s[1..], name, Some(""), true, segs);
      } else if s[0] == ']' {
        PyKeysBracketFree(s[1..], name, key, false, segs);
      } else if s[0] == '.' && !open {
        PyKeysBracketFree(s[1..], "", None, false, segs + [Segment(name, key)]);
      } else if open {
        PyKeysBracketFree(s[1..], name, Some(key.value + [s[0]]), true, segs);
      } else {
        PyKeysBracketFree(s[1..], name + [s[0]], key, false, segs);
      }
    }
  }

  ghost predicate NamesInAlphabet(segments: seq<Segment>) {
    forall i :: 0 <= i < |segments| ==> NameInAlphabet(segments[i])
  }

  lemma SharedIsCanonical(segments: seq<Segment>)
    requires Shared(segments)
    ensures AllCanonical(segments)
  {
    forall i | 0 <= i < |segments|
      ensures CanonicalSegment(segments[i])
    {
      if segments[i].key.Some? {
        PlainDepth(segments[i].key.value, 1);
      }
    }
  }

  lemma NotSpace(c: char)
    requires IsNameChar(c) || c == ']' || c == '.'
    ensures !IsPySpace(c)
  {
  }

  lemma PrintedIsTrimmed(a: Address)
    requires a.segments != [] && NamesInAlphabet(a.segments)
    ensures Print(a) == PrintTail(a.segments)
    ensures Print(a) != "" && Trim(Print(a), IsPySpace) == Print(a)
  {
    PrintFromFront(a.segments, [], a.segments);
    PrintTailEnds(a.segments);
    var text := Print(a);
    NotSpace(text[0]);
    NotSpace(text[|text| - 1]);
    TrimFixpoint(text, IsPySpace);
  }

  /**
   Two parsers, one grammar: on printed addresses with names in the alphabet, Python recovers the
   address exactly if no key holds a bracket, and then Rust recovers it too.
   */
  lemma PyAgrees(a: Address)
    requires a.segments != [] && NamesInAlphabet(a.segments)
    ensures PyParse(Print(a)) == Ok(a) <==> KeysBracketFree(a.segments)
    ensures KeysBracketFree(a.segments) ==> Parse(Print(a)) == Ok(a)
  {
    hide PyScan, Parse, Print, Trim, Shared, AllCanonical, KeysBracketFree, NamesInAlphabet;
    PrintedIsTrimmed(a);
    if KeysBracketFree(a.segments) {
      AlphabetIsShared(a.segments);
      PyScanPrinted([], a.segments);
      assert [] + a.segments == a.segments;
      SharedIsCanonical(a.segments);
      PrintParses(a);
    } else {
      NoKeys();
      PyKeysBracketFree(Print(a), "", None, false, []);
    }
  }

  lemma NoKeys()
    ensures KeysBracketFree([])
  {
  }

  lemma AlphabetIsShared(segments: seq<Segment>)
    requires NamesInAlphabet(segments) && KeysBracketFree(segments)
    ensures Shared(segments)
  {
  }

  /** Python reads an address with blanks around it as the address. */
  lemma PyStrips(before: string, core: string, after: string)
    requires AllSpace(before, IsPySpace) && AllSpace(after, IsPySpace) && Trimmed(core, IsPySpace)
    ensures PyParse(before + core + after) == PyParse(core)
  {
    TrimCore(before, core, after, IsPySpace);
    TrimFixpoint(core, IsPySpace);
  }

  /** On text that is no printed address they differ: Python forgives a trailing dot. */
  lemma PyForgivesTrailingDot(name: string)
    requires name != "" && forall i :: 0 <= i < |name| ==> IsNameChar(name[i])
    ensures PyParse(name + ".") == Ok(Flat(name)) && Parse(name + ".") == Err(EmptySegment)
  {
    var text := name + ".";
    NotSpace(text[0]);
    NotSpace('.');
    TrimFixpoint(text, IsPySpace);
    PyScanName(name, ".", "", None, []);
    PlainDepth(name, 0);
    ScanCollects(name, ".", 0, "", []);
    assert "" + name == name;
    var seg := Segment(name, None);
    assert '[' !in name;
    assert ParseSegment(name) == Ok(seg);
    assert "."[1..] == "" && [] + [seg] == [seg];
    assert Scan("", 0, "", [seg]) == Err(EmptySegment);
    assert Scan(".", 0, name, []) == Scan("", 0, "", [seg]);
    assert PyScan("", "", None, false, [seg]) == Ok(Address([seg]));
    assert PyScan(".", name, None, false, []) == PyScan("", "", None, false, [seg]);
  }
}
