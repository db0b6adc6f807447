/** On which texts the two address parsers agree, and which one takes more. */
module ParserAgreement {
  import opened Results
  import opened Text
  import opened Wire
  import opened Addresses
  import opened PyAddresses

  // ---- Same text, same address ----

  function KeyLength(key: Option<string>, open: bool): nat {
    if key.None? then 0 else |key.value| + if open then 1 else 2
  }

  /** Python keeps no more than it reads: an address is printed no longer than the text. */
  lemma {:induction false} PyPrintBound(s: string, name: string, key: Option<string>, open: bool, segs: seq<Segment>)
    requires (open ==> key.Some?) && PyScan(s, name, key, open, segs).Ok?
    ensures |Print(PyScan(s, name, key, open, segs).value)| <= |PrintAll(segs)| + |name| + KeyLength(key, open) + |s|
    decreases |s|
  {
    if s == "" {
      PrintAllSnoc(segs, Segment(name, key));
    } else if s[0] == '[' {
      PyPrintBound(s[1..], name, Some(""), true, segs);
    } else if s[0] == ']' {
      PyPrintBound(s[1..], name, key, false, segs);
    } else if s[0] == '.' && !open {
      PrintAllSnoc(segs, Segment(name, key));
      PyPrintBound(s[1..], "", None, false, segs + [Segment(name, key)]);
    } else if open {
      PyPrintBound(s[1..], name, Some(key.value + [s[0]]), true, segs);
    } else {
      PyPrintBound(s[1..], name + [s[0]], key, false, segs);
    }
  }

  lemma AgreementIsExact(s: string)
    requires Parse(s).Ok? && PyParse(s).Ok? && PyParse(s).value == Parse(s).value
    ensures KeysBracketFree(Parse(s).value.segments) && Trim(s, IsPySpace) == s
  {
    hide Parse, Trim, PyScan;
    var t := Trim(s, IsPySpace);
    ParsePrints(s);
    PyKeysBracketFree(t, "", None, false, []);
    PyPrintBound(t, "", None, false, []);
    TrimLength(s, IsPySpace);
  }

  lemma PythonFollows(s: string)
    requires Parse(s).Ok? && KeysBracketFree(Parse(s).value.segments) && Trim(s, IsPySpace) == s
    ensures PyParse(s) == Ok(Parse(s).value)
  {
    AcceptedIsText(s);
    hide Parse, Trim, PyScan, KeysBracketFree, Shared, Print;
    var a := Parse(s).value;
    ParsePrints(s);
    PrintFromFront(a.segments, [], a.segments);
    assert [] + a.segments == a.segments && PrintAll([]) + PrintTail(a.segments) == PrintTail(a.segments);
    CanonicalIsShared(a);
    PyScanPrinted([], a.segments);
  }

  /**
   Both parsers read one address from a text exactly if the Rust parser accepts it, no key holds
   a bracket, and Python has nothing to strip.
   */
  lemma ParsersAgree(s: string)
    ensures (Parse(s).Ok? && PyParse(s).Ok? && PyParse(s).value == Parse(s).value)
      <==> (Parse(s).Ok? && KeysBracketFree(Parse(s).value.segments) && Trim(s, IsPySpace) == s)
  {
    hide Parse, PyParse, Trim, KeysBracketFree;
    if Parse(s).Ok? && PyParse(s).Ok? && PyParse(s).value == Parse(s).value {
      AgreementIsExact(s);
    }
    if Parse(s).Ok? && KeysBracketFree(Parse(s).value.segments) && Trim(s, IsPySpace) == s {
      PythonFollows(s);
    }
  }

  lemma AcceptedIsText(s: string)
    ensures Parse(s).Ok? ==> s != ""
  {
  }

  lemma CanonicalIsShared(a: Address)
    requires Canonical(a) && KeysBracketFree(a.segments)
    ensures Shared(a.segments)
  {
  }

  // ---- Which texts each parser accepts ----

  /** The pieces between dots outside brackets. */
  function Pieces(s: string, inside: bool): (r: seq<string>)
    ensures |r| >= 1
  {
    if s == "" then [""]
    else if s[0] == '.' && !inside then [""] + Pieces(s[1..], false)
    else
      var rest := Pieces(s[1..], if s[0] == '[' then true else if s[0] == ']' then false else inside);
      [[s[0]] + rest[0]] + rest[1..]
  }

  /** Brackets open and close in turn. */
  predicate FlatBrackets(s: string, inside: bool) {
    if s == "" then !inside
    else if s[0] == '[' then !inside && FlatBrackets(s[1..], true)
    else if s[0] == ']' then inside && FlatBrackets(s[1..], false)
    else FlatBrackets(s[1..], inside)
  }

  /** What stands outside brackets. */
  function Outside(s: string, inside: bool): string {
    if s == "" then ""
    else if s[0] == '[' then Outside(s[1..], true)
    else if s[0] == ']' then Outside(s[1..], false)
    else if inside then Outside(s[1..], true)
    else [s[0]] + Outside(s[1..], false)
  }

  /** Every piece but the last is named, and the last one too if it is the only one. */
  ghost predicate Named(pieces: seq<string>)
    requires |pieces| >= 1
  {
    && (forall i :: 0 <= i < |pieces| - 1 ==> Outside(pieces[i], false) != "")
    && (|pieces| > 1 || Outside(pieces[0], false) != "")
  }

  /** The same for a first piece that is half read, behind `before`. */
  predicate NamedFrom(pieces: seq<string>, before: string, inside: bool, later: bool)
    requires |pieces| >= 1
  {
    if |pieces| == 1 then before + Outside(pieces[0], inside) != "" || later
    else before + Outside(pieces[0], inside) != "" && NamedFrom(pieces[1..], "", false, true)
  }

  lemma {:induction false} NamedFromMeans(pieces: seq<string>, later: bool)
    requires |pieces| >= 1
    ensures NamedFrom(pieces, "", false, later)
      <==> ((forall i :: 0 <= i < |pieces| - 1 ==> Outside(pieces[i], false) != "")
            && (later || |pieces| > 1 || Outside(pieces[0], false) != ""))
    decreases |pieces|
  {
    hide Outside;
    assert "" + Outside(pieces[0], false) == Outside(pieces[0], false);
    if |pieces| > 1 {
      NamedFromMeans(pieces[1..], true);
      assert forall i :: 0 <= i < |pieces| - 2 ==> pieces[1..][i] == pieces[i + 1];
      assert forall i :: 0 < i < |pieces| - 1 ==> pieces[i] == pieces[1..][i - 1];
    }
  }

  lemma NamedFromFirst(c: char, rest: seq<string>, before: string,
                          inside: bool, inside': bool, before': string, later: bool)
    requires |rest| >= 1 && before + Outside([c] + rest[0], inside) == before' + Outside(rest[0], inside')
    ensures NamedFrom([[c] + rest[0]] + rest[1..], before, inside, later) == NamedFrom(rest, before', inside', later)
  {
    assert ([[c] + rest[0]] + rest[1..])[1..] == rest[1..];
  }

  lemma OutsideFirst(c: char, s: string, inside: bool)
    ensures Outside([c] + s, inside)
      == if c == '[' then Outside(s, true) else if c == ']' then Outside(s, false)
         else if inside then Outside(s, true) else [c] + Outside(s, false)
  {
    assert ([c] + s)[1..] == s;
  }

  lemma {:induction false} PyScanAccepts(s: string, name: string, key: Option<string>, open: bool, segs: seq<Segment>)
    requires open ==> key.Some?
    ensures PyScan(s, name, key, open, segs).Ok?
      <==> FlatBrackets(s, open) && NamedFrom(Pieces(s, open), name, open, segs != [])
    decreases |s|
  {
    hide Outside;
    if s == "" {
      NothingOutside();
      assert name + "" == name;
    } else if s[0] == '.' && !open {
      NothingOutside();
      var rest := Pieces(s[1..], false);
      assert ([""] + rest)[1..] == rest && name + "" == name;
      PyScanAccepts(s[1..], "", None, false, segs + [Segment(name, key)]);
    } else {
      var inside := if s[0] == '[' then true else if s[0] == ']' then false else open;
      var rest := Pieces(s[1..], inside);
      OutsideFirst(s[0], rest[0], open);
      if s[0] == '[' {
        NamedFromFirst(s[0], rest, name, open, true, name, segs != []);
        PyScanAccepts(s[1..], name, Some(""), true, segs);
      } else if s[0] == ']' {
        NamedFromFirst(s[0], rest, name, open, false, name, segs != []);
        PyScanAccepts(s[1..], name, key, false, segs);
      } else if open {
        NamedFromFirst(s[0], rest, name, open, true, name, segs != []);
        PyScanAccepts(s[1..], name, Some(key.value + [s[0]]), true, segs);
      } else {
        assert name + ([s[0]] + Outside(rest[0], false)) == name + [s[0]] + Outside(rest[0], false);
        NamedFromFirst(s[0], rest, name, open, false, name + [s[0]], segs != []);
        PyScanAccepts(s[1..], name + [s[0]], key, false, segs);
      }
    }
  }

  lemma NothingOutside()
    ensures Outside("", false) == "" && Outside("", true) == ""
  {
  }

  /** Python accepts exactly texts with brackets in turn and named pieces, once stripped. */
  lemma PythonAccepts(s: string)
    ensures var t := Trim(s, IsPySpace);
      PyParse(s).Ok? <==> FlatBrackets(t, false) && Named(Pieces(t, false))
  {
    hide PyScan, Trim, Outside;
    var t := Trim(s, IsPySpace);
    NothingOutside();
    PyScanAccepts(t, "", None, false, []);
    NamedFromMeans(Pieces(t, false), false);
  }

  /** A piece the Rust parser takes: a name, then nothing or one bracket up to the end. */
  predicate GoodPiece(p: string) {
    p != "" && p[0] != '[' && ('[' in p ==> p[|p| - 1] == ']')
  }

  lemma GoodPieceParses(p: string)
    ensures ParseSegment(p).Ok? <==> GoodPiece(p)
  {
    var open := Find(p, '[');
    assert p[..|p|] == p;
    assert '[' in p <==> open < |p|;
  }

  ghost predicate GoodPieces(pieces: seq<string>) {
    forall i :: 0 <= i < |pieces| ==> GoodPiece(pieces[i])
  }

  /** Brackets never close before they open, and all are closed; they may nest. */
  predicate Balanced(s: string, depth: nat) {
    if s == "" then depth == 0
    else if s[0] == '[' then Balanced(s[1..], depth + 1)
    else if s[0] == ']' then depth > 0 && Balanced(s[1..], depth - 1)
    else Balanced(s[1..], depth)
  }

  function DepthAfter(c: char, depth: nat): nat {
    if c == '[' then depth + 1 else if c == ']' && depth > 0 then depth - 1 else depth
  }

  /** The pieces between dots at depth 0. */
  function NestedPieces(s: string, depth: nat): (r: seq<string>)
    ensures |r| >= 1
  {
    if s == "" then [""]
    else if s[0] == '.' && depth == 0 then [""] + NestedPieces(s[1..], 0)
    else
      var rest := NestedPieces(s[1..], DepthAfter(s[0], depth));
      [[s[0]] + rest[0]] + rest[1..]
  }

  lemma {:induction false} ScanAccepts(s: string, depth: nat, current: string, segments: seq<Segment>)
    ensures var pieces := NestedPieces(s, depth);
      Scan(s, depth, current, segments).Ok?
      <==> Balanced(s, depth) && GoodPiece(current + pieces[0]) && GoodPieces(pieces[1..])
    decreases |s|
  {
    hide ParseSegment, GoodPiece;
    GoodPieceParses(current);
    if s == "" {
      assert current + "" == current;
    } else if s[0] == '.' && depth == 0 {
      var rest := NestedPieces(s[1..], 0);
      assert ([""] + rest)[1..] == rest && current + "" == current;
      assert GoodPieces(rest) <==> GoodPiece("" + rest[0]) && GoodPieces(rest[1..]) by {
        assert "" + rest[0] == rest[0] && rest == [rest[0]] + rest[1..];
      }
      if ParseSegment(current).Ok? {
        ScanAccepts(s[1..], 0, "", segments + [ParseSegment(current).value]);
      }
    } else {
      var rest := NestedPieces(s[1..], DepthAfter(s[0], depth));
      assert ([[s[0]] + rest[0]] + rest[1..])[1..] == rest[1..];
      assert current + ([s[0]] + rest[0]) == current + [s[0]] + rest[0];
      if s[0] != ']' || depth > 0 {
        ScanAccepts(s[1..], DepthAfter(s[0], depth), current + [s[0]], segments);
      }
    }
  }

  /** The Rust parser accepts exactly balanced texts with good pieces. */
  lemma RustAccepts(s: string)
    ensures Parse(s).Ok? <==> Balanced(s, 0) && GoodPieces(NestedPieces(s, 0))
  {
    hide GoodPiece;
    var pieces := NestedPieces(s, 0);
    ScanAccepts(s, 0, "", []);
    assert "" + pieces[0] == pieces[0] && pieces == [pieces[0]] + pieces[1..];
    if s == "" {
      EmptyIsBad();
      assert !GoodPiece(pieces[0]);
    }
  }

  lemma EmptyIsBad()
    ensures !GoodPiece("")
  {
  }

  /** With brackets in turn, both notions of a piece agree. */
  lemma {:induction false} FlatPieces(s: string, inside: bool)
    requires FlatBrackets(s, inside)
    ensures var depth := if inside then 1 else 0;
      Balanced(s, depth) && NestedPieces(s, depth) == Pieces(s, inside)
  {
    if s != "" {
      FlatPieces(s[1..], if s[0] == '[' then true else if s[0] == ']' then false else inside);
    }
  }

  // ---- Stripping ----

  lemma {:induction false} FlatSnoc(s: string, c: char, inside: bool)
    requires c != '[' && c != ']'
    ensures FlatBrackets(s + [c], inside) == FlatBrackets(s, inside)
  {
    if s != "" {
      assert (s + [c])[1..] == s[1..] + [c];
      FlatSnoc(s[1..], c, if s[0] == '[' then true else if s[0] == ']' then false else inside);
    } else {
      assert ([] + [c])[1..] == "";
    }
  }

  lemma {:induction false} FlatTrimStart(s: string)
    ensures FlatBrackets(TrimStart(s, IsPySpace), false) == FlatBrackets(s, false)
  {
    if s != "" && IsPySpace(s[0]) {
      FlatTrimStart(s[1..]);
    }
  }

  lemma {:induction false} FlatTrimEnd(s: string)
    ensures FlatBrackets(TrimEnd(s, IsPySpace), false) == FlatBrackets(s, false)
    decreases |s|
  {
    if s != "" && IsPySpace(s[|s| - 1]) {
      FlatTrimEnd(s[..|s| - 1]);
      FlatSnoc(s[..|s| - 1], s[|s| - 1], false);
      assert s == s[..|s| - 1] + [s[|s| - 1]];
    }
  }

  /**
   Python accepts what Rust refuses exactly on texts which, once stripped, have brackets in turn
   and named pieces, and one piece of which, unstripped, is empty, starts with a bracket, or goes
   on after its last bracket.
   */
  lemma PythonAcceptsMore(s: string)
    ensures var t := Trim(s, IsPySpace);
      (PyParse(s).Ok? && Parse(s).Err?)
      <==> (FlatBrackets(t, false) && Named(Pieces(t, false))
            && exists i :: 0 <= i < |Pieces(s, false)| && !GoodPiece(Pieces(s, false)[i]))
  {
    hide Parse, PyParse, Named, GoodPiece, Pieces, NestedPieces, Balanced;
    PythonAccepts(s);
    FlatTrimStart(s);
    FlatTrimEnd(TrimStart(s, IsPySpace));
    RustAccepts(s);
    if FlatBrackets(s, false) {
      FlatPieces(s, false);
    }
  }


  // ---- Inputs ----

  predicate InAlphabet(s: string) {
    NameInAlphabet(Segment(s, None))
  }

  lemma AlphabetIsPlain(s: string)
    requires InAlphabet(s)
    ensures Plain(s) && !IsPySpace(s[0]) && !IsPySpace(s[|s| - 1]) && s[|s| - 1] != ']'
  {
    NotSpace(s[0]);
    NotSpace(s[|s| - 1]);
  }

  lemma KeyedBalance(name: string, key: string)
    requires Plain(name) && BracketFree(key)
    ensures Depth(name + ("[" + (key + "]")), 0) == Some(0)
  {
    PlainDepth(key, 1);
    KeyedDepth(name, key);
  }

  /** A text without dots outside brackets is one segment. */
  lemma OneSegment(s: string)
    requires s != "" && Depth(s, 0) == Some(0)
    ensures Parse(s) == if ParseSegment(s).Ok? then Ok(Address([ParseSegment(s).value])) else Err(ParseSegment(s).error)
  {
    hide ParseSegment, Depth;
    ScanCollects(s, "", 0, "", []);
    assert s + "" == s && "" + s == s;
    if ParseSegment(s).Ok? {
      assert [] + [ParseSegment(s).value] == [ParseSegment(s).value];
    }
  }

  lemma FirstBracket(name: string, rest: string)
    requires '[' !in name
    ensures Find(name + ("[" + rest), '[') == |name|
  {
    var s := name + ("[" + rest);
    var i := Find(s, '[');
    assert s[|name|] == '[' && forall j :: 0 <= j < |name| ==> s[j] == name[j];
    assert forall j :: 0 <= j < i ==> s[j] == s[..i][j];
    assert i <= |name|;
  }

  lemma PyReadsBracket(name: string, key: string, rest: string)
    requires Plain(name) && BracketFree(key)
    ensures PyScan(name + ("[" + (key + "]")) + rest, "", None, false, []) == PyScan(rest, name, Some(key), false, [])
  {
    hide PyScan;
    var s := Segment(name, Some(key));
    assert PrintSegment(s) == name + ("[" + (key + "]"));
    PyScanSegment(s, rest, []);
  }

  lemma PyReadsTail(name: string, key: string, tail: string)
    requires Plain(tail) && name != ""
    ensures PyScan(tail, name, Some(key), false, []) == Ok(Address([Segment(name + tail, Some(key))]))
  {
    PyScanName(tail, "", name, Some(key), []);
    assert tail + "" == tail && [] + [Segment(name + tail, Some(key))] == [Segment(name + tail, Some(key))];
  }

  lemma PyReadsSecond(name: string, key: string, other: string)
    requires BracketFree(other) && name != ""
    ensures PyScan("[" + (other + "]"), name, Some(key), false, []) == Ok(Address([Segment(name, Some(other))]))
  {
    var second := "[" + (other + "]");
    assert second[1..] == other + "]";
    PyScanKey(other, "]", name, "", []);
    assert "" + other == other && "]"[1..] == "";
    assert PyScan("]", name, Some(other), true, []) == PyScan("", name, Some(other), false, []);
    assert [] + [Segment(name, Some(other))] == [Segment(name, Some(other))];
  }

  function Keyed(name: string, key: string): string {
    name + ("[" + (key + "]"))
  }

  lemma RustRefusesTail(name: string, key: string, tail: string)
    requires InAlphabet(name) && InAlphabet(tail) && BracketFree(key)
    ensures Parse(Keyed(name, key) + tail) == Err(Unbalanced)
  {
    AlphabetIsPlain(name);
    AlphabetIsPlain(tail);
    var s := Keyed(name, key) + tail;
    KeyedBalance(name, key);
    DepthConcat(Keyed(name, key), tail, 0);
    PlainDepth(tail, 0);
    OneSegment(s);
    assert s == name + ("[" + ((key + "]") + tail));
    FirstBracket(name, (key + "]") + tail);
    hide Find, Depth, Parse;
    assert s[|s| - 1] == tail[|tail| - 1];
  }

  /** Text behind a bracket: Python takes it into the name, Rust refuses it. */
  lemma TextAfterBracket(name: string, key: string, tail: string)
    requires InAlphabet(name) && InAlphabet(tail) && BracketFree(key)
    ensures var s := Keyed(name, key) + tail;
      PyParse(s) == Ok(Address([Segment(name + tail, Some(key))])) && Parse(s) == Err(Unbalanced)
  {
    hide PyScan, Parse, Trim;
    AlphabetIsPlain(name);
    AlphabetIsPlain(tail);
    RustRefusesTail(name, key, tail);
    TrimFixpoint(Keyed(name, key) + tail, IsPySpace);
    PyReadsBracket(name, key, tail);
    PyReadsTail(name, key, tail);
  }

  lemma RustReadsLongKey(name: string, key: string, other: string)
    requires InAlphabet(name) && BracketFree(key) && BracketFree(other)
    ensures Parse(Keyed(name, key) + Keyed("", other)) == Ok(Address([Segment(name, Some(key + "][" + other))]))
  {
    AlphabetIsPlain(name);
    var s := Keyed(name, key) + Keyed("", other);
    KeyedBalance(name, key);
    KeyedBalance("", other);
    DepthConcat(Keyed(name, key), Keyed("", other), 0);
    OneSegment(s);
    assert s == name + ("[" + ((key + "]") + Keyed("", other)));
    FirstBracket(name, (key + "]") + Keyed("", other));
    hide Find, Depth, Parse;
    assert s[..|name|] == name;
    assert s[|name| + 1..|s| - 1] == key + "][" + other;
  }

  /** Two brackets: both accept, and read different keys. */
  lemma TwoBrackets(name: string, key: string, other: string)
    requires InAlphabet(name) && BracketFree(key) && BracketFree(other)
    ensures var s := Keyed(name, key) + Keyed("", other);
      && PyParse(s) == Ok(Address([Segment(name, Some(other))]))
      && Parse(s) == Ok(Address([Segment(name, Some(key + "][" + other))]))
  {
    hide PyScan, Parse, Trim;
    AlphabetIsPlain(name);
    RustReadsLongKey(name, key, other);
    TrimFixpoint(Keyed(name, key) + Keyed("", other), IsPySpace);
    PyReadsBracket(name, key, Keyed("", other));
    PyReadsSecond(name, key, other);
    assert Keyed("", other) == "[" + (other + "]");
  }

  lemma Disagreements()
    ensures PyParse("a[k]b") == Ok(Address([Segment("ab", Some("k"))])) && Parse("a[k]b") == Err(Unbalanced)
    ensures PyParse("a[k][l]") == Ok(Address([Segment("a", Some("l"))]))
         && Parse("a[k][l]") == Ok(Address([Segment("a", Some("k][l"))]))
  {
    hide Parse, PyParse;
    TextAfterBracket("a", "k", "b");
    assert Keyed("a", "k") + "b" == "a[k]b" && "a" + "b" == "ab";
    TwoBrackets("a", "k", "l");
    assert Keyed("a", "k") + Keyed("", "l") == "a[k][l]" && "k" + "][" + "l" == "k][l";
  }
}
