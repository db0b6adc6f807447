/** The address grammar: printing and parsing are inverse, on exactly the canonical addresses. */
module Addresses {
  import opened Results
  import opened Wire

  // ---- Bracket depth ----

  /** One character at depth `d`; none below zero or at a separating dot. */
  function StepDepth(c: char, d: nat): Option<nat> {
    if c == '[' then Some(d + 1)
    else if c == ']' then if d == 0 then None else Some(d - 1)
    else if c == '.' && d == 0 then None
    else Some(d)
  }

  /** The depth after `s` from depth `d`. */
  function Depth(s: string, d: nat): Option<nat> {
    if s == "" then Some(d)
    else
      var d' := StepDepth(s[0], d);
      if d'.None? then None else Depth(s[1..], d'.value)
  }

  lemma {:induction false} DepthConcat(a: string, b: string, d: nat)
    ensures Depth(a + b, d) == if Depth(a, d).None? then None else Depth(b, Depth(a, d).value)
    decreases |a|
  {
    if a == "" {
      assert a + b == b;
    } else {
      assert (a + b)[1..] == a[1..] + b;
      var d' := StepDepth(a[0], d);
      if d'.Some? {
        DepthConcat(a[1..], b, d'.value);
      }
    }
  }

  predicate Plain(s: string) {
    '.' !in s && '[' !in s && ']' !in s
  }

  lemma {:induction false} PlainDepth(s: string, d: nat)
    requires '[' !in s && ']' !in s
    ensures Depth(s, d) == if d == 0 && '.' in s then None else Some(d)
    decreases |s|
  {
    if s != "" {
      assert s == [s[0]] + s[1..];
      PlainDepth(s[1..], d);
    }
  }

  /**
   A key may hold brackets and dots: from depth 1 the scan never goes below 0, meets no dot at 0,
   and ends at 1.
   */
  predicate CanonicalSegment(s: Segment) {
    s.name != "" && Plain(s.name) && (s.key.Some? ==> Depth(s.key.value, 1) == Some(1))
  }

  ghost predicate Canonical(a: Address) {
    a.segments != [] && AllCanonical(a.segments)
  }

  // ---- Parse, then print ----

  lemma KeyedDepth(name: string, key: string)
    requires '[' !in name
    ensures Depth(name + ("[" + (key + "]")), 0) == Some(0) <==> Plain(name) && Depth(key, 1) == Some(1)
  {
    var tail := "[" + (key + "]");
    DepthConcat(name, tail, 0);
    if Depth(name, 0).Some? {
      NoOpenNoClose(name);
    }
    if Plain(name) || Depth(name, 0).Some? {
      PlainDepth(name, 0);
      assert tail[1..] == key + "]";
      assert Depth(tail, 0) == Depth(key + "]", 1);
      DepthConcat(key, "]", 1);
      if Depth(key, 1).Some? {
        OneChar(']', Depth(key, 1).value);
      }
    }
  }

  lemma OneChar(c: char, d: nat)
    ensures Depth([c], d) == StepDepth(c, d)
  {
  }

  lemma NamedSegmentExact(raw: string)
    requires raw != "" && '[' !in raw && Depth(raw, 0) == Some(0)
    ensures Plain(raw)
  {
    NoOpenNoClose(raw);
    PlainDepth(raw, 0);
  }

  lemma KeyedText(raw: string, open: nat)
    requires open < |raw| - 1 && raw[open] == '[' && raw[|raw| - 1] == ']'
    ensures var name, key := raw[..open], raw[open + 1..|raw| - 1];
      raw == name + "[" + key + "]" && raw == name + ("[" + (key + "]"))
  {
    assert raw == raw[..open] + raw[open..] && raw[open..] == "[" + raw[open + 1..];
    assert raw[open + 1..] == raw[open + 1..|raw| - 1] + "]";
  }

  lemma KeyedSegmentExact(raw: string, open: nat)
    requires open < |raw| - 1 && raw[open] == '[' && '[' !in raw[..open] && raw[|raw| - 1] == ']'
    requires Depth(raw, 0) == Some(0)
    ensures Plain(raw[..open]) && Depth(raw[open + 1..|raw| - 1], 1) == Some(1)
  {
    hide Depth;
    KeyedText(raw, open);
    KeyedDepth(raw[..open], raw[open + 1..|raw| - 1]);
  }

  lemma ParseSegmentExact(raw: string)
    requires Depth(raw, 0) == Some(0) && ParseSegment(raw).Ok?
    ensures PrintSegment(ParseSegment(raw).value) == raw
    ensures CanonicalSegment(ParseSegment(raw).value)
  {
    hide Depth, Find;
    var open := Find(raw, '[');
    if open == |raw| {
      assert raw[..open] == raw;
      NamedSegmentExact(raw);
    } else {
      KeyedText(raw, open);
      KeyedSegmentExact(raw, open);
    }
  }

  /** Without an opening bracket there is no closing one either. */
  lemma {:induction false} NoOpenNoClose(s: string)
    requires '[' !in s && Depth(s, 0).Some?
    ensures ']' !in s
    decreases |s|
  {
    if s != "" {
      assert s == [s[0]] + s[1..];
      NoOpenNoClose(s[1..]);
    }
  }

  lemma PrintAllSnoc(segments: seq<Segment>, s: Segment)
    ensures PrintAll(segments + [s]) == PrintAll(segments) + PrintSegment(s) + "."
    ensures Print(Address(segments + [s])) == PrintAll(segments) + PrintSegment(s)
  {
    assert (segments + [s])[..|segments|] == segments;
  }

  ghost predicate AllCanonical(segments: seq<Segment>) {
    forall i :: 0 <= i < |segments| ==> CanonicalSegment(segments[i])
  }

  lemma AllCanonicalSnoc(segments: seq<Segment>, s: Segment)
    requires AllCanonical(segments) && CanonicalSegment(s)
    ensures AllCanonical(segments + [s])
  {
  }

  lemma Regroup(a: string, b: string, c: string, d: string)
    ensures a + b + c + ("" + d) == a + (b + (c + d))
    ensures a + b + c + d == a + (b + c + d)
  {
  }

  lemma EmptyBalance()
    ensures Depth("", 0) == Some(0)
  {
  }

  lemma {:induction false} ScanExact(s: string, depth: nat, current: string, segments: seq<Segment>)
    requires Depth(current, 0) == Some(depth) && AllCanonical(segments)
    requires Scan(s, depth, current, segments).Ok?
    ensures var a := Scan(s, depth, current, segments).value;
      Print(a) == PrintAll(segments) + (current + s) && Canonical(a)
    decreases |s|
  {
    hide ParseSegment, PrintSegment, CanonicalSegment, AllCanonical, PrintAll, Print;
    EmptyBalance();
    if s == "" || (s[0] == '.' && depth == 0) {
      ParseSegmentExact(current);
      PrintAllSnoc(segments, ParseSegment(current).value);
      AllCanonicalSnoc(segments, ParseSegment(current).value);
    }
    if s == "" {
      assert current + s == current;
    } else if s[0] == '.' && depth == 0 {
      var rest := s[1..];
      assert s == "." + rest;
      ScanExact(rest, 0, "", segments + [ParseSegment(current).value]);
      Regroup(PrintAll(segments), current, ".", rest);
    } else {
      var c, rest := s[0], s[1..];
      DepthConcat(current, [c], 0);
      OneChar(c, depth);
      assert current + [c] + rest == current + s;
      ScanExact(rest, StepDepth(c, depth).value, current + [c], segments);
    }
  }

  /** Whatever the parser accepts is canonical and prints back character for character. */
  lemma ParsePrints(s: string)
    requires Parse(s).Ok?
    ensures Print(Parse(s).value) == s && Canonical(Parse(s).value)
  {
    ScanExact(s, 0, "", []);
    assert PrintAll([]) + ("" + s) == s;
  }

  /** So no two texts parse to the same address. */
  lemma ParseInjective(s: string, t: string)
    requires Parse(s).Ok? && Parse(s) == Parse(t)
    ensures s == t
  {
    ParsePrints(s);
    ParsePrints(t);
  }

  // ---- Print, then parse ----

  /** Scanning over text without separating dots only collects it. */
  lemma {:induction false} ScanCollects(text: string, rest: string, depth: nat, current: string, segments: seq<Segment>)
    requires Depth(text, depth).Some?
    ensures Scan(text + rest, depth, current, segments)
         == Scan(rest, Depth(text, depth).value, current + text, segments)
    decreases |text|
  {
    if text == "" {
      assert text + rest == rest && current + text == current;
    } else {
      var c := text[0];
      assert (text + rest)[1..] == text[1..] + rest;
      ScanCollects(text[1..], rest, StepDepth(c, depth).value, current + [c], segments);
      assert current + [c] + text[1..] == current + text;
    }
  }

  lemma PrintSegmentExact(s: Segment)
    requires CanonicalSegment(s)
    ensures Depth(PrintSegment(s), 0) == Some(0)
    ensures ParseSegment(PrintSegment(s)) == Ok(s)
  {
    PlainDepth(s.name, 0);
    var raw := PrintSegment(s);
    if s.key.Some? {
      var key := s.key.value;
      assert raw == s.name + ("[" + (key + "]"));
      DepthConcat(s.name, "[" + (key + "]"), 0);
      assert ("[" + (key + "]"))[1..] == key + "]";
      DepthConcat(key, "]", 1);
      assert raw[|s.name|] == '[';
      assert raw[..|s.name|] == s.name;
      assert Find(raw, '[') == |s.name|;
      assert raw[|s.name| + 1..|raw| - 1] == key;
    }
  }

  lemma ScanSegment(s: Segment, rest: string, before: seq<Segment>)
    requires CanonicalSegment(s)
    ensures Scan(PrintSegment(s) + rest, 0, "", before) == Scan(rest, 0, PrintSegment(s), before)
  {
    PrintSegmentExact(s);
    ScanCollects(PrintSegment(s), rest, 0, "", before);
    assert "" + PrintSegment(s) == PrintSegment(s);
  }

  lemma ScanLast(s: Segment, before: seq<Segment>)
    requires ParseSegment(PrintSegment(s)) == Ok(s)
    ensures Scan("", 0, PrintSegment(s), before) == Ok(Address(before + [s]))
  {
  }

  lemma ScanDot(s: Segment, rest: string, before: seq<Segment>)
    requires ParseSegment(PrintSegment(s)) == Ok(s)
    ensures Scan("." + rest, 0, PrintSegment(s), before) == Scan(rest, 0, "", before + [s])
  {
    assert ("." + rest)[1..] == rest;
  }

  lemma {:induction false} ScanPrinted(before: seq<Segment>, after: seq<Segment>)
    requires after != [] && AllCanonical(after)
    ensures Scan(PrintTail(after), 0, "", before) == Ok(Address(before + after))
    decreases |after|
  {
    hide Scan, PrintSegment, CanonicalSegment;
    PrintSegmentExact(after[0]);
    if |after| == 1 {
      ScanLast(after[0], before);
      ScanSegment(after[0], "", before);
      assert PrintSegment(after[0]) + "" == PrintSegment(after[0]);
      assert after == [after[0]];
    } else {
      var rest := PrintTail(after[1..]);
      ScanSegment(after[0], "." + rest, before);
      assert PrintSegment(after[0]) + ("." + rest) == PrintTail(after);
      ScanDot(after[0], rest, before);
      ScanPrinted(before + [after[0]], after[1..]);
      assert before + [after[0]] + after[1..] == before + after;
    }
  }

  /** The printed form, read from the front. */
  function PrintTail(segments: seq<Segment>): string
    requires segments != []
  {
    if |segments| == 1 then PrintSegment(segments[0])
    else PrintSegment(segments[0]) + "." + PrintTail(segments[1..])
  }

  lemma {:induction false} PrintFromFront(whole: seq<Segment>, before: seq<Segment>, after: seq<Segment>)
    requires after != [] && whole == before + after
    ensures Print(Address(whole)) == PrintAll(before) + PrintTail(after)
    decreases |after|
  {
    PrintAllSnoc(before, after[0]);
    if |after| == 1 {
      assert whole == before + [after[0]];
    } else {
      PrintFromFront(whole, before + [after[0]], after[1..]);
      Regroup(PrintAll(before), PrintSegment(after[0]), ".", PrintTail(after[1..]));
    }
  }

  lemma PrintParses(a: Address)
    requires Canonical(a)
    ensures Parse(Print(a)) == Ok(a)
  {
    ScanPrinted([], a.segments);
    PrintFromFront(a.segments, [], a.segments);
    assert [] + a.segments == a.segments;
    assert Print(a) == PrintTail(a.segments);
    assert PrintTail(a.segments) != "" by {
      assert PrintSegment(a.segments[0]) != "";
    }
  }

  /** An address survives the text form exactly if it is canonical. */
  lemma PrintParseIffCanonical(a: Address)
    ensures Parse(Print(a)) == Ok(a) <==> Canonical(a)
  {
    if Canonical(a) {
      PrintParses(a);
    } else if Parse(Print(a)) == Ok(a) {
      ParsePrints(Print(a));
    }
  }

  /** A plain, non-empty name makes a canonical flat address, whose organism it is. */
  lemma FlatRoundTrip(name: string)
    ensures Canonical(Flat(name)) <==> name != "" && Plain(name)
    ensures Organism(Flat(name)) == Some(name)
    ensures Print(Flat(name)) == name
  {
    assert Flat(name).segments[0] == Segment(name, None);
  }
}
