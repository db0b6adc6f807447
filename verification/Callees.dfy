/**
 Which callee an address names when it is sent, and which one when it arrives.

 A handler's address is typed. What is read back is the parse of its printed, trimmed text, and
 only canonical addresses are sure to survive that.
 */
module Callees {
  import opened Results
  import opened Text
  import opened Wire
  import opened Addresses
  import opened Chains
  import opened CodecTheorems
  import opened EnvelopeTheorems

  /** What arrives of an address. */
  function Arrived(sent: Address): Option<Address> {
    var text := ArrivedText(Print(sent));
    if text.None? || Parse(text.value).Err? then None else Some(Parse(text.value).value)
  }

  lemma ToArrives(e: Envelope)
    requires Received(e).Ok? && Received(e).value.meta.to.Some?
    ensures e.meta.to.Some? && Received(e).value.meta.to == Arrived(e.meta.to.value)
  {
    hide Received, Trim, Parse, Print;
    ReceivedMeta(e);
  }

  /** A canonical address arrives as it was sent. */
  lemma CanonicalCalleeArrives(sent: Address)
    requires AddressCarries(sent)
    ensures Arrived(sent) == Some(sent)
  {
    hide Parse, Print, Trim, AddressCarries;
    AddressArrives(sent);
  }

  // ---- The organism in the text ----

  function AfterLastDot(s: string): string {
    if DOT !in s then s
    else
      var i := Find(s, DOT);
      AfterLastDot(s[i + 1..])
  }

  /**
   The name before the first bracket, after the last dot before it; without brackets, what stands
   before the first dot.
   */
  function OrganismText(s: string): string {
    if '[' in s then AfterLastDot(s[..Find(s, '[')]) else s[..Find(s, DOT)]
  }

  lemma FindBehind(front: string, c: char, rest: string)
    requires c !in front
    ensures Find(front + rest, c) == |front| + Find(rest, c)
    ensures c in front + rest <==> c in rest
  {
    var s := front + rest;
    var i, j := Find(s, c), |front| + Find(rest, c);
    assert forall k :: 0 <= k < |front| ==> s[k] == front[k];
    assert forall k :: |front| <= k < |s| ==> s[k] == rest[k - |front|];
    assert forall k :: 0 <= k < i ==> s[k] == s[..i][k];
    assert forall k :: 0 <= k < Find(rest, c) ==> rest[k] == rest[..Find(rest, c)][k];
    assert forall k :: 0 <= k < j ==> s[k] != c;
    assert i >= j;
    assert j < |s| ==> s[j] == c;
  }

  lemma AfterDots(name: string, rest: string)
    requires DOT !in name
    ensures AfterLastDot(name) == name
    ensures AfterLastDot(name + [DOT] + rest) == AfterLastDot(rest)
  {
    var s := name + [DOT] + rest;
    assert s == name + ([DOT] + rest);
    FindBehind(name, DOT, [DOT] + rest);
    assert s[|name|] == DOT && s[|name| + 1..] == rest;
  }

  lemma FindDot(rest: string)
    ensures Find([DOT] + rest, DOT) == 0
  {
  }

  lemma NameOnly(name: string)
    requires Plain(name)
    ensures OrganismText(name) == name
  {
    FindBehind(name, DOT, "");
    assert name + "" == name && name[..|name|] == name;
  }

  lemma NameBeforeBracket(name: string, rest: string)
    requires Plain(name) && rest != "" && rest[0] == '['
    ensures '[' in name + rest && OrganismText(name + rest) == name
  {
    FindBehind(name, '[', rest);
    AfterDots(name, "");
    assert (name + rest)[..|name|] == name;
  }

  lemma NameBeforeDot(name: string, rest: string)
    requires Plain(name)
    ensures var s := name + [DOT] + rest;
      && ('[' in s <==> '[' in rest)
      && OrganismText(s) == if '[' in rest then OrganismText(rest) else name
  {
    hide Find, AfterLastDot;
    var s := name + [DOT] + rest;
    FindBehind(name + [DOT], '[', rest);
    FindDot(rest);
    if '[' in rest {
      var f := Find(rest, '[');
      assert s[..|name| + 1 + f] == name + [DOT] + rest[..f];
      AfterDots(name, rest[..f]);
    } else {
      assert s == name + ([DOT] + rest);
      FindBehind(name, DOT, [DOT] + rest);
      assert s[..|name|] == name;
    }
  }

  /** A printed address names its organism where the text does. */
  lemma {:induction false} OrganismOfTail(segments: seq<Segment>)
    requires segments != [] && AllCanonical(segments)
    ensures '[' in PrintTail(segments) <==> FirstKeyed(segments) < |segments|
    ensures OrganismText(PrintTail(segments)) == OrganismOrEmpty(Address(segments))
    decreases |segments|
  {
    hide OrganismText, Plain;
    var first := segments[0];
    assert CanonicalSegment(first);
    if |segments| == 1 && first.key.None? {
      NameOnly(first.name);
      PlainHasNoBracket(first.name);
    } else if first.key.Some? {
      var rest := "[" + first.key.value + "]" + if |segments| == 1 then "" else "." + PrintTail(segments[1..]);
      assert PrintTail(segments) == first.name + rest;
      NameBeforeBracket(first.name, rest);
    } else {
      NameBeforeDot(first.name, PrintTail(segments[1..]));
      OrganismOfTail(segments[1..]);
    }
  }

  lemma PlainHasNoBracket(name: string)
    requires Plain(name)
    ensures '[' !in name
  {
  }

  /** An accepted text names the organism of the address it stands for. */
  lemma OrganismOfText(s: string)
    requires Parse(s).Ok?
    ensures OrganismText(s) == OrganismOrEmpty(Parse(s).value)
  {
    hide Parse, OrganismText, OrganismOrEmpty, Print, AllCanonical;
    ParsePrints(s);
    var segments := Parse(s).value.segments;
    PrintFromFront(segments, [], segments);
    assert [] + segments == segments && PrintAll([]) + PrintTail(segments) == PrintTail(segments);
    OrganismOfTail(segments);
  }

  /** What a sender can check: the printed, trimmed text names the organism of the address. */
  predicate NamesCallee(sent: Address) {
    var text := ArrivedText(Print(sent));
    text.Some? && OrganismText(text.value) == OrganismOrEmpty(sent)
  }

  /** The callee that arrives is the one that was sent exactly if the text names it. */
  lemma SameCalleeArrives(sent: Address)
    requires Arrived(sent).Some?
    ensures OrganismOrEmpty(Arrived(sent).value) == OrganismOrEmpty(sent) <==> NamesCallee(sent)
  {
    hide Parse, OrganismText, OrganismOrEmpty, Print;
    OrganismOfText(ArrivedText(Print(sent)).value);
  }

  /** Canonical addresses name their callee. */
  lemma CanonicalNamesCallee(sent: Address)
    requires AddressCarries(sent)
    ensures NamesCallee(sent)
  {
    hide NamesCallee, AddressCarries, OrganismOrEmpty;
    CanonicalCalleeArrives(sent);
    SameCalleeArrives(sent);
  }

  // ---- Bare names ----

  lemma {:induction false} ScanWithoutDots(s: string, depth: nat, current: string, segments: seq<Segment>)
    requires DOT !in s
    ensures var a := Scan(s, depth, current, segments); a.Ok? ==> |a.value.segments| == |segments| + 1
    decreases |s|
  {
    if s != "" {
      assert s[0] in s;
      ScanWithoutDots(s[1..], if s[0] == '[' then depth + 1 else if s[0] == ']' && depth > 0 then depth - 1 else depth,
                      current + [s[0]], segments);
    }
  }

  lemma {:induction false} TrimKeepsDotFree(s: string, space: char -> bool)
    requires DOT !in s
    ensures DOT !in Trim(s, space)
  {
    StartKeepsDotFree(s, space);
    EndKeepsDotFree(TrimStart(s, space), space);
  }

  lemma {:induction false} StartKeepsDotFree(s: string, space: char -> bool)
    requires DOT !in s
    ensures DOT !in TrimStart(s, space)
  {
    if s != "" && space(s[0]) {
      StartKeepsDotFree(s[1..], space);
    }
  }

  lemma {:induction false} EndKeepsDotFree(s: string, space: char -> bool)
    requires DOT !in s
    ensures DOT !in TrimEnd(s, space)
    decreases |s|
  {
    if s != "" && space(s[|s| - 1]) {
      EndKeepsDotFree(s[..|s| - 1], space);
    }
  }

  /** A bare name arrives as one segment. */
  lemma BareArrivesAlone(name: string)
    requires DotFree(name)
    ensures Arrived(Flat(name)).Some? ==> |Arrived(Flat(name)).value.segments| == 1
  {
    hide Trim, Scan;
    FlatRoundTrip(name);
    TrimKeepsDotFree(name, IsXmlSpace);
    TrimKeepsDotFree(Trim(name, IsXmlSpace), IsSpace);
    if ArrivedText(name).Some? {
      ScanWithoutDots(ArrivedText(name).value, 0, "", []);
    }
  }
}
