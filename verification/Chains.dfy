/** Dot-separated call chains as text: splitting and joining are inverse. */
module Chains {

  const DOT := '.'

  ghost predicate DotFree(s: string) {
    DOT !in s
  }

  /** The parts between dots; the empty text has one empty part. */
  function Split(s: string): (parts: seq<string>)
    ensures |parts| >= 1
    ensures forall i :: 0 <= i < |parts| ==> DOT !in parts[i]
  {
    if s == "" then [""]
    else
      var rest := Split(s[1..]);
      if s[0] == DOT then [""] + rest else [[s[0]] + rest[0]] + rest[1..]
  }

  function Join(parts: seq<string>): string
    requires |parts| >= 1
  {
    if |parts| == 1 then parts[0] else parts[0] + [DOT] + Join(parts[1..])
  }

  lemma {:induction false} JoinSplit(s: string)
    ensures Join(Split(s)) == s
  {
    if s != "" {
      JoinSplit(s[1..]);
      var rest := Split(s[1..]);
      if s[0] == DOT {
        assert Split(s)[1..] == rest;
        assert Join(Split(s)) == [DOT] + s[1..];
      } else {
        assert Split(s)[1..] == rest[1..];
        assert Join(Split(s)) == [s[0]] + Join(rest);
      }
    }
  }

  lemma {:induction false} SplitDotFree(s: string)
    requires DotFree(s)
    ensures Split(s) == [s]
  {
    if s != "" {
      SplitDotFree(s[1..]);
      assert s == [s[0]] + s[1..];
    }
  }

  /** One more character in front: a new part, or a longer first part. */
  function Prepend(c: char, parts: seq<string>): seq<string>
    requires |parts| >= 1
  {
    if c == DOT then [""] + parts else [[c] + parts[0]] + parts[1..]
  }

  lemma SplitCons(c: char, s: string)
    ensures Split([c] + s) == Prepend(c, Split(s))
  {
    assert ([c] + s)[1..] == s;
  }

  lemma PrependConcat(c: char, parts: seq<string>, more: seq<string>)
    requires |parts| >= 1
    ensures Prepend(c, parts + more) == Prepend(c, parts) + more
  {
    assert (parts + more)[1..] == parts[1..] + more;
  }

  lemma {:induction false} SplitConcat(a: string, b: string)
    ensures Split(a + [DOT] + b) == Split(a) + Split(b)
  {
    if a == "" {
      SplitCons(DOT, b);
      assert "" + [DOT] + b == [DOT] + b;
    } else {
      hide Split;
      var c, rest := a[0], a[1..];
      assert a == [c] + rest && a + [DOT] + b == [c] + (rest + [DOT] + b);
      SplitConcat(rest, b);
      SplitCons(c, rest);
      SplitCons(c, rest + [DOT] + b);
      PrependConcat(c, Split(rest), Split(b));
    }
  }

  lemma {:induction false} SplitJoin(parts: seq<string>)
    requires |parts| >= 1 && forall i :: 0 <= i < |parts| ==> DotFree(parts[i])
    ensures Split(Join(parts)) == parts
  {
    SplitDotFree(parts[0]);
    if |parts| > 1 {
      SplitJoin(parts[1..]);
      SplitConcat(parts[0], Join(parts[1..]));
    }
  }
}
