/** Text as the codec needs it: trimming, escaping, decimal notation. */
module Text {
  import opened Results

  // ---- Trimming ----

  /** White space of XML, trimmed by the XML reader. */
  predicate IsXmlSpace(c: char) {
    c == ' ' || c == '\t' || c == '\r' || c == '\n'
  }

  /** Unicode white space, trimmed by the string library. */
  predicate IsSpace(c: char) {
    || '\t' <= c <= '\r' || c == ' ' || c == '\U{85}' || c == '\U{A0}' || c == '\U{1680}'
    || '\U{2000}' <= c <= '\U{200A}' || c == '\U{2028}' || c == '\U{2029}' || c == '\U{202F}'
    || c == '\U{205F}' || c == '\U{3000}'
  }

  function TrimStart(s: string, space: char -> bool): string {
    if s != "" && space(s[0]) then TrimStart(s[1..], space) else s
  }

  function TrimEnd(s: string, space: char -> bool): string {
    if s != "" && space(s[|s| - 1]) then TrimEnd(s[..|s| - 1], space) else s
  }

  function Trim(s: string, space: char -> bool): string {
    TrimEnd(TrimStart(s, space), space)
  }

  predicate Trimmed(s: string, space: char -> bool) {
    s == "" || (!space(s[0]) && !space(s[|s| - 1]))
  }

  lemma {:induction false} TrimStartTrims(s: string, space: char -> bool)
    ensures TrimStart(s, space) == "" || !space(TrimStart(s, space)[0])
    ensures |TrimStart(s, space)| <= |s|
    decreases |s|
  {
    if s != "" && space(s[0]) {
      TrimStartTrims(s[1..], space);
    }
  }

  lemma {:induction false} TrimEndTrims(s: string, space: char -> bool)
    requires s == "" || !space(s[0])
    ensures Trimmed(TrimEnd(s, space), space)
    ensures |TrimEnd(s, space)| <= |s|
    decreases |s|
  {
    if s != "" && space(s[|s| - 1]) {
      TrimEndTrims(s[..|s| - 1], space);
    }
  }

  /** Trimming changes nothing exactly on trimmed text, and what it yields is trimmed. */
  lemma TrimFixpoint(s: string, space: char -> bool)
    ensures Trimmed(Trim(s, space), space)
    ensures Trim(s, space) == s <==> Trimmed(s, space)
    ensures Trim(Trim(s, space), space) == Trim(s, space)
  {
    TrimStartTrims(s, space);
    TrimEndTrims(TrimStart(s, space), space);
    var t := Trim(s, space);
    assert Trimmed(t, space) ==> TrimStart(t, space) == t && TrimEnd(t, space) == t;
  }

  predicate AllSpace(s: string, space: char -> bool) {
    forall i :: 0 <= i < |s| ==> space(s[i])
  }

  lemma {:induction false} StartSlice(s: string, space: char -> bool) returns (i: nat)
    ensures i <= |s| && TrimStart(s, space) == s[i..] && AllSpace(s[..i], space)
    decreases |s|
  {
    if s != "" && space(s[0]) {
      var k := StartSlice(s[1..], space);
      i := k + 1;
      assert s[i..] == s[1..][k..];
      assert s[..i] == [s[0]] + s[1..][..k];
    } else {
      i := 0;
    }
  }

  lemma {:induction false} EndSlice(s: string, space: char -> bool) returns (j: nat)
    ensures j <= |s| && TrimEnd(s, space) == s[..j] && AllSpace(s[j..], space)
    decreases |s|
  {
    if s != "" && space(s[|s| - 1]) {
      var front := s[..|s| - 1];
      j := EndSlice(front, space);
      assert s[..j] == front[..j];
      assert s[j..] == front[j..] + [s[|s| - 1]];
    } else {
      j := |s|;
    }
  }

  /** Trimming cuts off blanks at both ends, and nothing else. */
  lemma TrimSlice(s: string, space: char -> bool) returns (i: nat, j: nat)
    ensures i <= j <= |s| && Trim(s, space) == s[i..j]
    ensures AllSpace(s[..i], space) && AllSpace(s[j..], space)
  {
    i := StartSlice(s, space);
    var k := EndSlice(s[i..], space);
    j := i + k;
    assert s[i..][..k] == s[i..j] && s[i..][k..] == s[j..];
  }

  /** A blank stretch at either end of a text stops where a character is no blank. */
  lemma BlanksStop(s: string, space: char -> bool, n: nat)
    requires n < |s| && !space(s[n])
    ensures forall i :: 0 <= i <= |s| && AllSpace(s[..i], space) ==> i <= n
    ensures forall j :: 0 <= j <= |s| && AllSpace(s[j..], space) ==> n < j
  {
    forall i | 0 <= i <= |s| && AllSpace(s[..i], space) ensures i <= n {
      assert forall k :: 0 <= k < i ==> s[..i][k] == s[k];
    }
    forall j | 0 <= j <= |s| && AllSpace(s[j..], space) ensures n < j {
      assert forall k :: j <= k < |s| ==> s[j..][k - j] == s[k];
    }
  }

  lemma TrimBlanks(s: string, space: char -> bool)
    requires AllSpace(s, space)
    ensures Trim(s, space) == ""
  {
    hide Trim;
    var i, j := TrimSlice(s, space);
    BlankSlice(s, i, j, space);
    TrimFixpoint(s, space);
  }

  lemma BlankSlice(s: string, i: nat, j: nat, space: char -> bool)
    requires i <= j <= |s| && AllSpace(s, space)
    ensures AllSpace(s[i..j], space)
  {
  }

  /** The trimmed part between blanks is what trimming leaves. */
  lemma TrimTo(s: string, n: nat, m: nat, space: char -> bool)
    requires n < m <= |s| && AllSpace(s[..n], space) && AllSpace(s[m..], space) && Trimmed(s[n..m], space)
    ensures Trim(s, space) == s[n..m]
  {
    hide Trim;
    var i, j := TrimSlice(s, space);
    TrimFixpoint(s, space);
    assert s[n..m][0] == s[n] && s[n..m][m - n - 1] == s[m - 1];
    BlanksStop(s, space, n);
    BlanksStop(s, space, m - 1);
    assert s[i..j][0] == s[i] && s[i..j][j - i - 1] == s[j - 1];
    BlanksStop(s, space, i);
    BlanksStop(s, space, j - 1);
  }

  /** Blanks around a trimmed core are cut off, all of them, and the core is left. */
  lemma TrimCore(before: string, core: string, after: string, space: char -> bool)
    requires AllSpace(before, space) && AllSpace(after, space) && Trimmed(core, space)
    ensures Trim(before + core + after, space) == core
  {
    hide Trim;
    var s := before + core + after;
    if core == "" {
      assert s == before + after;
      TrimBlanks(s, space);
    } else {
      var n, m := |before|, |before| + |core|;
      assert s[..n] == before && s[n..m] == core && s[m..] == after;
      TrimTo(s, n, m, space);
    }
  }

  /** Trimming to the same length changes nothing. */
  lemma {:induction false} TrimLength(s: string, space: char -> bool)
    ensures |Trim(s, space)| <= |s|
    ensures |Trim(s, space)| == |s| ==> Trim(s, space) == s
  {
    TrimFixpoint(s, space);
    TrimStartTrims(s, space);
    TrimEndTrims(TrimStart(s, space), space);
    if !Trimmed(s, space) {
      if space(s[0]) {
        TrimStartTrims(s[1..], space);
      } else {
        TrimEndTrims(s[..|s| - 1], space);
      }
    }
  }

  /** What is trimmed of Unicode space is trimmed of XML space. */
  lemma SpaceIncludesXml(s: string)
    requires Trimmed(s, IsSpace)
    ensures Trimmed(s, IsXmlSpace)
  {
  }

  // ---- Escaping ----

  predicate IsMarkup(c: char) {
    c == '<' || c == '>' || c == '&' || c == '\'' || c == '"'
  }

  function EscapeChar(c: char): string {
    if c == '<' then "&lt;"
    else if c == '>' then "&gt;"
    else if c == '&' then "&amp;"
    else if c == '\'' then "&apos;"
    else if c == '"' then "&quot;"
    else [c]
  }

  /** An attribute value as it stands in the document. */
  function Escape(s: string): string {
    if s == "" then "" else EscapeChar(s[0]) + Escape(s[1..])
  }

  predicate NoMarkup(s: string) {
    forall i :: 0 <= i < |s| ==> !IsMarkup(s[i])
  }

  lemma {:induction false} EscapeFixpoint(s: string)
    ensures |Escape(s)| >= |s|
    ensures Escape(s) == s <==> NoMarkup(s)
  {
    if s != "" {
      EscapeFixpoint(s[1..]);
      assert s == [s[0]] + s[1..];
      if IsMarkup(s[0]) {
        assert |Escape(s)| > |s|;
      } else {
        assert Escape(s)[1..] == Escape(s[1..]);
      }
    }
  }

  // ---- Numbers ----

  const U64_LIMIT: nat := 0x1_0000_0000_0000_0000
  const I64_LIMIT: int := 0x8000_0000_0000_0000

  type u64 = n: nat | n < U64_LIMIT
  type i64 = n: int | -I64_LIMIT <= n < I64_LIMIT
  type byte = n: nat | n < 256

  const DIGITS := "0123456789abcdef"

  function DigitChar(d: nat): char
    requires d < 16
  {
    DIGITS[d]
  }

  /** The value of a digit in either case; none for other characters. */
  function DigitValue(c: char): Option<nat> {
    if '0' <= c <= '9' then Some(c as nat - '0' as nat)
    else if 'a' <= c <= 'f' then Some(c as nat - 'a' as nat + 10)
    else if 'A' <= c <= 'F' then Some(c as nat - 'A' as nat + 10)
    else None
  }

  lemma DigitRoundTrip(d: nat)
    requires d < 16
    ensures DigitValue(DigitChar(d)) == Some(d)
    ensures !IsSpace(DigitChar(d)) && DigitChar(d) != '+' && DigitChar(d) != '-'
  {
  }

  /** The value of a run of digits; none if it is empty or holds another character. */
  function DigitsValue(s: string, base: nat): Option<nat> {
    if s == "" then None
    else
      var d := DigitValue(s[|s| - 1]);
      if d.None? || d.value >= base then None
      else if |s| == 1 then d
      else
        var high := DigitsValue(s[..|s| - 1], base);
        if high.None? then None else Some(high.value * base + d.value)
  }

  /** Unsigned parsing of the standard library: one leading plus sign is allowed. */
  function ParseUnsigned(s: string, base: nat, limit: nat): Option<nat> {
    var v := DigitsValue(if s != "" && s[0] == '+' then s[1..] else s, base);
    if v.Some? && v.value < limit then v else None
  }

  function ParseSigned(s: string): Option<int> {
    var negative := s != "" && s[0] == '-';
    var v := DigitsValue(if s != "" && (s[0] == '+' || s[0] == '-') then s[1..] else s, 10);
    if v.None? then None
    else if negative then if v.value <= I64_LIMIT then Some(0 - v.value as int) else None
    else if v.value < I64_LIMIT then Some(v.value) else None
  }

  function PrintNat(n: nat): (s: string)
    ensures |s| >= 1
  {
    if n < 10 then [DigitChar(n)] else PrintNat(n / 10) + [DigitChar(n % 10)]
  }

  function PrintInt(n: int): string {
    if n < 0 then "-" + PrintNat(-n) else PrintNat(n)
  }

  lemma {:induction false} PrintNatDigits(n: nat)
    ensures DigitsValue(PrintNat(n), 10) == Some(n)
    ensures forall c :: c in PrintNat(n) ==> !IsSpace(c) && c != '+' && c != '-'
  {
    hide IsSpace, DigitValue, DigitChar;
    DigitRoundTrip(n % 10);
    if n >= 10 {
      PrintNatDigits(n / 10);
      var s := PrintNat(n);
      assert s[..|s| - 1] == PrintNat(n / 10);
    }
  }

  lemma UnsignedRoundTrip(n: u64)
    ensures ParseUnsigned(PrintNat(n), 10, U64_LIMIT) == Some(n)
    ensures Trimmed(PrintNat(n), IsXmlSpace)
  {
    PrintNatDigits(n);
    PrintNatTrimmed(n);
  }

  lemma PrintNatTrimmed(n: nat)
    ensures Trimmed(PrintNat(n), IsXmlSpace)
    ensures PrintNat(n)[0] != '+' && PrintNat(n)[0] != '-'
    ensures !IsXmlSpace(PrintNat(n)[|PrintNat(n)| - 1])
  {
    PrintNatDigits(n);
    var s := PrintNat(n);
    assert s[0] in s && s[|s| - 1] in s;
  }

  lemma SignedRoundTrip(n: i64)
    ensures ParseSigned(PrintInt(n)) == Some(n)
    ensures Trimmed(PrintInt(n), IsXmlSpace)
  {
    hide IsSpace, PrintNat, DigitsValue;
    var size: nat := if n < 0 then 0 - n as int else n as int;
    PrintNatDigits(size);
    PrintNatTrimmed(size);
    var s := PrintNat(size);
    if n < 0 {
      assert PrintInt(n)[1..] == s;
      assert PrintInt(n)[|s|] == s[|s| - 1];
    }
  }
}
