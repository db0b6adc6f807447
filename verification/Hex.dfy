/**
 Hexadecimal notation, read by slicing text at byte offsets.

 Text is UTF-8 in the program. A slice that ends inside a character is a panic, so reading has
 two ways to fail.
 */
module Hex {
  import opened Results
  import opened Text

  // ---- UTF-8 widths ----

  /** The bytes of a character. */
  function Width(c: char): (n: nat)
    ensures 1 <= n <= 4
  {
    if c < '\U{80}' then 1 else if c < '\U{800}' then 2 else if c < '\U{10000}' then 3 else 4
  }

  function ByteLen(s: string): nat {
    if s == "" then 0 else Width(s[0]) + ByteLen(s[1..])
  }

  /** How many characters the first `n` bytes are; none if the bytes end inside a character or are too few. */
  function CharsIn(s: string, n: nat): (k: Option<nat>)
    ensures k.Some? ==> k.value <= |s| && (n > 0 ==> k.value > 0)
  {
    if n == 0 then Some(0)
    else if s == "" || Width(s[0]) > n then None
    else
      var k := CharsIn(s[1..], n - Width(s[0]));
      if k.None? then None else Some(k.value + 1)
  }

  lemma {:induction false} ByteLenSplit(s: string, k: nat)
    requires k <= |s|
    ensures ByteLen(s) == ByteLen(s[..k]) + ByteLen(s[k..])
  {
    if k > 0 {
      ByteLenSplit(s[1..], k - 1);
      assert s[..k][1..] == s[1..][..k - 1];
      assert s[1..][k - 1..] == s[k..];
    } else {
      assert s[k..] == s;
    }
  }

  lemma {:induction false} CharsInBytes(s: string, n: nat)
    ensures CharsIn(s, n).Some? ==> ByteLen(s[..CharsIn(s, n).value]) == n
  {
    if n > 0 && CharsIn(s, n).Some? {
      CharsInBytes(s[1..], n - Width(s[0]));
      var k := CharsIn(s, n).value;
      assert s[..k][1..] == s[1..][..k - 1];
    }
  }

  /** A character ends at byte `n`, or the text starts there. */
  ghost predicate Boundary(s: string, n: nat) {
    exists k :: 0 <= k <= |s| && ByteLen(s[..k]) == n
  }

  /** A slice can be cut off exactly at a boundary. */
  lemma {:induction false} CharsInExact(s: string, n: nat)
    ensures CharsIn(s, n).Some? <==> Boundary(s, n)
  {
    if CharsIn(s, n).Some? {
      CharsInBytes(s, n);
    }
    if Boundary(s, n) {
      var k :| 0 <= k <= |s| && ByteLen(s[..k]) == n;
      CutFound(s, k);
    }
  }

  lemma {:induction false} CutFound(s: string, k: nat)
    requires k <= |s|
    ensures CharsIn(s, ByteLen(s[..k])) == Some(k)
  {
    if k > 0 {
      CutFound(s[1..], k - 1);
      assert s[..k][1..] == s[1..][..k - 1];
    }
  }

  predicate IsAscii(s: string) {
    forall i :: 0 <= i < |s| ==> Width(s[i]) == 1
  }

  lemma {:induction false} AsciiBytes(s: string)
    requires IsAscii(s)
    ensures ByteLen(s) == |s|
  {
    if s != "" {
      AsciiBytes(s[1..]);
    }
  }

  lemma AsciiCut(s: string, k: nat)
    requires k <= |s| && IsAscii(s[..k])
    ensures CharsIn(s, k) == Some(k)
  {
    AsciiBytes(s[..k]);
    CutFound(s, k);
  }

  // ---- Writing ----

  function Pow16(n: nat): nat {
    if n == 0 then 1 else 16 * Pow16(n - 1)
  }

  /** Exactly `width` hex digits. */
  function PrintHex(n: nat, width: nat): (s: string)
    ensures |s| == width
  {
    if width == 0 then "" else PrintHex(n / 16, width - 1) + [DigitChar(n % 16)]
  }

  predicate IsDigitText(s: string) {
    forall i :: 0 <= i < |s| ==> !IsSpace(s[i]) && s[i] != '+' && s[i] != '-' && Width(s[i]) == 1
  }

  lemma {:induction false} PrintHexDigits(n: nat, width: nat)
    ensures IsDigitText(PrintHex(n, width))
    decreases width
  {
    if width > 0 {
      DigitRoundTrip(n % 16);
      PrintHexDigits(n / 16, width - 1);
    }
  }

  lemma {:induction false} PrintHexValue(n: nat, width: nat)
    requires n < Pow16(width) && width >= 1
    ensures DigitsValue(PrintHex(n, width), 16) == Some(n)
    decreases width
  {
    hide IsSpace, DigitValue, DigitChar;
    var high, low := n / 16, n % 16;
    assert n == 16 * high + low;
    DigitRoundTrip(low);
    var s := PrintHex(n, width);
    assert s[width - 1] == DigitChar(low);
    if width == 1 {
      assert Pow16(1) == 16;
    } else {
      assert s[..width - 1] == PrintHex(high, width - 1);
      PrintHexValue(high, width - 1);
    }
  }

  lemma HexRoundTrip(n: nat, width: nat, limit: nat)
    requires n < Pow16(width) && width >= 1 && n < limit
    ensures ParseUnsigned(PrintHex(n, width), 16, limit) == Some(n)
  {
    hide DigitsValue, PrintHex;
    PrintHexDigits(n, width);
    PrintHexValue(n, width);
  }

  function ToHex(bytes: seq<byte>): (s: string)
    ensures |s| == 2 * |bytes|
  {
    if bytes == [] then "" else PrintHex(bytes[0], 2) + ToHex(bytes[1..])
  }

  method WriteHex(bytes: seq<byte>) returns (s: string)
    ensures s == ToHex(bytes)
  {
    s := "";
    for i := 0 to |bytes|
      invariant s + ToHex(bytes[i..]) == ToHex(bytes)
    {
      assert bytes[i..][1..] == bytes[i + 1..];
      s := s + PrintHex(bytes[i], 2);
    }
  }

  lemma {:induction false} ToHexDigits(bytes: seq<byte>)
    ensures IsDigitText(ToHex(bytes))
  {
    hide IsSpace;
    if bytes != [] {
      ToHexDigits(bytes[1..]);
      PrintHexDigits(bytes[0], 2);
    }
  }

  // ---- Reading ----

  /** `SplitCharacter` is the panic of a slice that ends inside a character. */
  datatype HexError = NotHex | SplitCharacter

  /** Two bytes at a time; the first failure ends it. */
  function HexPairs(s: string): Result<seq<byte>, HexError> {
    if s == "" then Ok([])
    else
      var k := CharsIn(s, 2);
      if k.None? then Err(SplitCharacter)
      else
        var b := ParseUnsigned(s[..k.value], 16, 256);
        if b.None? then Err(NotHex)
        else
          var rest :- HexPairs(s[k.value..]);
          Ok([b.value] + rest)
  }

  function FromHex(text: string): Result<seq<byte>, HexError> {
    var s := Trim(text, IsSpace);
    if ByteLen(s) % 2 != 0 then Err(NotHex) else HexPairs(s)
  }

  /** Exactly 32 bytes, as two words. */
  function WordsFromHex(text: string): Result<(u64, u64), HexError> {
    var s := Trim(text, IsSpace);
    if ByteLen(s) != 32 then Err(NotHex)
    else
      var k := CharsIn(s, 16);
      if k.None? then Err(SplitCharacter)
      else
        var hi := ParseUnsigned(s[..k.value], 16, U64_LIMIT);
        var lo := ParseUnsigned(s[k.value..], 16, U64_LIMIT);
        if hi.None? || lo.None? then Err(NotHex) else Ok((hi.value, lo.value))
  }

  // ---- What is written is read ----

  lemma HexPairsFirst(b: byte, rest: string)
    ensures HexPairs(PrintHex(b, 2) + rest)
      == if HexPairs(rest).Ok? then Ok([b] + HexPairs(rest).value) else Err(HexPairs(rest).error)
  {
    var pair := PrintHex(b, 2);
    var s := pair + rest;
    assert s[..2] == pair && s[2..] == rest;
    PrintHexDigits(b, 2);
    AsciiCut(s, 2);
    assert Pow16(2) == 16 * Pow16(1) == 256;
    HexRoundTrip(b, 2, 256);
    hide ParseUnsigned, PrintHex, CharsIn;
  }

  lemma {:induction false} HexPairsRoundTrip(bytes: seq<byte>)
    ensures HexPairs(ToHex(bytes)) == Ok(bytes)
  {
    hide HexPairs;
    if bytes != [] {
      HexPairsRoundTrip(bytes[1..]);
      HexPairsFirst(bytes[0], ToHex(bytes[1..]));
      assert bytes == [bytes[0]] + bytes[1..];
    } else {
      NoPairs();
    }
  }

  lemma NoPairs()
    ensures HexPairs("") == Ok([])
  {
  }

  lemma DigitsAreTrimmed(s: string)
    requires IsDigitText(s)
    ensures Trimmed(s, IsXmlSpace) && Trim(s, IsXmlSpace) == s && Trim(s, IsSpace) == s
    ensures ByteLen(s) == |s|
  {
    TrimFixpoint(s, IsXmlSpace);
    TrimFixpoint(s, IsSpace);
    AsciiBytes(s);
  }

  lemma BlobRoundTrip(bytes: seq<byte>)
    ensures FromHex(ToHex(bytes)) == Ok(bytes)
    ensures Trimmed(ToHex(bytes), IsXmlSpace)
  {
    hide HexPairs, ToHex, IsSpace, Trim, Trimmed, IsDigitText;
    HexPairsRoundTrip(bytes);
    ToHexDigits(bytes);
    DigitsAreTrimmed(ToHex(bytes));
  }

  lemma Pow16Word()
    ensures Pow16(16) == U64_LIMIT
  {
    assert Pow16(4) == 0x1_0000;
    assert Pow16(8) == 0x1_0000_0000 by { Pow16Add(4, 4); }
    Pow16Add(8, 8);
  }

  lemma {:induction false} Pow16Add(m: nat, n: nat)
    ensures Pow16(m + n) == Pow16(m) * Pow16(n)
    decreases m
  {
    if m > 0 {
      Pow16Add(m - 1, n);
    }
  }

  lemma WordsRoundTrip(hi: u64, lo: u64)
    ensures IsDigitText(PrintHex(hi, 16) + PrintHex(lo, 16))
    ensures WordsFromHex(PrintHex(hi, 16) + PrintHex(lo, 16)) == Ok((hi, lo))
  {
    hide IsSpace, PrintHex, ParseUnsigned, CharsIn, ByteLen, Trim;
    var s := PrintHex(hi, 16) + PrintHex(lo, 16);
    Pow16Word();
    HexRoundTrip(hi, 16, U64_LIMIT);
    HexRoundTrip(lo, 16, U64_LIMIT);
    PrintHexDigits(hi, 16);
    PrintHexDigits(lo, 16);
    assert s[..16] == PrintHex(hi, 16) && s[16..] == PrintHex(lo, 16);
    DigitsAreTrimmed(s);
    AsciiCut(s, 16);
  }

  // ---- When reading panics ----

  /** The first `k` pairs of characters are bytes. */
  ghost predicate GoodPairs(s: string, k: nat) {
    2 * k <= |s|
    && forall j {:trigger s[2 * j..2 * j + 2]} :: 0 <= j < k ==> ParseUnsigned(s[2 * j..2 * j + 2], 16, 256).Some?
  }

  lemma {:induction false} DigitsAreAscii(s: string)
    requires DigitsValue(s, 16).Some?
    ensures IsAscii(s)
    decreases |s|
  {
    if |s| > 1 {
      DigitsAreAscii(s[..|s| - 1]);
    }
  }

  /** What a two-byte slice that is a number is: two characters. */
  lemma GoodSlice(s: string)
    requires CharsIn(s, 2).Some? && ParseUnsigned(s[..CharsIn(s, 2).value], 16, 256).Some?
    ensures CharsIn(s, 2) == Some(2)
  {
    var p := s[..CharsIn(s, 2).value];
    CharsInBytes(s, 2);
    if p[0] == '+' {
      DigitsAreAscii(p[1..]);
      assert IsAscii(p);
    } else {
      DigitsAreAscii(p);
    }
    AsciiBytes(p);
  }

  lemma GoodIsSlice(s: string)
    requires |s| >= 2 && ParseUnsigned(s[..2], 16, 256).Some?
    ensures CharsIn(s, 2) == Some(2)
  {
    var p := s[..2];
    if p[0] == '+' {
      DigitsAreAscii(p[1..]);
    } else {
      DigitsAreAscii(p);
    }
    assert IsAscii(p);
    AsciiCut(s, 2);
  }

  lemma GoodPairsShift(s: string, k: nat)
    requires |s| >= 2 && k >= 1
    ensures GoodPairs(s, k) <==> ParseUnsigned(s[..2], 16, 256).Some? && GoodPairs(s[2..], k - 1)
  {
    hide ParseUnsigned;
    if GoodPairs(s, k) {
      assert s[2 * 0..2 * 0 + 2] == s[..2];
      forall j {:trigger s[2..][2 * j..2 * j + 2]} | 0 <= j < k - 1
        ensures ParseUnsigned(s[2..][2 * j..2 * j + 2], 16, 256).Some?
      {
        assert s[2..][2 * j..2 * j + 2] == s[2 * (j + 1)..2 * (j + 1) + 2];
      }
    }
    if ParseUnsigned(s[..2], 16, 256).Some? && GoodPairs(s[2..], k - 1) {
      forall j {:trigger s[2 * j..2 * j + 2]} | 0 <= j < k ensures ParseUnsigned(s[2 * j..2 * j + 2], 16, 256).Some? {
        if j == 0 {
          assert s[2 * j..2 * j + 2] == s[..2];
        } else {
          assert s[2..][2 * (j - 1)..2 * (j - 1) + 2] == s[2 * j..2 * j + 2];
        }
      }
    }
  }

  /** After `k` good pairs, the next two bytes end inside a character. */
  ghost predicate CutAfter(s: string, k: nat) {
    GoodPairs(s, k) && 2 * k < |s| && !Boundary(s[2 * k..], 2)
  }

  lemma {:induction false} PairsCut(s: string)
    ensures HexPairs(s) == Err(SplitCharacter) <==> exists k: nat :: CutAfter(s, k)
  {
    hide ParseUnsigned, CharsIn, Boundary;
    CharsInExact(s, 2);
    assert s[2 * 0..] == s && (s != "" ==> GoodPairs(s, 0));
    if s != "" && CharsIn(s, 2).None? {
      assert CutAfter(s, 0);
    } else if s != "" && ParseUnsigned(s[..CharsIn(s, 2).value], 16, 256).Some? {
      GoodSlice(s);
      PairsCut(s[2..]);
      CutShifts(s);
    } else {
      forall k: nat ensures !CutAfter(s, k) {
        if k > 0 && CutAfter(s, k) {
          GoodPairsShift(s, k);
          GoodIsSlice(s);
        }
      }
    }
  }

  lemma CutShifts(s: string)
    requires |s| >= 2 && CharsIn(s, 2) == Some(2) && ParseUnsigned(s[..2], 16, 256).Some?
    ensures (exists k: nat :: CutAfter(s, k)) <==> exists k: nat :: CutAfter(s[2..], k)
  {
    hide ParseUnsigned, Boundary, GoodPairs, CharsIn;
    CharsInExact(s, 2);
    if k: nat :| CutAfter(s, k) {
      assert s[2 * 0..] == s;
      GoodPairsShift(s, k);
      assert s[2..][2 * (k - 1)..] == s[2 * k..];
      SliceLength(s, k);
      assert CutAfter(s[2..], k - 1);
    }
    if k: nat :| CutAfter(s[2..], k) {
      GoodPairsShift(s, k + 1);
      assert s[2..][2 * k..] == s[2 * (k + 1)..];
      assert CutAfter(s, k + 1);
    }
  }

  lemma SliceLength(s: string, k: nat)
    requires GoodPairs(s, k)
    ensures 2 * k <= |s|
  {
  }

  /**
   Reading a blob panics exactly if the trimmed text has an even number of bytes and, after some
   good pairs, the next two bytes end inside a character.
   */
  lemma FromHexPanics(text: string)
    ensures var s := Trim(text, IsSpace);
      FromHex(text) == Err(SplitCharacter) <==> ByteLen(s) % 2 == 0 && exists k: nat :: CutAfter(s, k)
  {
    PairsCut(Trim(text, IsSpace));
  }

  /** Reading a provenance panics exactly on 32 bytes whose middle is inside a character. */
  lemma WordsPanic(text: string)
    ensures var s := Trim(text, IsSpace);
      WordsFromHex(text) == Err(SplitCharacter) <==> ByteLen(s) == 32 && !Boundary(s, 16)
  {
    CharsInExact(Trim(text, IsSpace), 16);
  }
}
