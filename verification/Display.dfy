/**
 Bounded display strings (internal/manager/projection.go) over bytes, with the well-formed byte
 sequences of section 4 of RFC 3629.
*/
module Display {

  type Byte = x: int | 0 <= x < 256

  const MAX_TOOL_DISPLAY_BYTES: nat := 65536

  function Ascii(text: string): seq<Byte>
    requires forall i | 0 <= i < |text| :: text[i] as int < 0x80
  {
    seq(|text|, i requires 0 <= i < |text| => text[i] as int)
  }

  function Ellipsis(): seq<Byte> { [0xE2, 0x80, 0xA6] }

  /** A line break, then "display truncated" between spaces and ellipses. */
  function Marker(): seq<Byte> { (Ascii("\n") + Ellipsis()) + (Ascii(" display truncated ") + Ellipsis()) }

  predicate Tail(b: Byte) { 0x80 <= b <= 0xBF }

  /** What may follow a lead byte of a sequence of two, three or four. */
  predicate SecondFits(lead: Byte, b: Byte) {
    if lead == 0xE0 then 0xA0 <= b <= 0xBF
    else if lead == 0xED then 0x80 <= b <= 0x9F
    else if lead == 0xF0 then 0x90 <= b <= 0xBF
    else if lead == 0xF4 then 0x80 <= b <= 0x8F
    else Tail(b)
  }

  function Announced(lead: Byte): nat {
    if lead <= 0x7F then 1
    else if 0xC2 <= lead <= 0xDF then 2
    else if 0xE0 <= lead <= 0xEF then 3
    else if 0xF0 <= lead <= 0xF4 then 4
    else 0
  }

  /** The length of the character `s` starts with, or 0 if it starts with none. */
  function CharLength(s: seq<Byte>): (n: nat)
    ensures n <= |s| && n <= 4
  {
    if s == [] then 0
    else
      var n := Announced(s[0]);
      if n == 0 || |s| < n then 0
      else if n >= 2 && !SecondFits(s[0], s[1]) then 0
      else if n >= 3 && !Tail(s[2]) then 0
      else if n >= 4 && !Tail(s[3]) then 0
      else n
  }

  predicate ValidString(s: seq<Byte>) {
    s == [] || (CharLength(s) > 0 && ValidString(s[CharLength(s)..]))
  }

  lemma LongerKeepsChar(s: seq<Byte>, t: seq<Byte>)
    requires CharLength(s) > 0
    ensures CharLength(s + t) == CharLength(s)
  {
  }

  lemma CutChar(s: seq<Byte>, j: nat)
    requires CharLength(s) > 0 && 0 < j <= |s|
    ensures CharLength(s[..j]) == if j < CharLength(s) then 0 else CharLength(s)
  {
  }

  lemma {:induction false} ValidConcat(s: seq<Byte>, t: seq<Byte>)
    requires ValidString(s) && ValidString(t)
    ensures ValidString(s + t)
  {
    if s == [] {
      assert s + t == t;
    } else {
      var n := CharLength(s);
      LongerKeepsChar(s, t);
      assert (s + t)[n..] == s[n..] + t;
      ValidConcat(s[n..], t);
    }
  }

  /** Cutting a valid string leaves a valid prefix exactly where the rest is valid too: at a character boundary. */
  lemma {:induction false} ValidCuts(s: seq<Byte>, j: nat)
    requires ValidString(s) && j <= |s|
    ensures ValidString(s[..j]) ==> ValidString(s[j..])
  {
    if j > 0 && ValidString(s[..j]) {
      var n := CharLength(s);
      CutChar(s, j);
      assert s[..j] != [];
      assert s[..j][n..] == s[n..][..j - n];
      assert s[n..][j - n..] == s[j..];
      ValidCuts(s[n..], j - n);
    }
  }

  /** Some boundary lies at most three bytes before any cut of a valid string. */
  lemma {:induction false} BoundaryNear(s: seq<Byte>, cut: nat) returns (k: nat)
    requires ValidString(s) && cut <= |s|
    ensures k <= cut <= k + 3 && ValidString(s[..k])
  {
    if cut == 0 || cut < CharLength(s) {
      k := 0;
    } else {
      var n := CharLength(s);
      var rest := BoundaryNear(s[n..], cut - n);
      k := n + rest;
      assert s[n..][..rest] == s[n..k];
      assert s[..n][n..] == [];
      CutChar(s, n);
      ValidConcat(s[..n], s[n..k]);
      assert s[..n] + s[n..k] == s[..k];
    }
  }

  lemma {:induction false} AsciiIsValid(s: seq<Byte>)
    requires forall i | 0 <= i < |s| :: s[i] < 0x80
    ensures ValidString(s)
  {
    if s != [] {
      AsciiIsValid(s[1..]);
    }
  }

  lemma MarkerIsValid()
    ensures ValidString(Marker()) && |Marker()| == 26
  {
    assert CharLength(Ellipsis()) == 3 && Ellipsis()[3..] == [];
    assert ValidString(Ellipsis());
    AsciiIsValid(Ascii("\n"));
    AsciiIsValid(Ascii(" display truncated "));
    ValidConcat(Ascii("\n"), Ellipsis());
    ValidConcat(Ascii(" display truncated "), Ellipsis());
    ValidConcat(Ascii("\n") + Ellipsis(), Ascii(" display truncated ") + Ellipsis());
  }

  function Cut(): nat { MAX_TOOL_DISPLAY_BYTES - 26 }

  /** The source's loop: bytes are dropped from the end until what is left is valid. */
  method LongestValidPrefix(s: seq<Byte>, cut: nat) returns (k: nat)
    requires cut <= |s|
    ensures k <= cut && ValidString(s[..k])
    ensures forall j: nat | k < j <= cut :: !ValidString(s[..j])
    ensures ValidString(s) ==> cut <= k + 3
  {
    hide CharLength;
    assert ValidString(s[..0]);
    var prefix := s[..cut];
    while |prefix| > 0 && !ValidString(prefix)
      invariant |prefix| <= cut && prefix == s[..|prefix|]
      invariant forall j: nat | |prefix| < j <= cut :: !ValidString(s[..j])
    {
      prefix := prefix[..|prefix| - 1];
    }
    hide ValidString;
    k := |prefix|;
    if ValidString(s) {
      var near := BoundaryNear(s, cut);
    }
  }

  /**
   A longer string becomes its longest valid prefix within the cut and the marker; the whole is
   valid and within the cap, and of a valid string at most three bytes before the cut are dropped.
  */
  method BoundedDisplay(s: seq<Byte>) returns (display: seq<Byte>, truncated: bool)
    ensures truncated <==> |s| > MAX_TOOL_DISPLAY_BYTES
    ensures !truncated ==> display == s
    ensures |display| <= MAX_TOOL_DISPLAY_BYTES
    ensures truncated ==> ValidString(display)
    ensures truncated ==>
              exists k: nat :: k <= Cut() && display == s[..k] + Marker() && ValidString(s[..k])
                        && (forall j: nat | k < j <= Cut() :: !ValidString(s[..j]))
                        && (ValidString(s) ==> Cut() <= k + 3)
  {
    hide ValidString, CharLength, Marker;
    MarkerIsValid();
    if s == [] {
      return [], false;
    }
    if |s| <= MAX_TOOL_DISPLAY_BYTES {
      return s, false;
    }
    var cut := if MAX_TOOL_DISPLAY_BYTES < |Marker()| then 0 else MAX_TOOL_DISPLAY_BYTES - |Marker()|;
    var k := LongestValidPrefix(s, cut);
    ValidConcat(s[..k], Marker());
    display, truncated := s[..k] + Marker(), true;
  }

  // ---------------------------------------------------------------- code points, section 3 of RFC 3629

  /** Unicode scalar values: the code points but the surrogates. */
  predicate Scalar(c: int) { 0 <= c <= 0x10FFFF && !(0xD800 <= c <= 0xDFFF) }

  /** A code point without its low six bits, and the tail byte that holds those. */
  function High(c: nat): nat { c / 0x40 }

  function Low(c: nat): Byte { 0x80 + c % 0x40 }

  /** The encoding of a code point in one, two, three or four bytes. */
  function Encode(c: int): (s: seq<Byte>)
    requires Scalar(c)
  {
    if c <= 0x7F then [c]
    else if c <= 0x7FF then [0xC0 + High(c), Low(c)]
    else if c <= 0xFFFF then [0xE0 + High(High(c)), Low(High(c)), Low(c)]
    else [0xF0 + High(High(High(c))), Low(High(High(c))), Low(High(c)), Low(c)]
  }

  function EncodeAll(text: seq<int>): seq<Byte>
    requires forall i | 0 <= i < |text| :: Scalar(text[i])
  {
    if text == [] then [] else Encode(text[0]) + EncodeAll(text[1..])
  }

  /** The code point of a character of `n` bytes: six bits from each byte after the first. */
  function Decode(s: seq<Byte>, n: nat): int
    requires 1 <= n <= 4 && n <= |s|
  {
    if n == 1 then s[0]
    else if n == 2 then Six(s[0] as int - 0xC0, s[1])
    else if n == 3 then Six(Six(s[0] as int - 0xE0, s[1]), s[2])
    else Six(Six(Six(s[0] as int - 0xF0, s[1]), s[2]), s[3])
  }

  function Six(high: int, b: Byte): int { high * 0x40 + (b as int - 0x80) }

  lemma SixSplits(high: nat, b: Byte)
    requires Tail(b)
    ensures Six(high, b) >= 0 && High(Six(high, b)) == high && Low(Six(high, b)) == b
  {
  }

  /** The encoding of a code point is a character. */
  lemma EncodedIsChar(c: int)
    requires Scalar(c)
    ensures CharLength(Encode(c)) == |Encode(c)| > 0
  {
  }

  lemma TwoBytes(s: seq<Byte>)
    requires CharLength(s) == 2
    ensures Scalar(Decode(s, 2)) && Encode(Decode(s, 2)) == s[..2]
  {
    SixSplits(s[0] as int - 0xC0, s[1]);
  }

  lemma ThreeRange(a: int, b: Byte, c: Byte)
    requires 0xE0 <= a <= 0xEF && Tail(b) && Tail(c)
    requires (a == 0xE0 ==> b >= 0xA0) && (a == 0xED ==> b <= 0x9F)
    ensures 0 <= Six(a - 0xE0, b) && 0x7FF < Six(Six(a - 0xE0, b), c) <= 0xFFFF && Scalar(Six(Six(a - 0xE0, b), c))
  {
    assert 0x20 <= Six(a - 0xE0, b) <= 0x3FF && !(0x360 <= Six(a - 0xE0, b) <= 0x37F);
  }

  lemma ThreeEncode(a: Byte, b: Byte, c: Byte)
    requires 0xE0 <= a <= 0xEF && Tail(b) && Tail(c)
    requires (a == 0xE0 ==> b >= 0xA0) && (a == 0xED ==> b <= 0x9F)
    ensures var v := Six(Six(a as int - 0xE0, b), c); Scalar(v) && Encode(v) == [a, b, c]
  {
    ThreeRange(a as int, b, c);
    SixSplits(a as int - 0xE0, b);
    SixSplits(Six(a as int - 0xE0, b), c);
    hide Six, Tail, Scalar, High, Low;
  }

  lemma ThreeFit(s: seq<Byte>)
    requires CharLength(s) == 3
    ensures |s| >= 3 && 0xE0 <= s[0] <= 0xEF && Tail(s[1]) && Tail(s[2])
    ensures (s[0] == 0xE0 ==> s[1] >= 0xA0) && (s[0] == 0xED ==> s[1] <= 0x9F)
  {
  }

  lemma ThreeBytes(s: seq<Byte>)
    requires CharLength(s) == 3
    ensures Scalar(Decode(s, 3)) && Encode(Decode(s, 3)) == s[..3]
  {
    hide CharLength, Encode, Scalar, Six, Tail;
    ThreeFit(s);
    ThreeEncode(s[0], s[1], s[2]);
    Start3(s);
  }

  lemma Start3(s: seq<Byte>)
    requires |s| >= 3
    ensures s[..3] == [s[0], s[1], s[2]]
  {
  }

  lemma Start4(s: seq<Byte>)
    requires |s| >= 4
    ensures s[..4] == [s[0], s[1], s[2], s[3]]
  {
  }

  lemma FourRange(a: int, b: Byte, c: Byte, d: Byte)
    requires 0xF0 <= a <= 0xF4 && Tail(b) && Tail(c) && Tail(d)
    requires (a == 0xF0 ==> b >= 0x90) && (a == 0xF4 ==> b <= 0x8F)
    ensures 0 <= Six(a - 0xF0, b) && 0 <= Six(Six(a - 0xF0, b), c)
    ensures 0x10000 <= Six(Six(Six(a - 0xF0, b), c), d) <= 0x10FFFF
  {
    var top := Six(a - 0xF0, b);
    assert 0x10 <= top <= 0x10F;
    assert 0x400 <= Six(top, c) <= 0x43FF;
  }

  lemma FourSplits(a: int, b: Byte, c: Byte, d: Byte)
    requires 0xF0 <= a && Tail(b) && Tail(c) && Tail(d)
    requires 0 <= Six(a - 0xF0, b) && 0 <= Six(Six(a - 0xF0, b), c) && 0 <= Six(Six(Six(a - 0xF0, b), c), d)
    ensures var v := Six(Six(Six(a - 0xF0, b), c), d);
            Low(v) == d && Low(High(v)) == c && Low(High(High(v))) == b && High(High(High(v))) == a - 0xF0
  {
    SixSplits(a - 0xF0, b);
    SixSplits(Six(a - 0xF0, b), c);
    SixSplits(Six(Six(a - 0xF0, b), c), d);
    hide Six, Tail, High, Low;
  }

  lemma FourEncode(a: Byte, b: Byte, c: Byte, d: Byte)
    requires 0xF0 <= a <= 0xF4 && Tail(b) && Tail(c) && Tail(d)
    requires (a == 0xF0 ==> b >= 0x90) && (a == 0xF4 ==> b <= 0x8F)
    ensures var v := Six(Six(Six(a as int - 0xF0, b), c), d); Scalar(v) && Encode(v) == [a, b, c, d]
  {
    hide Six, Tail, High, Low;
    FourRange(a as int, b, c, d);
    FourSplits(a as int, b, c, d);
  }

  lemma FourFit(s: seq<Byte>)
    requires CharLength(s) == 4
    ensures |s| >= 4 && 0xF0 <= s[0] <= 0xF4 && Tail(s[1]) && Tail(s[2]) && Tail(s[3])
    ensures (s[0] == 0xF0 ==> s[1] >= 0x90) && (s[0] == 0xF4 ==> s[1] <= 0x8F)
  {
  }

  lemma FourBytes(s: seq<Byte>)
    requires CharLength(s) == 4
    ensures Scalar(Decode(s, 4)) && Encode(Decode(s, 4)) == s[..4]
  {
    hide CharLength, Encode, Scalar, Six, Tail;
    FourFit(s);
    FourEncode(s[0], s[1], s[2], s[3]);
    Start4(s);
  }

  /** A character is the encoding of its code point. */
  lemma CharIsEncoded(s: seq<Byte>)
    requires CharLength(s) > 0
    ensures var c := Decode(s, CharLength(s)); Scalar(c) && Encode(c) == s[..CharLength(s)]
  {
    if CharLength(s) == 2 {
      TwoBytes(s);
    } else if CharLength(s) == 3 {
      ThreeBytes(s);
    } else if CharLength(s) == 4 {
      FourBytes(s);
    }
  }

  lemma EncodeMore(c: int, rest: seq<int>)
    requires Scalar(c) && forall i | 0 <= i < |rest| :: Scalar(rest[i])
    ensures forall i | 0 <= i < |[c] + rest| :: Scalar(([c] + rest)[i])
    ensures EncodeAll([c] + rest) == Encode(c) + EncodeAll(rest)
  {
    hide Encode, Scalar;
    assert ([c] + rest)[1..] == rest;
  }

  /** A string is valid if and only if it is the encoding of some text. */
  lemma {:induction false} ValidIsEncoded(s: seq<Byte>) returns (text: seq<int>)
    requires ValidString(s)
    ensures (forall i | 0 <= i < |text| :: Scalar(text[i])) && EncodeAll(text) == s
  {
    if s == [] {
      text := [];
    } else {
      ValidStarts(s);
      hide CharLength, Decode, Encode, EncodeAll, ValidString, Scalar;
      var n := CharLength(s);
      CharIsEncoded(s);
      var c := Decode(s, n);
      var rest := ValidIsEncoded(s[n..]);
      EncodeMore(c, rest);
      text := [c] + rest;
      Rejoined(s, n);
    }
  }

  lemma Rejoined(s: seq<Byte>, n: nat)
    requires n <= |s|
    ensures s[..n] + s[n..] == s
  {
  }

  lemma ValidStarts(s: seq<Byte>)
    requires ValidString(s) && s != []
    ensures CharLength(s) > 0 && ValidString(s[CharLength(s)..])
  {
  }

  lemma {:induction false} EncodedIsValid(text: seq<int>)
    requires forall i | 0 <= i < |text| :: Scalar(text[i])
    ensures ValidString(EncodeAll(text))
  {
    if text != [] {
      var c, rest := text[0], EncodeAll(text[1..]);
      EncodedIsValid(text[1..]);
      EncodedIsChar(c);
      hide CharLength, Encode;
      LongerKeepsChar(Encode(c), rest);
      assert (Encode(c) + rest)[|Encode(c)|..] == rest;
    }
  }
}
