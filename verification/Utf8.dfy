/** The UTF-8 codec of code/TCPLIB/UNICODE.CPP on 16-bit halves (RFC 3629, section 3). */
module Utf8 {

  /** A code point as the union of the source holds it: upper and lower 16 bits. */
  datatype Cp = Cp(hi: bv16, lo: bv16)

  /** What decodeUTF8 stores for an invalid first byte. */
  const INVALID := Cp(0xFFFF, 0xFFFF)

  function Wide(b: bv8): bv16 { b as bv16 }
  function Narrow(w: bv16): bv8 { (w & 0xFF) as bv8 }

  /** encodeUTF8 */
  function Encode(c: Cp): seq<bv8> {
    if c.hi == 0 then
      if c.lo < 0x80 then [Narrow(c.lo)]
      else if c.lo < 0x800 then [Narrow(0xC0 | ((c.lo & 0x7C0) >> 6)), Narrow(0x80 | (c.lo & 0x3F))]
      else [Narrow(0xE0 | ((c.lo & 0xF000) >> 12)), Narrow(0x80 | ((c.lo & 0x0FC0) >> 6)), Narrow(0x80 | (c.lo & 0x3F))]
    else
      [Narrow(0xF0 | ((c.hi & 0x7C) >> 2)), Narrow(0x80 | ((c.hi & 0x03) << 4) | ((c.lo & 0xF000) >> 12)),
       Narrow(0x80 | ((c.lo & 0x0FC0) >> 6)), Narrow(0x80 | (c.lo & 0x3F))]
  }

  /** Bytes decodeUTF8 consumes, by the first byte. */
  function Length(c0: bv8): nat {
    if c0 & 0xE0 == 0xC0 then 2 else if c0 & 0xF0 == 0xE0 then 3 else if c0 & 0xF8 == 0xF0 then 4 else 1
  }

  /** decodeUTF8; the 16-bit shifts by 12 drop the upper bits of the byte. */
  function Decode(s: seq<bv8>): Cp
    requires s != [] && Length(s[0]) <= |s|
  {
    var c0 := Wide(s[0]);
    match Length(s[0])
    case 2 => Cp(0, (Wide(s[1]) & 0x3F) | ((c0 & 0x1F) << 6))
    case 3 => Cp(0, (Wide(s[2]) & 0x3F) | ((Wide(s[1]) & 0x3F) << 6) | (c0 << 12))
    case 4 => Cp(((Wide(s[1]) & 0x3F) >> 4) | ((c0 & 0x07) << 2),
                 (Wide(s[3]) & 0x3F) | ((Wide(s[2]) & 0x3F) << 6) | (Wide(s[1]) << 12))
    case _ => INVALID
  }

  predicate IsCodePoint(c: Cp) { c.hi <= 0x10 && (c.hi != 0 || c.lo != 0) }

  // ---------------------------------------------------------------- one code point

  lemma EncodedShape(c: Cp)
    requires IsCodePoint(c)
    ensures var e := Encode(c);
            && 0 < |e| <= 4 && e[0] != 0
            && (e[0] < 0x80 <==> |e| == 1)
            && (e[0] >= 0x80 ==> Length(e[0]) == |e|)
  {
  }

  lemma DecodeEncoded1(c: Cp)
    requires IsCodePoint(c) && c.hi == 0 && c.lo < 0x80
    ensures Cp(0, Wide(Encode(c)[0])) == c
  {
  }

  lemma DecodeEncoded2(c: Cp)
    requires c.hi == 0 && 0x80 <= c.lo < 0x800
    ensures Decode(Encode(c)) == c
  {
  }

  /** First bytes that announce three, and what decodeUTF8 makes of three bytes. */
  predicate LeadsThree(b0: bv8) { b0 & 0xE0 != 0xC0 && b0 & 0xF0 == 0xE0 }

  function JoinThree(b0: bv8, b1: bv8, b2: bv8): bv16 {
    (Wide(b2) & 0x3F) | ((Wide(b1) & 0x3F) << 6) | (Wide(b0) << 12)
  }

  function FirstOfThree(lo: bv16): bv8 { Narrow(0xE0 | ((lo & 0xF000) >> 12)) }
  function SecondOfThree(lo: bv16): bv8 { Narrow(0x80 | ((lo & 0x0FC0) >> 6)) }
  function ThirdOfThree(lo: bv16): bv8 { Narrow(0x80 | (lo & 0x3F)) }

  /** The shift by twelve loses the upper bits of the first byte, which are not the code point's. */
  lemma ThreeBytes(lo: bv16)
    ensures LeadsThree(FirstOfThree(lo))
    ensures JoinThree(FirstOfThree(lo), SecondOfThree(lo), ThirdOfThree(lo)) == lo
  {
  }

  lemma EncodeThree(c: Cp)
    requires c.hi == 0 && 0x800 <= c.lo
    ensures Encode(c) == [FirstOfThree(c.lo), SecondOfThree(c.lo), ThirdOfThree(c.lo)]
  {
    hide Narrow;
  }

  lemma DecodeThree(b0: bv8, b1: bv8, b2: bv8)
    requires LeadsThree(b0)
    ensures Length(b0) == 3 && Decode([b0, b1, b2]) == Cp(0, JoinThree(b0, b1, b2))
  {
    hide Wide;
  }

  lemma DecodeEncoded3(c: Cp)
    requires c.hi == 0 && 0x800 <= c.lo
    ensures Decode(Encode(c)) == c
  {
    hide Decode, Encode, Length, LeadsThree, JoinThree, FirstOfThree, SecondOfThree, ThirdOfThree;
    ThreeBytes(c.lo);
    EncodeThree(c);
    DecodeThree(FirstOfThree(c.lo), SecondOfThree(c.lo), ThirdOfThree(c.lo));
  }

  lemma DecodeEncoded4(c: Cp)
    requires 0 < c.hi <= 0x1F
    ensures Decode(Encode(c)) == c
  {
  }

  /** Upper halves above 0x1F do not survive: the codec works for 21 bits and no more. */
  lemma TwentyOneBits(c: Cp)
    requires c.hi != 0
    ensures Length(Encode(c)[0]) == 4 && Decode(Encode(c)) == c <==> c.hi <= 0x1F
  {
  }

  /** A continuation byte, and the first bytes of two, three and four: the table of section 3 of RFC 3629. */
  predicate Continues(b: bv8) { 0x80 <= b <= 0xBF }

  /** The bits that the table marks x, from the top; of four bytes the upper five and the lower sixteen. */
  function Bits2(a: bv8, b: bv8): bv16 { ((Wide(a) & 0x1F) << 6) | (Wide(b) & 0x3F) }
  function Bits3(a: bv8, b: bv8, c: bv8): bv16 { ((Wide(a) & 0x0F) << 12) | ((Wide(b) & 0x3F) << 6) | (Wide(c) & 0x3F) }
  function Upper4(a: bv8, b: bv8): bv16 { ((Wide(a) & 0x07) << 2) | ((Wide(b) & 0x30) >> 4) }
  function Lower4(b: bv8, c: bv8, d: bv8): bv16 { ((Wide(b) & 0x0F) << 12) | ((Wide(c) & 0x3F) << 6) | (Wide(d) & 0x3F) }

  /**
   * The bytes follow the table: one byte below 0x80, two below 0x800, three below 0x10000 and four from there,
   * each first byte in its range, the others continuation bytes, and the bits in order from the top.
   */
  lemma ByTheTable(c: Cp)
    requires c.hi <= 0x10
    ensures var e := Encode(c);
            && (|e| == 1 <==> c.hi == 0 && c.lo < 0x80) && (|e| == 2 <==> c.hi == 0 && 0x80 <= c.lo < 0x800)
            && (|e| == 3 <==> c.hi == 0 && 0x800 <= c.lo) && (|e| == 4 <==> c.hi != 0)
            && (|e| == 1 ==> (e[0] as bv16) == c.lo)
            && (|e| == 2 ==> 0xC2 <= e[0] <= 0xDF && Continues(e[1]) && Bits2(e[0], e[1]) == c.lo)
            && (|e| == 3 ==> 0xE0 <= e[0] <= 0xEF && Continues(e[1]) && Continues(e[2]) && Bits3(e[0], e[1], e[2]) == c.lo)
            && (|e| == 4 ==>
                  && 0xF0 <= e[0] <= 0xF4 && Continues(e[1]) && Continues(e[2]) && Continues(e[3])
                  && Upper4(e[0], e[1]) == c.hi && Lower4(e[1], e[2], e[3]) == c.lo)
  {
    if c.hi == 0 && c.lo < 0x80 { OneByte(c); }
    else if c.hi == 0 && c.lo < 0x800 { TwoBytes(c); }
    else if c.hi == 0 { ThreeContinue(c); }
    else { FourBytes(c); }
  }

  lemma OneByte(c: Cp)
    requires c.hi == 0 && c.lo < 0x80
    ensures |Encode(c)| == 1 && (Encode(c)[0] as bv16) == c.lo
  {
  }

  lemma TwoBytes(c: Cp)
    requires c.hi == 0 && 0x80 <= c.lo < 0x800
    ensures var e := Encode(c); |e| == 2 && 0xC2 <= e[0] <= 0xDF && Continues(e[1]) && Bits2(e[0], e[1]) == c.lo
  {
  }

  lemma ThreeContinue(c: Cp)
    requires c.hi == 0 && 0x800 <= c.lo
    ensures var e := Encode(c);
            |e| == 3 && 0xE0 <= e[0] <= 0xEF && Continues(e[1]) && Continues(e[2]) && Bits3(e[0], e[1], e[2]) == c.lo
  {
    hide Encode, Bits3, FirstOfThree, SecondOfThree, ThirdOfThree, Continues;
    EncodeThree(c);
    ThreeRanges(c.lo);
    ThreeBits(c.lo);
  }

  lemma ThreeRanges(lo: bv16)
    ensures 0xE0 <= FirstOfThree(lo) <= 0xEF && Continues(SecondOfThree(lo)) && Continues(ThirdOfThree(lo))
  {
  }

  lemma ThreeBits(lo: bv16)
    ensures Bits3(FirstOfThree(lo), SecondOfThree(lo), ThirdOfThree(lo)) == lo
  {
  }

  function FirstOfFour(hi: bv16): bv8 { Narrow(0xF0 | ((hi & 0x7C) >> 2)) }
  function SecondOfFour(hi: bv16, lo: bv16): bv8 { Narrow(0x80 | ((hi & 0x03) << 4) | ((lo & 0xF000) >> 12)) }

  lemma EncodeFour(c: Cp)
    requires c.hi != 0
    ensures Encode(c) == [FirstOfFour(c.hi), SecondOfFour(c.hi, c.lo), SecondOfThree(c.lo), ThirdOfThree(c.lo)]
  {
    hide Narrow;
  }

  lemma FourRanges(hi: bv16, lo: bv16)
    requires hi <= 0x10
    ensures 0xF0 <= FirstOfFour(hi) <= 0xF4 && Continues(SecondOfFour(hi, lo))
  {
  }

  lemma UpperBits(hi: bv16, lo: bv16)
    requires hi <= 0x10
    ensures Upper4(FirstOfFour(hi), SecondOfFour(hi, lo)) == hi
  {
  }

  lemma LowerBits(hi: bv16, lo: bv16)
    requires hi <= 0x10
    ensures Lower4(SecondOfFour(hi, lo), SecondOfThree(lo), ThirdOfThree(lo)) == lo
  {
  }

  lemma FourBytes(c: Cp)
    requires 0 < c.hi <= 0x10
    ensures var e := Encode(c);
            && |e| == 4 && 0xF0 <= e[0] <= 0xF4 && Continues(e[1]) && Continues(e[2]) && Continues(e[3])
            && Upper4(e[0], e[1]) == c.hi && Lower4(e[1], e[2], e[3]) == c.lo
  {
    hide Encode, Upper4, Lower4, FirstOfFour, SecondOfFour, SecondOfThree, ThirdOfThree, Continues;
    EncodeFour(c);
    ThreeRanges(c.lo);
    FourRanges(c.hi, c.lo);
    UpperBits(c.hi, c.lo);
    LowerBits(c.hi, c.lo);
  }

  /** A byte that cannot start a character is skipped alone and stands for the invalid code point. */
  lemma NoStart(s: seq<bv8>)
    requires s != [] && (0x80 <= s[0] <= 0xBF || s[0] >= 0xF8)
    ensures Length(s[0]) == 1 && Decode(s) == Cp(0xFFFF, 0xFFFF)
  {
  }

  // ---------------------------------------------------------------- a whole text

  function EncodeAll(cs: seq<Cp>): seq<bv8> { if cs == [] then [] else Encode(cs[0]) + EncodeAll(cs[1..]) }

  /** Decoding looks at its own bytes only. */
  lemma DecodeLocal(e: seq<bv8>, rest: seq<bv8>)
    requires e != [] && Length(e[0]) <= |e|
    ensures Decode(e + rest) == Decode(e)
  {
    hide Wide;
    var s := e + rest;
    forall k | 0 <= k < |e| ensures s[k] == e[k] {
    }
  }

  /** One turn of the reading loop: a plain byte, or whatever decodeUTF8 makes of the next ones. */
  function Next(s: seq<bv8>): (Cp, nat)
    requires s != [] && Length(s[0]) <= |s|
  {
    if s[0] < 0x80 then (Cp(0, Wide(s[0])), 1) else (Decode(s), Length(s[0]))
  }

  lemma NextOfEncoded(c: Cp, rest: seq<bv8>)
    requires IsCodePoint(c)
    ensures var s := Encode(c) + rest;
            && Length(s[0]) <= |s| && Next(s) == (c, |Encode(c)|) && s[0] != 0
            && s[|Encode(c)|..] == rest
  {
    var e := Encode(c);
    var s := e + rest;
    EncodedShape(c);
    assert s[0] == e[0];
    if |e| == 1 {
      DecodeEncoded1(c);
    } else {
      DecodeLocal(e, rest);
      if c.hi != 0 { DecodeEncoded4(c); }
      else if c.lo < 0x800 { DecodeEncoded2(c); }
      else { DecodeEncoded3(c); }
    }
  }

  /** The input is the encoding of some code points. */
  ghost predicate IsEncoding(s: seq<bv8>, cs: seq<Cp>) {
    s == EncodeAll(cs) && forall i :: 0 <= i < |cs| ==> IsCodePoint(cs[i])
  }

  /** The reading loop, over a string that the zero after `s` ends. */
  method DecodeAll(s: seq<bv8>, ghost cs: seq<Cp>) returns (out: seq<Cp>)
    requires IsEncoding(s, cs)
    ensures out == cs
  {
    hide Encode, Decode, Length, Wide, IsCodePoint;
    out := [];
    var i := 0;
    ghost var rest := cs;
    while i < |s|
      invariant 0 <= i <= |s| && cs == out + rest
      invariant IsEncoding(s[i..], rest)
      decreases |s| - i
    {
      assert rest != [];
      var at := s[i..];
      NextOfEncoded(rest[0], EncodeAll(rest[1..]));
      EncodedShape(rest[0]);
      assert at[Next(at).1..] == s[i + Next(at).1..];
      if s[i] < 0x80 {
        out := out + [Cp(0, Wide(s[i]))];
        i := i + 1;
      } else {
        var cp, l := Decode(at), Length(s[i]);
        i := i + l;
        out := out + [cp];
      }
      rest := rest[1..];
    }
    NoneLeft(rest);
  }

  lemma NoneLeft(cs: seq<Cp>)
    requires EncodeAll(cs) == [] && forall i :: 0 <= i < |cs| ==> IsCodePoint(cs[i])
    ensures cs == []
  {
    if cs != [] { EncodedShape(cs[0]); }
  }
}
