/**
 * The Internet checksum: the add-with-carry loops of code/TCPLIB/IPASM.ASM against the simple
 * 32-bit algorithm kept as a comment in code/TCPLIB/IP.CPP (RFC 1071, sections 1 and 2).
 */
module Checksum {
  import opened Machine

  // ---------------------------------------------------------------- what a checksum is

  /** Sum of the little-endian 16-bit words; a last odd byte counts as a word of its own. */
  function WordSum(data: seq<Byte>): nat
    decreases |data|
  {
    if |data| == 0 then 0
    else if |data| == 1 then data[0]
    else Word(data, 0) + WordSum(data[2..])
  }

  /** lodsw at offset `si`. */
  function Word(data: seq<Byte>, si: nat): (w: U16)
    requires si + 1 < |data|
  {
    var lo: int, hi: int := data[si], data[si + 1];
    lo + 256 * hi
  }

  /** Fold the carries back in until 16 bits are left. */
  function Fold(n: nat): (f: U16)
    decreases n
  {
    if n < TWO16 then n else Fold(n % TWO16 + n / TWO16)
  }

  /** The checksum of RFC 1071. */
  function Sum(data: seq<Byte>): U16 { 0xFFFF - Fold(WordSum(data)) }

  /** The pseudo header, as bytes in network order. */
  function Pseudo(src: seq<Byte>, target: seq<Byte>, protocol: Byte, len: U16): seq<Byte> {
    src + target + [0, protocol, len / 256, len % 256]
  }

  // ---------------------------------------------------------------- ones' complement arithmetic

  /** Folding adds nothing modulo 0xFFFF, and only zero folds to zero. */
  lemma {:induction false} FoldIs(n: nat, r: nat)
    requires r < TWO16 && r % 0xFFFF == n % 0xFFFF && (r == 0 <==> n == 0)
    ensures Fold(n) == r
    decreases n
  {
    if n >= TWO16 {
      var m := n % TWO16 + n / TWO16;
      assert n == m + 0xFFFF * (n / TWO16);
      FoldIs(m, r);
    }
  }

  lemma {:induction false} FoldMod(n: nat)
    ensures Fold(n) % 0xFFFF == n % 0xFFFF && (Fold(n) == 0 <==> n == 0)
    decreases n
  {
    if n >= TWO16 {
      var m := n % TWO16 + n / TWO16;
      CarryMod(n % TWO16, n / TWO16);
      FoldMod(m);
    }
  }

  /** A carry out of 16 bits counts as one. */
  lemma CarryMod(low: nat, high: nat)
    ensures (TWO16 * high + low) % 0xFFFF == (low + high) % 0xFFFF
  {
    assert TWO16 * high + low == low + high + 0xFFFF * high;
  }

  /** Folding may be done at any time. */
  lemma FoldSum(a: nat, b: nat)
    ensures Fold(Fold(a) + b) == Fold(a + b)
  {
    hide Fold;
    FoldMod(a);
    FoldMod(a + b);
    FoldIs(Fold(a) + b, Fold(a + b));
  }

  /** Adding one word with the carry brought round. */
  lemma FoldStep(a: nat, w: U16)
    ensures Fold(a + w) == if Fold(a) + w < TWO16 then Fold(a) + w else Fold(a) + w - 0xFFFF
  {
    FoldSum(a, w);
  }

  // ---------------------------------------------------------------- sums of pieces

  lemma {:induction false} WordSumConcat(a: seq<Byte>, b: seq<Byte>)
    requires |a| % 2 == 0
    ensures WordSum(a + b) == WordSum(a) + WordSum(b)
    decreases |a|
  {
    if a == [] {
      assert a + b == b;
    } else {
      assert (a + b)[2..] == a[2..] + b;
      WordSumConcat(a[2..], b);
    }
  }

  /** One more word. */
  lemma WordSumNext(data: seq<Byte>, si: nat)
    requires si % 2 == 0 && si + 1 < |data|
    ensures WordSum(data[..si + 2]) == WordSum(data[..si]) + Word(data, si)
  {
    var w := data[si..si + 2];
    assert data[..si + 2] == data[..si] + w;
    WordSumConcat(data[..si], w);
    assert w[2..] == [];
  }

  /** The last odd byte. */
  lemma WordSumOdd(data: seq<Byte>)
    requires |data| % 2 == 1
    ensures WordSum(data) == WordSum(data[..|data| - 1]) + data[|data| - 1]
  {
    var n := |data| - 1;
    assert data == data[..n] + [data[n]];
    WordSumConcat(data[..n], [data[n]]);
  }

  // ---------------------------------------------------------------- the register pair

  /** The checksum register and the carry flag. */
  datatype Acc = Acc(bx: U16, cf: bool)

  function Carry(a: Acc): nat { if a.cf then 1 else 0 }

  function Adc(a: Acc, ax: U16): Acc {
    var sum := a.bx + ax + Carry(a);
    Acc(Wrap16(sum), sum >= TWO16)
  }

  function Add(a: Acc, ax: U16): Acc { Adc(a.(cf := false), ax) }

  /** The pair stands for the folded sum: no carry has been lost, and bx = 0xFFFF with carry set cannot be. */
  predicate Holds(a: Acc, n: nat) { a.bx + Carry(a) == Fold(n) }

  lemma AdcHolds(a: Acc, ax: U16, n: nat)
    requires Holds(a, n)
    ensures Holds(Adc(a, ax), n + ax)
    ensures a.bx == 0xFFFF ==> !a.cf
  {
    FoldStep(n, ax);
  }

  /** `adc bx, 0` leaves the whole sum in bx and never carries. */
  lemma AdcZero(a: Acc, n: nat)
    requires Holds(a, n)
    ensures Adc(a, 0) == Acc(Fold(n), false)
  {
  }

  // ---------------------------------------------------------------- the loops

  /** The pair stands for `n` plus the words before offset `si`. */
  ghost predicate Upto(a: Acc, n: nat, data: seq<Byte>, si: nat) {
    si % 2 == 0 && si <= |data| && Holds(a, n + WordSum(data[..si]))
  }

  /** lodsw; adc bx, ax */
  method NextWord(data: seq<Byte>, a: Acc, si: nat, ghost n: nat) returns (r: Acc, si': nat)
    requires Upto(a, n, data, si) && si + 2 <= |data|
    ensures Upto(r, n, data, si') && si' == si + 2
  {
    WordSumNext(data, si);
    AdcHolds(a, Word(data, si), n + WordSum(data[..si]));
    r, si' := Adc(a, Word(data, si)), si + 2;
  }

  /** A loop of one word a turn. */
  method WordLoop(data: seq<Byte>, from: nat, turns: nat, a: Acc, ghost n: nat) returns (r: Acc)
    requires Upto(a, n, data, from) && 0 < turns && from + 2 * turns <= |data|
    ensures Upto(r, n, data, from + 2 * turns)
  {
    var si, cx := from, turns;
    r := a;
    while cx != 0
      invariant cx <= turns && si == from + 2 * (turns - cx) && Upto(r, n, data, si)
    {
      r, si := NextWord(data, r, si, n);
      cx := cx - 1;
    }
  }

  /** A loop of two words a turn. */
  method TwoWordLoop(data: seq<Byte>, turns: nat, a: Acc, ghost n: nat) returns (r: Acc)
    requires Upto(a, n, data, 0) && 0 < turns && 4 * turns <= |data|
    ensures Upto(r, n, data, 4 * turns)
  {
    var si, cx := 0, turns;
    r := a;
    while cx != 0
      invariant cx <= turns && si == 4 * (turns - cx) && Upto(r, n, data, si)
    {
      r, si := NextWord(data, r, si, n);
      r, si := NextWord(data, r, si, n);
      cx := cx - 1;
    }
  }

  /** A loop of four words a turn. */
  method FourWordLoop(data: seq<Byte>, turns: nat, a: Acc, ghost n: nat) returns (r: Acc)
    requires Upto(a, n, data, 0) && 0 < turns && 8 * turns <= |data|
    ensures Upto(r, n, data, 8 * turns)
  {
    var si, cx := 0, turns;
    r := a;
    while cx != 0
      invariant cx <= turns && si == 8 * (turns - cx) && Upto(r, n, data, si)
    {
      r, si := NextWord(data, r, si, n);
      r, si := NextWord(data, r, si, n);
      r, si := NextWord(data, r, si, n);
      r, si := NextWord(data, r, si, n);
      cx := cx - 1;
    }
  }

  /** adc bx, 0 */
  method LastCarry(a: Acc, ghost n: nat, ghost data: seq<Byte>, ghost si: nat) returns (r: Acc)
    requires Upto(a, n, data, si)
    ensures Upto(r, n, data, si) && !r.cf
  {
    AdcZero(a, n + WordSum(data[..si]));
    r := Adc(a, 0);
  }

  /** The odd byte at the end, if there is one. */
  method OddByte(data: seq<Byte>, a: Acc, ghost n: nat) returns (r: Acc)
    requires Upto(a, n, data, |data| - |data| % 2) && !a.cf
    ensures Holds(r, n + WordSum(data)) && !r.cf
  {
    r := a;
    if |data| % 2 != 0 {
      WordSumOdd(data);
      AdcHolds(a, data[|data| - 1], n + WordSum(data[..|data| - 1]));
      r := Add(a, data[|data| - 1]);
      AdcZero(r, n + WordSum(data));
      r := Adc(r, 0);
    } else {
      assert data[..|data|] == data;
    }
  }

  /** _ipchksum */
  method Ipchksum(data: seq<Byte>) returns (ax: U16)
    requires 2 <= |data| < TWO16
    ensures ax == Sum(data)
  {
    var bx := Acc(0, false);
    assert data[..0] == [];
    bx := WordLoop(data, 0, |data| / 2, bx, 0);
    bx := LastCarry(bx, 0, data, |data| - |data| % 2);
    bx := OddByte(data, bx, 0);
    ax := 0xFFFF - bx.bx;
  }

  /** The start shared by the pseudo header routines: addresses, protocol and length. */
  method PseudoHeader(src: seq<Byte>, target: seq<Byte>, protocol: Byte, len: U16) returns (bx: Acc)
    requires |src| == 4 && |target| == 4
    ensures Holds(bx, WordSum(Pseudo(src, target, protocol, len))) && !bx.cf
  {
    ghost var header := Pseudo(src, target, protocol, len);
    bx := Addresses(src, target, header);
    AddOne(bx, 256 * protocol, header, 8);
    bx := Add(bx, 256 * protocol);
    AddOne(bx, Swap(len), header, 10);
    bx := Adc(bx, Swap(len));
    AdcZero(bx, WordSum(header[..12]));
    bx := Adc(bx, 0);
    assert header[..12] == header;
  }

  /** The two addresses, four words in a row. */
  method Addresses(src: seq<Byte>, target: seq<Byte>, ghost header: seq<Byte>) returns (bx: Acc)
    requires |src| == 4 && |target| == 4 && |header| >= 8
    requires header[..4] == src && header[4..8] == target
    ensures Holds(bx, WordSum(header[..8])) && !bx.cf
  {
    bx := Acc(0, false);
    assert header[..0] == [];
    WordAt(header, src, 0, 0);
    WordAt(header, src, 0, 2);
    WordAt(header, target, 4, 0);
    WordAt(header, target, 4, 2);
    AddOne(bx, Word(src, 0), header, 0);
    bx := Add(bx, Word(src, 0));
    AddOne(bx, Word(src, 2), header, 2);
    bx := Adc(bx, Word(src, 2));
    AddOne(bx, Word(target, 0), header, 4);
    bx := Adc(bx, Word(target, 0));
    AddOne(bx, Word(target, 2), header, 6);
    bx := Adc(bx, Word(target, 2));
    AdcZero(bx, WordSum(header[..8]));
    bx := Adc(bx, 0);
  }

  /** xchg dl, dh */
  function Swap(x: U16): U16 { 256 * (x % 256) + x / 256 }

  lemma WordAt(whole: seq<Byte>, part: seq<Byte>, at: nat, k: nat)
    requires at + |part| <= |whole| && k + 1 < |part|
    requires whole[at..at + |part|] == part
    ensures Word(whole, at + k) == Word(part, k)
  {
    assert whole[at..at + |part|][k] == whole[at + k] && whole[at..at + |part|][k + 1] == whole[at + k + 1];
  }

  lemma AddOne(a: Acc, w: U16, data: seq<Byte>, si: nat)
    requires si % 2 == 0 && si + 1 < |data| && w == Word(data, si) && Holds(a, WordSum(data[..si]))
    ensures Holds(Adc(a, w), WordSum(data[..si + 2]))
  {
    WordSumNext(data, si);
    AdcHolds(a, w, WordSum(data[..si]));
  }

  /** _ip_p_chksum */
  method IpPChksum(src: seq<Byte>, target: seq<Byte>, data: seq<Byte>, protocol: Byte) returns (ax: U16)
    requires |src| == 4 && |target| == 4 && 8 <= |data| < TWO16
    ensures ax == Sum(Pseudo(src, target, protocol, |data|) + data)
  {
    var bx := PseudoHeader(src, target, protocol, |data|);
    ghost var n := WordSum(Pseudo(src, target, protocol, |data|));
    bx := Body(data, bx, n);
    WordSumConcat(Pseudo(src, target, protocol, |data|), data);
    ax := 0xFFFF - bx.bx;
  }

  /** Unrolled loop, left-over words and odd byte. */
  method Body(data: seq<Byte>, a: Acc, ghost n: nat) returns (bx: Acc)
    requires 8 <= |data| && Holds(a, n) && !a.cf
    ensures Holds(bx, n + WordSum(data)) && !bx.cf
  {
    assert data[..0] == [];
    bx := FourWordLoop(data, |data| / 8, a, n);
    bx := LastCarry(bx, n, data, |data| / 8 * 8);
    bx := Rest(data, |data| / 8 * 8, bx, n);
  }

  /** Up to three left-over words, and the odd byte. */
  method Rest(data: seq<Byte>, from: nat, a: Acc, ghost n: nat) returns (bx: Acc)
    requires Upto(a, n, data, from) && !a.cf && from == |data| / 8 * 8
    ensures Holds(bx, n + WordSum(data)) && !bx.cf
  {
    bx := a;
    var cx := |data| / 2 % 4;
    if cx != 0 {
      bx := WordLoop(data, from, cx, bx, n);
      bx := LastCarry(bx, n, data, from + 2 * cx);
    }
    bx := OddByte(data, bx, n);
  }

  /** _ip_p_chksum2: header and data in two places. */
  method IpPChksum2(src: seq<Byte>, target: seq<Byte>, header: seq<Byte>, protocol: Byte, data: seq<Byte>) returns (ax: U16)
    requires |src| == 4 && |target| == 4
    requires 0 < |header| && |header| % 4 == 0 && |header| + |data| < TWO16
    ensures ax == Sum(Pseudo(src, target, protocol, |header| + |data|) + (header + data))
  {
    hide Fold;
    var total := |header| + |data|;
    ghost var pseudo := Pseudo(src, target, protocol, total);
    var bx := PseudoHeader(src, target, protocol, total);
    assert header[..0] == [];
    bx := TwoWordLoop(header, |header| / 4, bx, WordSum(pseudo));
    bx := LastCarry(bx, WordSum(pseudo), header, |header|);
    assert header[..|header|] == header;
    ghost var n := WordSum(pseudo) + WordSum(header);
    if |data| >= 8 {
      bx := Body(data, bx, n);
    } else {
      assert data[..0] == [];
      bx := Rest(data, 0, bx, n);
    }
    WordSumConcat(header, data);
    WordSumConcat(pseudo, header + data);
    ax := 0xFFFF - bx.bx;
  }

  // ---------------------------------------------------------------- the simple algorithm

  /** if ( sum & 0x80000000 ) sum = (sum & 0xffff) + (sum>>16) */
  function Squeeze(sum: U32): U32 {
    if sum >= 0x8000_0000 then sum % TWO16 + sum / TWO16 else sum
  }

  lemma SqueezeFolds(sum: U32)
    requires sum < 0x8000_0000 + TWO16
    ensures Squeeze(sum) < 0x8000_0000 && Fold(Squeeze(sum)) == Fold(sum)
  {
  }

  /** The accumulating loop of simpleChecksum, and its last byte. */
  method Accumulate(data: seq<Byte>, start: U32) returns (sum: U32)
    requires start < 0x8000_0000
    ensures sum < 0x8000_0000 + TWO16 && Fold(sum) == Fold(start + WordSum(data))
  {
    hide Fold;
    sum := start;
    var at, len := 0, |data|;
    assert data[..0] == [];
    while len > 1
      invariant at % 2 == 0 && 0 <= at && 0 <= len && at + len == |data|
      invariant sum < 0x8000_0000 && Fold(sum) == Fold(start + WordSum(data[..at]))
    {
      WordSumNext(data, at);
      FoldSum(sum, Word(data, at));
      FoldSum(start + WordSum(data[..at]), Word(data, at));
      sum := sum + Word(data, at);
      SqueezeFolds(sum);
      sum := Squeeze(sum);
      at, len := at + 2, len - 2;
    }
    if len != 0 {
      WordSumOdd(data);
      FoldSum(sum, data[at]);
      FoldSum(start + WordSum(data[..at]), data[at]);
      sum := sum + data[at];
    } else {
      assert data[..at] == data;
    }
  }

  /** while ( sum >> 16 ) sum = (sum & 0xffff) + (sum>>16) */
  method FoldLoop(start: U32) returns (sum: U32)
    ensures sum == Fold(start)
  {
    sum := start;
    while sum / TWO16 != 0
      invariant Fold(sum) == Fold(start)
      decreases sum
    {
      sum := sum % TWO16 + sum / TWO16;
    }
  }

  /** simpleChecksum */
  method SimpleChecksum(data: seq<Byte>) returns (ax: U16)
    requires |data| < TWO16
    ensures ax == Sum(data)
  {
    var sum := Accumulate(data, 0);
    sum := FoldLoop(sum);
    ax := 0xFFFF - sum;
  }

  /** pseudoChecksum */
  method PseudoChecksum(src: seq<Byte>, target: seq<Byte>, data: seq<Byte>, protocol: Byte) returns (ax: U16)
    requires |src| == 4 && |target| == 4 && |data| < TWO16
    ensures ax == Sum(Pseudo(src, target, protocol, |data|) + data)
  {
    var header := Pseudo(src, target, protocol, |data|);
    var sum := Accumulate(header, 0);
    sum := FoldLoop(sum);
    FoldSum(WordSum(header), WordSum(data));
    WordSumConcat(header, data);
    sum := Accumulate(data, sum);
    sum := FoldLoop(sum);
    ax := 0xFFFF - sum;
  }

  // ---------------------------------------------------------------- sender and receiver agree

  /** A word stored at an even offset, low byte first. */
  function Store(data: seq<Byte>, at: nat, w: U16): (d: seq<Byte>)
    requires at + 1 < |data|
    ensures |d| == |data|
  {
    data[..at] + Bytes(w) + data[at + 2..]
  }

  lemma WordSumPair(p: seq<Byte>)
    requires |p| == 2
    ensures WordSum(p) == Word(p, 0)
  {
    assert p[2..] == [];
  }

  function Bytes(w: U16): (p: seq<Byte>)
    ensures |p| == 2 && Word(p, 0) == w
  {
    [w % 256, w / 256]
  }

  lemma ThreeParts(a: seq<Byte>, p: seq<Byte>, b: seq<Byte>)
    requires |a| % 2 == 0 && |p| == 2
    ensures WordSum(a + p + b) == WordSum(a) + Word(p, 0) + WordSum(b)
  {
    WordSumConcat(a + p, b);
    WordSumConcat(a, p);
    WordSumPair(p);
  }

  lemma StoreSum(data: seq<Byte>, at: nat, w: U16)
    requires at % 2 == 0 && at + 1 < |data|
    ensures WordSum(Store(data, at, w)) == WordSum(data) - Word(data, at) + w
  {
    hide WordSum;
    var a, p, b := data[..at], data[at..at + 2], data[at + 2..];
    assert data == a + p + b;
    ThreeParts(a, p, b);
    ThreeParts(a, Bytes(w), b);
  }

  /** Storing the checksum in the field it was computed over as zero makes the receiver compute zero. */
  lemma StoredChecksumVerifies(data: seq<Byte>, at: nat)
    requires at % 2 == 0 && at + 1 < |data| && Word(data, at) == 0
    ensures Sum(Store(data, at, Sum(data))) == 0
  {
    hide Fold, WordSum, Store, Word;
    var n := WordSum(data);
    StoreSum(data, at, Sum(data));
    FoldSum(n, Sum(data));
    FoldIs(0xFFFF, 0xFFFF);
  }

  /** The receiver accepts exactly the packets whose words add up to a positive multiple of 0xFFFF. */
  lemma AcceptedIff(data: seq<Byte>)
    ensures Sum(data) == 0 <==> WordSum(data) != 0 && WordSum(data) % 0xFFFF == 0
  {
    FoldMod(WordSum(data));
  }

  /** After changing one word of a packet that verified, it verifies again only if 0 and 0xFFFF were exchanged. */
  lemma OneWordErrorDetected(data: seq<Byte>, at: nat, w: U16)
    requires at % 2 == 0 && at + 1 < |data| && Sum(data) == 0 && w != Word(data, at)
    ensures Sum(Store(data, at, w)) == 0 <==>
              (w == 0xFFFF && Word(data, at) == 0)
              || (w == 0 && Word(data, at) == 0xFFFF && WordSum(data) != 0xFFFF)
  {
    hide Fold, WordSum, Store, Word;
    AcceptedIff(data);
    StoreSum(data, at, w);
    AcceptedIff(Store(data, at, w));
  }

  // ---------------------------------------------------------------- byte order

  /** The same bytes added up as big-endian words. */
  function WordSumBig(data: seq<Byte>): nat
    decreases |data|
  {
    if |data| == 0 then 0
    else if |data| == 1 then 256 * data[0]
    else 256 * data[0] + data[1] + WordSumBig(data[2..])
  }

  lemma {:induction false} BigIsTimes256(data: seq<Byte>)
    ensures WordSumBig(data) % 0xFFFF == (256 * WordSum(data)) % 0xFFFF
    ensures WordSumBig(data) == 0 <==> WordSum(data) == 0
    decreases |data|
  {
    if |data| > 1 {
      BigIsTimes256(data[2..]);
      OneWordBig(data[0], data[1], WordSumBig(data[2..]), WordSum(data[2..]));
    }
  }

  /** One word more on both sides; a high byte counts 0x10000, that is one, in the product. */
  lemma OneWordBig(lo: Byte, hi: Byte, big: nat, little: nat)
    requires big % 0xFFFF == (256 * little) % 0xFFFF
    ensures (256 * lo + hi + big) % 0xFFFF == (256 * (lo + 256 * hi + little)) % 0xFFFF
  {
    var r, j, k := big % 0xFFFF, big / 0xFFFF, 256 * little / 0xFFFF;
    var x: nat := 256 * lo + hi + r;
    assert 256 * lo + hi + big == x + 0xFFFF * j;
    assert 256 * (lo + 256 * hi + little) == x + 0xFFFF * (hi + k);
    PlusMultiple(x, j);
    PlusMultiple(x, hi + k);
  }

  /**
   * The machine adds little-endian words; the result, stored little-endian, is what a big-endian
   * machine computes and stores: the one is the byte swap of the other.
   */
  lemma ByteOrderDoesNotMatter(data: seq<Byte>)
    ensures 0xFFFF - Fold(WordSumBig(data)) == Swap(Sum(data))
  {
    hide WordSum, WordSumBig, Fold, Swap;
    var n := WordSum(data);
    FoldMod(n);
    BigIsTimes256(data);
    SwapTimes256(Fold(n));
    Times256(Fold(n), n);
    FoldIs(WordSumBig(data), Swap(Fold(n)));
    SwapComplement(Fold(n));
  }

  lemma PlusMultiple(a: nat, k: nat)
    ensures (a + 0xFFFF * k) % 0xFFFF == a % 0xFFFF
  {
  }

  lemma Times256(x: nat, y: nat)
    requires x % 0xFFFF == y % 0xFFFF
    ensures (256 * x) % 0xFFFF == (256 * y) % 0xFFFF
  {
    var r, j, k := x % 0xFFFF, x / 0xFFFF, y / 0xFFFF;
    assert x == r + 0xFFFF * j && y == r + 0xFFFF * k;
    PlusMultiple(256 * r, 256 * j);
    PlusMultiple(256 * r, 256 * k);
  }

  lemma SwapTimes256(x: U16)
    ensures Swap(x) % 0xFFFF == (256 * x) % 0xFFFF && (Swap(x) == 0 <==> x == 0)
  {
    assert 256 * x == Swap(x) + 0xFFFF * (x / 256);
  }

  lemma SwapComplement(x: U16)
    ensures Swap(0xFFFF - x) == 0xFFFF - Swap(x)
  {
  }

  /** The example of section 3 of RFC 1071: the sum is DD F2 in network order, the checksum 22 0D. */
  lemma RfcExample()
    ensures Swap(Sum([0x00, 0x01, 0xF2, 0x03, 0xF4, 0xF5, 0xF6, 0xF7])) == 0x220D
  {
    var data: seq<Byte> := [0x00, 0x01, 0xF2, 0x03, 0xF4, 0xF5, 0xF6, 0xF7];
    assert WordSum(data[2..][2..][2..]) == 0xF7F6;
    assert WordSum(data[2..][2..]) == 0xF7F6 + 0xF5F4;
    assert WordSum(data[2..]) == 0xF7F6 + 0xF5F4 + 0x03F2;
    assert WordSum(data) == 0x1F2DC;
  }

  /** The pseudo header of section 3.1 of RFC 793: addresses, a zero byte, the protocol, the length; in network order. */
  lemma PseudoExample(len: U16, protocol: Byte)
    ensures WordSumBig(Pseudo([192, 168, 0, 1], [10, 0, 0, 2], protocol, len)) == 0xC0A8 + 0x0001 + 0x0A00 + 0x0002 + protocol + len
  {
    var p := Pseudo([192, 168, 0, 1], [10, 0, 0, 2], protocol, len);
    assert p[2..][2..][2..][2..][2..] == [len / 256, len % 256];
    assert WordSumBig(p[2..][2..][2..][2..][2..]) == len;
    assert WordSumBig(p[2..][2..][2..][2..]) == protocol + len;
    assert WordSumBig(p[2..][2..][2..]) == 2 + protocol + len;
    assert WordSumBig(p[2..][2..]) == 0x0A00 + 2 + protocol + len;
    assert WordSumBig(p[2..]) == 1 + 0x0A00 + 2 + protocol + len;
  }
}
