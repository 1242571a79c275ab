/** Machine integers of the 16-bit target and a few helpers shared by every component. */
module Machine {

  datatype Option<+T> = None | Some(value: T) {
    function GetOr(default: T): T { if Some? then value else default }
  }

  type Byte = x: int | 0 <= x < 0x100
  type U16 = x: int | 0 <= x < 0x1_0000
  type U32 = x: int | 0 <= x < 0x1_0000_0000

  const TWO16: int := 0x1_0000
  const TWO32: int := 0x1_0000_0000

  /** The value left in a 16-bit register by an arithmetic result. */
  function Wrap16(x: int): U16 { x % TWO16 }

  /** The value left in a 32-bit register by an arithmetic result. */
  function Wrap32(x: int): U32 { x % TWO32 }

  function Min(a: int, b: int): int { if a < b then a else b }

  /** Distance from `from` forward to `to` around the 32-bit circle. */
  function Ahead(from: U32, to: U32): U32 { Wrap32(to - from) }

  /** Wrapping is transparent to a later wrapping sum. */
  lemma WrapAdd(x: int, y: int)
    ensures Wrap32(Wrap32(x) + y) == Wrap32(x + y)
  {
  }

  /** Two positions less than one circle apart wrap to the same number only if equal. */
  lemma WrapInjective(x: int, y: int)
    requires -TWO32 < x - y < TWO32
    ensures Wrap32(x) == Wrap32(y) <==> x == y
  {
  }
}

/** Copying bytes into arrays. */
module Memory {
  import opened Machine

  /** What a copy leaves behind. */
  function Patched(a: seq<Byte>, at: nat, d: seq<Byte>): (a': seq<Byte>)
    requires at + |d| <= |a|
    ensures |a'| == |a|
  {
    a[..at] + d + a[at + |d|..]
  }

  lemma PatchedNext(a: seq<Byte>, at: nat, d: seq<Byte>, k: nat)
    requires at + |d| <= |a| && k < |d|
    ensures Patched(a, at, d[..k])[at + k := d[k]] == Patched(a, at, d[..k + 1])
  {
  }

  /** memcpy into `target`. */
  method CopyIn(target: array<Byte>, at: nat, data: seq<Byte>)
    requires at + |data| <= target.Length
    modifies target
    ensures target[..] == Patched(old(target[..]), at, data)
  {
    ghost var was := target[..];
    assert data[..0] == [] && Patched(was, at, []) == was;
    for k := 0 to |data|
      invariant target[..] == Patched(was, at, data[..k])
    {
      PatchedNext(was, at, data, k);
      target[at + k] := data[k];
    }
    assert data[..|data|] == data;
  }
}
