/** The byte ring between process2 and recv: addToRcvBuf and the copy loops of recv in TCP.CPP. */
module ReceiveRings {
  import opened Machine
  import opened Memory
  import opened Circular

  const MIN_SIZE: nat := 512
  const MAX_SIZE: nat := 16384

  lemma StoredOnce(a: seq<Byte>, n: nat, last: nat, d: seq<Byte>)
    requires |a| == n + 1 && last + |d| < n
    ensures Patched(a, last, d)[..n] == Stored(a[..n], last, d)
  {
  }

  lemma StoredTwice(a: seq<Byte>, n: nat, last: nat, d: seq<Byte>)
    requires |a| == n + 1 && last < n && |d| <= n <= last + |d|
    ensures Patched(Patched(a, last, d[..n - last]), 0, d[n - last..])[..n] == Stored(a[..n], last, d)
  {
    var a1 := Patched(a, last, d[..n - last]);
    var k := |d| - (n - last);
    assert a1[..n][k..last] == a[..n][k..last];
    assert a1[..n][last..] == d[..n - last];
  }

  lemma LoadedOnce(a: seq<Byte>, x: seq<Byte>)
    requires |x| <= |a|
    ensures Patched(a, 0, x) == x + a[|x|..]
  {
  }

  lemma LoadedTwice(a: seq<Byte>, x: seq<Byte>, y: seq<Byte>)
    requires |x| + |y| <= |a|
    ensures Patched(Patched(a, 0, x), |x|, y) == x + y + a[|x| + |y|..]
  {
  }

  class ReceiveRing {
    const size: U16
    const buffer: array<Byte>
    var first: U16
    var last: U16
    var entries: U16

    ghost predicate Valid()
      reads this
    {
      && buffer.Length == size + 1 && size <= MAX_SIZE && entries <= size
      && (size == 0 ==> first == 0 && last == 0)
      && (size != 0 ==> first < size && last == Slot(first, entries, size))
    }

    /** The bytes received and not yet read. */
    ghost function Contents(): (s: seq<Byte>)
      reads this, buffer
      requires Valid()
      ensures |s| == entries
    {
      if size == 0 then [] else Cyclic(buffer[..size], first, entries)
    }

    /** setRecvBuffer on a fresh socket: a request out of range leaves it without a buffer. */
    constructor (requested: U16, haveMemory: bool)
      ensures Valid() && fresh(buffer) && Contents() == []
      ensures size == if MIN_SIZE <= requested <= MAX_SIZE && haveMemory then requested else 0
    {
      var n: U16 := if MIN_SIZE <= requested <= MAX_SIZE && haveMemory then requested else 0;
      size := n;
      buffer := new Byte[n + 1];
      first, last, entries := 0, 0, 0;
    }

    method AddToRcvBuf(data: seq<Byte>) returns (good: bool)
      requires Valid() && |data| < TWO16
      modifies this, buffer
      ensures Valid()
      ensures good <==> |data| <= size - |old(Contents())|
      ensures Contents() == if good then old(Contents()) + data else old(Contents())
    {
      if |data| > size - entries { return false; }
      if size == 0 { return true; }
      CyclicStored(buffer[..size], first, entries, data);
      Store(data);
      entries := entries + |data|;
      return true;
    }

    /** The one or two copies into the ring. */
    method Store(data: seq<Byte>)
      requires size != 0 && buffer.Length == size + 1 && size <= MAX_SIZE && last < size && |data| <= size
      modifies this`last, buffer
      ensures buffer[..size] == Stored(old(buffer[..size]), old(last), data)
      ensures last == Slot(old(last), |data|, size)
    {
      if Wrap16(|data| + last) < size {
        StoredOnce(buffer[..], size, last, data);
        CopyIn(buffer, last, data);
        last := last + |data|;
      } else {
        var firstLen := size - last;
        StoredTwice(buffer[..], size, last, data);
        CopyIn(buffer, last, data[..firstLen]);
        CopyIn(buffer, 0, data[firstLen..]);
        last := |data| - firstLen;
      }
    }

    /** The copies of recv: the oldest bytes, as many as asked for, into the user's buffer. */
    method Take(userBuf: array<Byte>, userLen: U16) returns (n: U16)
      requires Valid() && userLen <= userBuf.Length && userBuf != buffer
      modifies this`first, this`entries, userBuf
      ensures Valid()
      ensures n == Min(userLen, |old(Contents())|)
      ensures Contents() == old(Contents())[n..]
      ensures userBuf[..] == old(Contents())[..n] + old(userBuf[n..])
    {
      n := userLen;
      if entries < n { n := entries; }
      if n == 0 { return; }
      hide Cyclic, Slot, Pieces;
      CyclicDrop(buffer[..size], first, entries, n);
      CyclicPieces(buffer[..size], first, entries, n);
      ghost var was := Contents();
      Load(userBuf, n);
      assert userBuf[..] == was[..n] + old(userBuf[n..]);
      entries := entries - n;
      assert Contents() == was[n..];
    }

    /** The one or two copies out of the ring. */
    method Load(userBuf: array<Byte>, n: U16)
      requires size != 0 && buffer.Length == size + 1 && size <= MAX_SIZE && first < size && n <= size
      requires n <= userBuf.Length && userBuf != buffer
      modifies this`first, userBuf
      ensures first == Slot(old(first), n, size)
      ensures userBuf[..] == Pieces(buffer[..size], old(first), n) + old(userBuf[n..])
    {
      hide Patched;
      ghost var a, u := buffer[..size], userBuf[..];
      if Wrap16(n + first) < size {
        LoadedOnce(u, buffer[first..first + n]);
        assert a[first..first + n] == buffer[first..first + n];
        CopyIn(userBuf, 0, buffer[first..first + n]);
        first := first + n;
      } else {
        LoadAround(userBuf, n);
      }
    }

    /** The bytes wanted run past the end of the ring: two copies. */
    method LoadAround(userBuf: array<Byte>, n: U16)
      requires size != 0 && buffer.Length == size + 1 && size <= MAX_SIZE && first < size && n <= size <= n + first
      requires n <= userBuf.Length && userBuf != buffer
      modifies this`first, userBuf
      ensures first == Slot(old(first), n, size)
      ensures userBuf[..] == Pieces(buffer[..size], old(first), n) + old(userBuf[n..])
    {
      hide Patched;
      ghost var a, u := buffer[..size], userBuf[..];
      var firstLen := size - first;
      LoadedTwice(u, buffer[first..size], buffer[..n - firstLen]);
      assert a[first..] == buffer[first..size] && a[..n - firstLen] == buffer[..n - firstLen];
      CopyIn(userBuf, 0, buffer[first..size]);
      CopyIn(userBuf, firstLen, buffer[..n - firstLen]);
      first := n - firstLen;
    }
  }
}
