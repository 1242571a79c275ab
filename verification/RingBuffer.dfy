/** Positions in a circular buffer, and what bitwise masking has to do with them. */
module Circular {

  /** The slot `i` places after slot `first` in a ring of `n` slots. */
  function Slot(first: nat, i: nat, n: nat): (s: nat)
    requires first < n && i <= n
    ensures s < n && s == (first + i) % n
  {
    SmallWrap(first, i, n);
    if first + i < n then first + i else first + i - n
  }

  /** The `k` items that start at slot `first`. */
  function Cyclic<T>(a: seq<T>, first: nat, k: nat): (s: seq<T>)
    requires first < |a| && k <= |a|
    ensures |s| == k
  {
    seq(k, i requires 0 <= i < k => a[Slot(first, i, |a|)])
  }

  lemma MulAtLeast(m: int, d: int)
    requires m >= 0
    ensures d >= 1 ==> m * d >= m
    ensures d <= -1 ==> m * d <= -m
  {
  }

  lemma DivMod(x: nat, m: nat)
    requires m > 0
    ensures x == m * (x / m) + x % m && x / m >= 0
  {
  }

  /** Quotient and remainder are the only way to write a number as m * q + r. */
  lemma ModUnique(x: nat, m: nat, q: nat, r: nat)
    requires m > 0 && x == m * q + r && r < m
    ensures x % m == r && x / m == q
  {
    DivMod(x, m);
    assert m * q - m * (x / m) == m * (q - x / m);
    MulAtLeast(m, q - x / m);
  }

  /** Reducing a sum of two reduced numbers takes at most one subtraction. */
  lemma SmallWrap(r: nat, e: nat, n: nat)
    requires r < n && e <= n
    ensures (r + e) % n == if r + e < n then r + e else r + e - n
  {
    if r + e < n { ModUnique(r + e, n, 0, r + e); } else { ModUnique(r + e, n, 1, r + e - n); }
  }

  /** Bitwise and of two naturals. */
  function And(x: nat, y: nat): nat
    decreases x
  {
    if x == 0 then 0
    else 2 * And(x / 2, y / 2) + (if x % 2 == 1 && y % 2 == 1 then 1 else 0)
  }

  function Pow2(k: nat): (p: nat)
    ensures p > 0
  {
    if k == 0 then 1 else 2 * Pow2(k - 1)
  }

  lemma HalfMod(x: nat, m: nat)
    requires m > 0
    ensures x % (2 * m) == 2 * ((x / 2) % m) + x % 2
  {
    var h := x / 2;
    DivMod(h, m);
    assert (2 * m) * (h / m) == 2 * (m * (h / m));
    ModUnique(x, 2 * m, h / m, 2 * (h % m) + x % 2);
  }

  lemma AndOdd(x: nat, m: nat)
    requires m > 0
    ensures And(x, 2 * m - 1) == 2 * And(x / 2, m - 1) + x % 2
  {
    assert (2 * m - 1) / 2 == m - 1 && (2 * m - 1) % 2 == 1;
  }

  lemma {:induction false} AndZero(x: nat)
    ensures And(x, 0) == 0
  {
    if x > 0 { AndZero(x / 2); }
  }

  /** Masking with one less than a power of two is reduction modulo it. */
  lemma {:induction false} MaskIsMod(x: nat, k: nat)
    ensures And(x, Pow2(k) - 1) == x % Pow2(k)
    decreases k
  {
    if k == 0 {
      AndZero(x);
    } else {
      hide And;
      AndOdd(x, Pow2(k - 1));
      MaskIsMod(x / 2, k - 1);
      HalfMod(x, Pow2(k - 1));
    }
  }

  /** The masked increment of RingBuffer is the next slot. */
  lemma MaskedStep(i: nat, k: nat)
    requires i < Pow2(k)
    ensures And(i + 1, Pow2(k) - 1) == Slot(i, 1, Pow2(k))
  {
    MaskIsMod(i + 1, k);
  }

  /** Filling the slot after the last item appends it. */
  lemma CyclicPut<T>(a: seq<T>, first: nat, k: nat, x: T)
    requires first < |a| && k < |a|
    ensures Cyclic(a[Slot(first, k, |a|) := x], first, k + 1) == Cyclic(a, first, k) + [x]
    ensures Slot(Slot(first, k, |a|), 1, |a|) == Slot(first, k + 1, |a|)
  {
  }

  /** Filling the slots after the last item, wherever they lie, appends a block. */
  lemma CyclicPutAll<T>(a: seq<T>, a': seq<T>, first: nat, k: nat, d: seq<T>)
    requires first < |a| == |a'| && k + |d| <= |a|
    requires forall i :: 0 <= i < k ==> a'[Slot(first, i, |a|)] == a[Slot(first, i, |a|)]
    requires forall i :: 0 <= i < |d| ==> a'[Slot(first, k + i, |a|)] == d[i]
    ensures Cyclic(a', first, k + |d|) == Cyclic(a, first, k) + d
  {
    forall i | k <= i < k + |d| ensures a'[Slot(first, i, |a|)] == d[i - k] {
      assert a'[Slot(first, k + (i - k), |a|)] == d[i - k];
    }
  }

  /** The contents of a ring after `d` has been stored from slot `last` on, in two pieces if need be. */
  function Stored<T>(a: seq<T>, last: nat, d: seq<T>): (a': seq<T>)
    requires last < |a| && |d| <= |a|
    ensures |a'| == |a|
  {
    var room := |a| - last;
    if |d| < room then a[..last] + d + a[last + |d|..]
    else d[room..] + a[|d| - room..last] + d[..room]
  }

  lemma CyclicStored<T>(a: seq<T>, first: nat, k: nat, d: seq<T>)
    requires first < |a| && k + |d| <= |a|
    ensures Cyclic(Stored(a, Slot(first, k, |a|), d), first, k + |d|) == Cyclic(a, first, k) + d
    ensures Slot(Slot(first, k, |a|), |d|, |a|) == Slot(first, k + |d|, |a|)
  {
    var a' := Stored(a, Slot(first, k, |a|), d);
    forall i: nat | i < k ensures a'[Slot(first, i, |a|)] == a[Slot(first, i, |a|)] {
    }
    forall i: nat | i < |d| ensures a'[Slot(first, k + i, |a|)] == d[i] {
    }
    CyclicPutAll(a, a', first, k, d);
  }

  /** `n` items from slot `first` on, in two pieces if need be. */
  function Pieces<T>(a: seq<T>, first: nat, n: nat): seq<T>
    requires first < |a| && n <= |a|
  {
    if n < |a| - first then a[first..first + n] else a[first..] + a[..n - (|a| - first)]
  }

  lemma CyclicPieces<T>(a: seq<T>, first: nat, k: nat, n: nat)
    requires first < |a| && n <= k <= |a|
    ensures Cyclic(a, first, k)[..n] == Pieces(a, first, n)
  {
  }

  /** Moving `first` forward drops items from the front. */
  lemma CyclicDrop<T>(a: seq<T>, first: nat, k: nat, j: nat)
    requires first < |a| && j <= k <= |a|
    ensures Cyclic(a, first, k)[j..] == Cyclic(a, Slot(first, j, |a|), k - j)
    ensures Slot(Slot(first, j, |a|), k - j, |a|) == Slot(first, k, |a|)
  {
  }
}

/** The fixed-size FIFO of code/TCPINC/RINGBUF.H, whose indices wrap by masking. */
module RingBuffers {
  import opened Machine
  import opened Circular

  /** `entries` distinguishes a full ring from an empty one; both have first == next. */
  class RingBuffer<T(0)> {
    const logSize: nat
    const ring: array<T>
    var first: nat
    var next: nat
    var entries: nat

    ghost predicate Valid()
      reads this
    {
      && ring.Length == Pow2(logSize)
      && first < ring.Length && entries <= ring.Length
      && next == Slot(first, entries, ring.Length)
    }

    /** The queued items, oldest first. */
    ghost function Contents(): (s: seq<T>)
      reads this, ring
      requires Valid()
      ensures |s| == entries
    {
      Cyclic(ring[..], first, entries)
    }

    constructor (logSize: nat)
      ensures Valid() && fresh(ring) && ring.Length == Pow2(logSize) && Contents() == []
    {
      this.logSize := logSize;
      ring := new T[Pow2(logSize)];
      first, next, entries := 0, 0, 0;
    }

    method HasRoom() returns (room: bool)
      requires Valid()
      ensures room <==> |Contents()| < ring.Length
    {
      room := entries < ring.Length;
    }

    method Enqueue(item: T) returns (rc: int)
      requires Valid()
      modifies this, ring
      ensures Valid()
      ensures |old(Contents())| == ring.Length ==> rc == -1 && Contents() == old(Contents())
      ensures |old(Contents())| < ring.Length ==> rc == 0 && Contents() == old(Contents()) + [item]
    {
      if entries == ring.Length { return -1; }
      CyclicPut(ring[..], first, entries, item);
      MaskedStep(next, logSize);
      ring[next] := item;
      next := next + 1;
      next := And(next, ring.Length - 1);
      entries := entries + 1;
      return 0;
    }

    /** None stands for the NULL of an empty ring. */
    method Dequeue() returns (item: Option<T>)
      requires Valid()
      modifies this
      ensures Valid()
      ensures old(Contents()) == [] ==> item == None && Contents() == []
      ensures old(Contents()) != [] ==> item == Some(old(Contents()[0])) && Contents() == old(Contents()[1..])
    {
      if entries == 0 { return None; }
      CyclicDrop(ring[..], first, entries, 1);
      MaskedStep(first, logSize);
      var i := first;
      first := first + 1;
      first := And(first, ring.Length - 1);
      entries := entries - 1;
      return Some(ring[i]);
    }

    method Peek() returns (item: Option<T>)
      requires Valid()
      ensures item == if Contents() == [] then None else Some(Contents()[0])
    {
      if entries == 0 { return None; }
      return Some(ring[first]);
    }
  }
}
