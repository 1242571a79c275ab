/**
 * The open-addressing table of code/TCPLIB/UNICODE.CPP.  Its length and hash function are
 * parameters: any length of at least two, any hash into it.
 */
module XlateTables {
  import opened Machine
  import opened Circular

  /** A slot; code point zero marks it empty. */
  datatype Mapping = Mapping(codepoint: U16, display: Byte)

  /** Slots in use. */
  ghost function Used(t: seq<Mapping>): nat {
    if t == [] then 0 else Used(t[..|t| - 1]) + (if t[|t| - 1].codepoint != 0 then 1 else 0)
  }

  lemma {:induction false} UsedUpdate(t: seq<Mapping>, i: nat, m: Mapping)
    requires i < |t|
    ensures Used(t[i := m]) == Used(t) - (if t[i].codepoint != 0 then 1 else 0) + (if m.codepoint != 0 then 1 else 0)
  {
    var n := |t| - 1;
    if i < n {
      UsedUpdate(t[..n], i, m);
      assert t[i := m][..n] == t[..n][i := m];
    } else {
      assert t[i := m][..n] == t[..n];
    }
  }

  /** A table that is not full has an empty slot. */
  lemma {:induction false} EmptySlot(t: seq<Mapping>) returns (i: nat)
    requires Used(t) < |t|
    ensures i < |t| && t[i].codepoint == 0
  {
    var n := |t| - 1;
    if t[n].codepoint == 0 { i := n; } else { i := EmptySlot(t[..n]); }
  }

  lemma {:induction false} NoneUsed(t: seq<Mapping>)
    requires forall i :: 0 <= i < |t| ==> t[i].codepoint == 0
    ensures Used(t) == 0
  {
    if t != [] { NoneUsed(t[..|t| - 1]); }
  }

  /** Every slot is some number of places after any other. */
  lemma Distance(from: nat, to: nat, n: nat) returns (k: nat)
    requires from < n && to < n
    ensures k < n && Slot(from, k, n) == to
  {
    k := if from <= to then to - from else to + n - from;
  }

  /** What has been inserted: the code points shown, and how often code point zero, which only uses up room. */
  datatype Entries = Entries(shown: map<U16, Byte>, blanks: nat) {
    function Count(): nat { |shown| + blanks }
  }

  const NOTHING := Entries(map[], 0)

  /** What inserting does to at most `cap` entries: the first display for a code point stays. */
  function Inserted(e: Entries, cap: int, u: U16, c: Byte): Entries {
    if e.Count() == cap || u in e.shown then e
    else if u == 0 then e.(blanks := e.blanks + 1)
    else e.(shown := e.shown[u := c])
  }

  function Loaded(e: Entries, cap: int, ps: seq<Mapping>): Entries {
    if ps == [] then e
    else
      var before := Loaded(e, cap, ps[..|ps| - 1]);
      var p := ps[|ps| - 1];
      Inserted(before, cap, p.codepoint, p.display)
  }

  /** The first pair for a code point, if there is one. */
  ghost predicate FirstAt(ps: seq<Mapping>, u: U16, i: nat) {
    i < |ps| && ps[i].codepoint == u && forall j :: 0 <= j < i ==> ps[j].codepoint != u
  }

  /** Entries stay as they are. */
  lemma {:induction false} LoadedStays(cap: nat, ps: seq<Mapping>, i: nat, u: U16)
    requires i <= |ps| && u in Loaded(NOTHING, cap, ps[..i]).shown
    ensures u in Loaded(NOTHING, cap, ps).shown
    ensures Loaded(NOTHING, cap, ps).shown[u] == Loaded(NOTHING, cap, ps[..i]).shown[u]
    decreases |ps|
  {
    if i < |ps| {
      assert ps[..|ps| - 1][..i] == ps[..i];
      LoadedStays(cap, ps[..|ps| - 1], i, u);
    } else {
      assert ps[..i] == ps;
    }
  }

  /**
   * A code point but zero is shown exactly if the table still had room when it first came, and then
   * its display is the one that came with it; zero never is.
   */
  lemma {:induction false} FirstWins(cap: nat, ps: seq<Mapping>, u: U16)
    ensures u in Loaded(NOTHING, cap, ps).shown <==>
              u != 0 && exists i: nat :: FirstAt(ps, u, i) && Loaded(NOTHING, cap, ps[..i]).Count() != cap
    ensures forall i: nat :: FirstAt(ps, u, i) && u in Loaded(NOTHING, cap, ps).shown ==>
              Loaded(NOTHING, cap, ps).shown[u] == ps[i].display
  {
    if u == 0 {
      ZeroNotShown(cap, ps);
    } else if i: nat :| FirstAt(ps, u, i) {
      NotOffered(cap, ps[..i], u);
      assert ps[..i + 1][..i] == ps[..i];
      var e := Loaded(NOTHING, cap, ps[..i]);
      assert Loaded(NOTHING, cap, ps[..i + 1]) == Inserted(e, cap, u, ps[i].display);
      if e.Count() != cap {
        LoadedStays(cap, ps, i + 1, u);
      } else {
        FullStays(cap, ps, i);
      }
      forall j: nat | FirstAt(ps, u, j) ensures j == i { }
    } else {
      forall j | 0 <= j < |ps| ensures ps[j].codepoint != u {
        if ps[j].codepoint == u { HasFirst(ps, u, j); }
      }
      NotOffered(cap, ps, u);
    }
  }

  /** Inserting code point zero shows nothing and uses up room each time. */
  lemma {:induction false} ZerosFill(cap: nat, ps: seq<Mapping>)
    requires forall j :: 0 <= j < |ps| ==> ps[j].codepoint == 0
    ensures Loaded(NOTHING, cap, ps).shown == map[] && Loaded(NOTHING, cap, ps).Count() == Min(|ps|, cap)
  {
    if ps != [] { ZerosFill(cap, ps[..|ps| - 1]); }
  }

  /** Each other code point uses up room once. */
  lemma NewUsesOne(e: Entries, cap: int, u: U16, c: Byte)
    requires e.Count() < cap && 0 !in e.shown
    ensures Inserted(e, cap, u, c).Count() == if u != 0 && u in e.shown then e.Count() else e.Count() + 1
    ensures Inserted(e, cap, u, c).Count() == e.Count() + 1 && u != 0 ==> Inserted(e, cap, u, c).shown == e.shown[u := c]
  {
  }

  lemma {:induction false} HasFirst(ps: seq<Mapping>, u: U16, j: nat)
    requires j < |ps| && ps[j].codepoint == u
    ensures exists i: nat :: FirstAt(ps, u, i)
  {
    if i: nat :| i < j && ps[i].codepoint == u { HasFirst(ps, u, i); } else { assert FirstAt(ps, u, j); }
  }

  lemma {:induction false} NotOffered(cap: nat, ps: seq<Mapping>, u: U16)
    requires forall j :: 0 <= j < |ps| ==> ps[j].codepoint != u
    ensures u !in Loaded(NOTHING, cap, ps).shown
  {
    if ps != [] { NotOffered(cap, ps[..|ps| - 1], u); }
  }

  lemma {:induction false} ZeroNotShown(cap: nat, ps: seq<Mapping>)
    ensures 0 !in Loaded(NOTHING, cap, ps).shown
  {
    if ps != [] { ZeroNotShown(cap, ps[..|ps| - 1]); }
  }

  lemma {:induction false} FullStays(cap: nat, ps: seq<Mapping>, i: nat)
    requires i <= |ps| && Loaded(NOTHING, cap, ps[..i]).Count() == cap
    ensures Loaded(NOTHING, cap, ps) == Loaded(NOTHING, cap, ps[..i])
    decreases |ps|
  {
    if i < |ps| {
      assert ps[..|ps| - 1][..i] == ps[..i];
      FullStays(cap, ps[..|ps| - 1], i);
    } else {
      assert ps[..i] == ps;
    }
  }

  class XlateTable {
    const table: array<Mapping>
    const hash: U16 -> nat
    /** The display character for code points that have none. */
    const tofu: Byte
    var items: nat
    /** What has been inserted. */
    ghost var contents: Entries

    /** From a code point's bucket to its slot there is no hole. */
    ghost predicate Reachable(u: U16, k: nat)
      reads table
      requires table.Length >= 2 && hash(u) < table.Length && k <= table.Length
    {
      forall i: nat :: i < k ==> table[Slot(hash(u), i, table.Length)].codepoint != 0
    }

    ghost predicate Stored(u: U16, k: nat)
      reads this, table
      requires table.Length >= 2 && hash(u) < table.Length && k < table.Length
    {
      table[Slot(hash(u), k, table.Length)] == Mapping(u, if u in contents.shown then contents.shown[u] else 0) && Reachable(u, k)
    }

    ghost predicate Valid()
      reads this, table
    {
      && table.Length >= 2 && (forall u: U16 :: hash(u) < table.Length)
      && items == contents.Count() < table.Length && |contents.shown| == Used(table[..]) && 0 !in contents.shown
      && (forall u :: u in contents.shown ==> exists k: nat :: k < table.Length && Stored(u, k))
      && (forall j :: 0 <= j < table.Length && table[j].codepoint != 0 ==>
            table[j].codepoint in contents.shown && contents.shown[table[j].codepoint] == table[j].display)
    }

    constructor (len: nat, hash: U16 -> nat, tofu: Byte)
      requires len >= 2 && forall u: U16 :: hash(u) < len
      ensures Valid() && fresh(table) && table.Length == len && contents == NOTHING
    {
      table := new Mapping[len](_ => Mapping(0, 0));
      this.hash := hash;
      this.tofu := tofu;
      items := 0;
      contents := NOTHING;
      new;
      NoneUsed(table[..]);
    }

    /** The probe loop: `k` places from its bucket is the code point, or the first hole. */
    method Probe(u: U16) returns (bucket: nat, ghost k: nat)
      requires Valid()
      ensures k < table.Length && bucket == Slot(hash(u), k, table.Length)
      ensures table[bucket].codepoint == 0 || table[bucket].codepoint == u
      ensures Reachable(u, k) && forall i: nat :: i < k ==> table[Slot(hash(u), i, table.Length)].codepoint != u
    {
      hide Used, Stored;
      bucket := hash(u);
      k := 0;
      ghost var hole := EmptySlot(table[..]);
      ghost var far := Distance(hash(u), hole, table.Length);
      while table[bucket].codepoint != 0
        invariant k <= far && bucket == Slot(hash(u), k, table.Length)
        invariant Reachable(u, k) && forall i: nat :: i < k ==> table[Slot(hash(u), i, table.Length)].codepoint != u
        decreases far - k
      {
        if table[bucket].codepoint == u { return; }
        bucket := bucket + 1;
        if bucket == table.Length { bucket := 0; }
        k := k + 1;
      }
    }

    /** Where the probe stops says whether the code point is there. */
    lemma ProbeFinds(u: U16, k: nat)
      requires Valid() && k < table.Length && Reachable(u, k)
      requires table[Slot(hash(u), k, table.Length)].codepoint == 0
      requires forall i: nat :: i < k ==> table[Slot(hash(u), i, table.Length)].codepoint != u
      ensures u !in contents.shown
    {
      assert forall j: nat :: j < table.Length && k < j ==> !Stored(u, j);
    }

    /** addToXlateTable */
    method Add(u: U16, c: Byte)
      requires Valid()
      modifies this`items, this`contents, table
      ensures Valid()
      ensures contents == Inserted(old(contents), table.Length - 1, u, c)
    {
      if items == table.Length - 1 { return; }
      var bucket, k := Probe(u);
      if table[bucket].codepoint != 0 { return; }
      ProbeFinds(u, k);
      if u == 0 { FillBlank(c, bucket); } else { Fill(u, c, bucket, k); }
    }

    /** Code point zero takes a hole, which stays a hole. */
    method FillBlank(c: Byte, bucket: nat)
      requires Valid() && bucket < table.Length && table[bucket].codepoint == 0 && items < table.Length - 1
      modifies this`items, this`contents, table
      ensures Valid()
      ensures contents == old(contents).(blanks := old(contents.blanks) + 1)
    {
      hide Slot, Used;
      UsedUpdate(table[..], bucket, Mapping(0, c));
      label before:
      table[bucket] := Mapping(0, c);
      contents := contents.(blanks := contents.blanks + 1);
      items := items + 1;
      assert table[..] == old(table[..])[bucket := Mapping(0, c)];
      forall v | v in contents.shown ensures exists j: nat :: j < table.Length && Stored(v, j) {
        var j: nat :| j < table.Length && old@before(Stored(v, j));
        assert Stored(v, j);
      }
    }

    /** Take the hole at `bucket`, `k` places from the code point's own bucket. */
    method Fill(u: U16, c: Byte, bucket: nat, ghost k: nat)
      requires Valid() && u != 0 && u !in contents.shown && items < table.Length - 1
      requires k < table.Length && bucket == Slot(hash(u), k, table.Length)
      requires table[bucket].codepoint == 0 && Reachable(u, k)
      modifies this`items, this`contents, table
      ensures Valid()
      ensures contents == old(contents).(shown := old(contents.shown)[u := c])
    {
      hide Slot, Used;
      UsedUpdate(table[..], bucket, Mapping(u, c));
      label before:
      table[bucket] := Mapping(u, c);
      contents := contents.(shown := contents.shown[u := c]);
      items := items + 1;
      assert table[..] == old(table[..])[bucket := Mapping(u, c)];
      assert Stored(u, k);
      forall v | v in contents.shown ensures exists j: nat :: j < table.Length && Stored(v, j) {
        if v != u {
          var j: nat :| j < table.Length && old@before(Stored(v, j));
          assert Stored(v, j);
        }
      }
    }

    /** findDisplayChar */
    method Find(u: U16) returns (display: Byte)
      requires Valid()
      ensures display == if u in contents.shown then contents.shown[u] else tofu
    {
      var bucket, k := Probe(u);
      if table[bucket].codepoint != 0 { return table[bucket].display; }
      ProbeFinds(u, k);
      return tofu;
    }

    /** loadXlateTable's insertions, on a fresh table. */
    method Load(ps: seq<Mapping>)
      requires Valid() && contents == NOTHING
      modifies this`items, this`contents, table
      ensures Valid()
      ensures contents == Loaded(NOTHING, table.Length - 1, ps)
    {
      for i := 0 to |ps|
        invariant Valid() && contents == Loaded(NOTHING, table.Length - 1, ps[..i])
      {
        assert ps[..i + 1][..i] == ps[..i];
        Add(ps[i].codepoint, ps[i].display);
      }
      assert ps[..|ps|] == ps;
    }
  }
}
