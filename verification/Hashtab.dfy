/**
 The symbol hash table (src/hashtab.c): chains sorted by key, and a resize before every
 insertion that relinks all nodes under the new hash.
 */
module Hashtab {
  import opened Prelude

  const UINT_MAX: nat := 0xFFFF_FFFF
  const WORD: nat := 0x1_0000_0000

  datatype Status = Inserted | Full | Exists | Missing | Removed

  datatype Entry<K, V> = Entry(key: K, datum: V)

  type Cmp<!K> = (K, K) -> int
  type Hash<!K> = (K, nat) -> nat

  /** The comparison is a total order that tells all keys apart. */
  ghost predicate TotalOrder<K(!new)>(cmp: Cmp<K>) {
    && (forall a, b :: cmp(a, b) == 0 <==> a == b)
    && (forall a, b :: cmp(a, b) > 0 <==> cmp(b, a) < 0)
    && forall a, b, c :: cmp(a, b) < 0 && cmp(b, c) < 0 ==> cmp(a, c) < 0
  }

  function Slot<K(!new)>(hash: Hash<K>, size: nat, key: K): (i: nat)
    requires size > 0
    ensures i < size
  {
    hash(key, size) % size
  }

  ghost predicate Ascending<K(!new), V(!new)>(cmp: Cmp<K>, chain: seq<Entry<K, V>>) {
    forall j, k :: 0 <= j < k < |chain| ==> cmp(chain[j].key, chain[k].key) < 0
  }

  ghost predicate ChainOk<K(!new), V(!new)>(cmp: Cmp<K>, hash: Hash<K>, size: nat, i: nat, chain: seq<Entry<K, V>>)
    requires size > 0
  {
    Ascending(cmp, chain) && forall j :: 0 <= j < |chain| ==> Slot(hash, size, chain[j].key) == i
  }

  /** Every chain is sorted and holds only keys of its slot. */
  ghost predicate Placed<K(!new), V(!new)>(cmp: Cmp<K>, hash: Hash<K>, table: seq<seq<Entry<K, V>>>) {
    forall i :: 0 <= i < |table| ==> ChainOk(cmp, hash, |table|, i, table[i])
  }

  ghost predicate Linked<K(!new), V(!new)>(table: seq<seq<Entry<K, V>>>, e: Entry<K, V>) {
    exists i :: 0 <= i < |table| && e in table[i]
  }

  function Count<K, V>(table: seq<seq<Entry<K, V>>>): nat {
    if table == [] then 0 else Count(table[..|table| - 1]) + |table[|table| - 1]|
  }

  lemma {:induction false} CountUpdate<K, V>(table: seq<seq<Entry<K, V>>>, i: nat, chain: seq<Entry<K, V>>)
    requires i < |table|
    ensures Count(table[i := chain]) == Count(table) - |table[i]| + |chain|
  {
    var n := |table| - 1;
    if i == n {
      assert table[i := chain][..n] == table[..n];
    } else {
      assert table[i := chain][..n] == table[..n][i := chain];
      CountUpdate(table[..n], i, chain);
    }
  }

  lemma {:induction false} CountEmpty<K, V>(table: seq<seq<Entry<K, V>>>)
    requires forall i :: 0 <= i < |table| ==> table[i] == []
    ensures Count(table) == 0
  {
    if table != [] { CountEmpty(table[..|table| - 1]); }
  }

  /** A linked entry is in the chain of its key's slot. */
  lemma InSlot<K(!new), V(!new)>(cmp: Cmp<K>, hash: Hash<K>, table: seq<seq<Entry<K, V>>>, e: Entry<K, V>)
    requires Placed(cmp, hash, table) && Linked(table, e)
    ensures |table| > 0 && e in table[Slot(hash, |table|, e.key)]
  {
    var i :| 0 <= i < |table| && e in table[i];
    var j :| 0 <= j < |table[i]| && table[i][j] == e;
    assert ChainOk(cmp, hash, |table|, i, table[i]);
    assert Slot(hash, |table|, table[i][j].key) == i;
  }

  /** Entries with one key are one entry. */
  lemma KeyUnique<K(!new), V(!new)>(cmp: Cmp<K>, hash: Hash<K>, table: seq<seq<Entry<K, V>>>, e: Entry<K, V>, f: Entry<K, V>)
    requires TotalOrder(cmp) && Placed(cmp, hash, table) && Linked(table, e) && Linked(table, f) && e.key == f.key
    ensures e == f
  {
    InSlot(cmp, hash, table, e);
    InSlot(cmp, hash, table, f);
    var i := Slot(hash, |table|, e.key);
    assert ChainOk(cmp, hash, |table|, i, table[i]);
    var j :| 0 <= j < |table[i]| && table[i][j] == e;
    var k :| 0 <= k < |table[i]| && table[i][k] == f;
    hide Slot, Placed, Linked;
    assert cmp(e.key, f.key) == 0;
    assert cmp(f.key, e.key) == 0;
    assert j < k ==> cmp(e.key, f.key) < 0;
    assert k < j ==> cmp(f.key, e.key) < 0;
  }

  /** What a key is bound to. */
  ghost predicate Binds<K(!new), V(!new)>(table: seq<seq<Entry<K, V>>>, key: K, datum: V) {
    Linked(table, Entry(key, datum))
  }

  ghost predicate Bound<K(!new), V(!new)>(table: seq<seq<Entry<K, V>>>, key: K) {
    exists e :: Linked(table, e) && e.key == key
  }

  /** Both tables hold the same entries. */
  ghost predicate SameEntries<K(!new), V(!new)>(a: seq<seq<Entry<K, V>>>, b: seq<seq<Entry<K, V>>>) {
    forall e :: Linked(a, e) <==> Linked(b, e)
  }

  // ---------------------------------------------------------------- putting an entry in its place

  /** The place of a key in a chain: after every smaller one. */
  ghost predicate PlaceIn<K(!new), V(!new)>(cmp: Cmp<K>, chain: seq<Entry<K, V>>, key: K, j: nat) {
    && j <= |chain|
    && (forall k :: 0 <= k < j ==> cmp(key, chain[k].key) > 0)
    && (j < |chain| ==> cmp(key, chain[j].key) <= 0)
  }

  lemma InsertAscending<K(!new), V(!new)>(cmp: Cmp<K>, chain: seq<Entry<K, V>>, e: Entry<K, V>, j: nat)
    requires TotalOrder(cmp) && Ascending(cmp, chain) && PlaceIn(cmp, chain, e.key, j)
    requires j < |chain| ==> chain[j].key != e.key
    ensures Ascending(cmp, InsertAt(chain, j, e))
  {
    var c := InsertAt(chain, j, e);
    forall k | 0 <= k < j ensures cmp(chain[k].key, e.key) < 0 { assert cmp(e.key, chain[k].key) > 0; }
    forall k | j <= k < |chain| ensures cmp(e.key, chain[k].key) < 0 {
      if k > j { assert cmp(chain[j].key, chain[k].key) < 0; }
    }
    hide TotalOrder;
    forall a, b | 0 <= a < b < |c| ensures cmp(c[a].key, c[b].key) < 0 { }
  }

  lemma RemoveAscending<K(!new), V(!new)>(cmp: Cmp<K>, chain: seq<Entry<K, V>>, j: nat)
    requires Ascending(cmp, chain) && j < |chain|
    ensures Ascending(cmp, RemoveAt(chain, j))
  {
    var c := RemoveAt(chain, j);
    forall a, b | 0 <= a < b < |c| ensures cmp(c[a].key, c[b].key) < 0 {
      assert c[a] == chain[if a < j then a else a + 1] && c[b] == chain[if b < j then b else b + 1];
    }
  }

  /** Linking a new key in its place keeps the table in order and adds exactly that entry. */
  lemma LinkOne<K(!new), V(!new)>(cmp: Cmp<K>, hash: Hash<K>, table: seq<seq<Entry<K, V>>>, e: Entry<K, V>, j: nat)
    requires TotalOrder(cmp) && Placed(cmp, hash, table) && |table| > 0 && !Bound(table, e.key)
    requires PlaceIn(cmp, table[Slot(hash, |table|, e.key)], e.key, j)
    ensures var i := Slot(hash, |table|, e.key);
      var after := table[i := InsertAt(table[i], j, e)];
      && Placed(cmp, hash, after) && Count(after) == Count(table) + 1
      && forall f :: Linked(after, f) <==> Linked(table, f) || f == e
  {
    hide Ascending, TotalOrder, ChainOk, Slot, Count, Placed, Bound, Linked;
    var i := Slot(hash, |table|, e.key);
    var chain := table[i];
    CountUpdate(table, i, InsertAt(chain, j, e));
    ChainOf(cmp, hash, table, i, e.key);
    InsertAscending(cmp, chain, e, j);
    ChainInserted(cmp, hash, |table|, i, chain, e, j);
    ChainReplaced(cmp, hash, table, i, InsertAt(chain, j, e));
    EntryLinked(table, i, InsertAt(chain, j, e), e);
    var after := table[i := InsertAt(chain, j, e)];
    assert Placed(cmp, hash, after);
    assert Count(after) == Count(table) + 1;
    assert forall f :: Linked(after, f) <==> Linked(table, f) || f == e;
  }

  /** A chain is sorted, and does not hold a key that is not bound. */
  lemma ChainOf<K(!new), V(!new)>(cmp: Cmp<K>, hash: Hash<K>, table: seq<seq<Entry<K, V>>>, i: nat, key: K)
    requires Placed(cmp, hash, table) && i < |table| && !Bound(table, key)
    ensures ChainOk(cmp, hash, |table|, i, table[i]) && Ascending(cmp, table[i])
    ensures forall j :: 0 <= j < |table[i]| ==> table[i][j].key != key
  {
    hide Ascending, Slot;
    forall j | 0 <= j < |table[i]| ensures table[i][j].key != key { assert Linked(table, table[i][j]); }
    assert ChainOk(cmp, hash, |table|, i, table[i]);
  }

  lemma ChainReplaced<K(!new), V(!new)>(cmp: Cmp<K>, hash: Hash<K>, table: seq<seq<Entry<K, V>>>, i: nat, chain: seq<Entry<K, V>>)
    requires Placed(cmp, hash, table) && i < |table| && ChainOk(cmp, hash, |table|, i, chain)
    ensures Placed(cmp, hash, table[i := chain])
  {
    hide ChainOk;
  }

  lemma EntryLinked<K(!new), V(!new)>(table: seq<seq<Entry<K, V>>>, i: nat, chain: seq<Entry<K, V>>, e: Entry<K, V>)
    requires i < |table| && forall f :: f in chain <==> f in table[i] || f == e
    ensures forall f :: Linked(table[i := chain], f) <==> Linked(table, f) || f == e
  {
    var after := table[i := chain];
    forall f ensures Linked(after, f) <==> Linked(table, f) || f == e {
      if Linked(after, f) { var k :| 0 <= k < |after| && f in after[k]; assert k == i || f in table[k]; }
      if Linked(table, f) { var k :| 0 <= k < |table| && f in table[k]; assert f in after[k]; }
      if f == e { assert e in after[i]; }
    }
  }

  lemma ChainInserted<K(!new), V(!new)>(cmp: Cmp<K>, hash: Hash<K>, size: nat, i: nat, chain: seq<Entry<K, V>>, e: Entry<K, V>, j: nat)
    requires size > 0 && ChainOk(cmp, hash, size, i, chain) && j <= |chain| && Slot(hash, size, e.key) == i
    requires Ascending(cmp, InsertAt(chain, j, e))
    ensures ChainOk(cmp, hash, size, i, InsertAt(chain, j, e))
  {
    hide Slot, Ascending;
  }

  // ---------------------------------------------------------------- the number of slots

  /** Doubling a 32-bit size until it exceeds the count or would wrap to zero. */
  function Doubled(size: nat, nel: nat, steps: nat): nat
    decreases steps
  {
    if steps == 0 || size > nel || size * 2 % WORD == 0 then size else Doubled(size * 2 % WORD, nel, steps - 1)
  }

  /** Up to 2^31 entries nothing wraps: the size is doubled until it first exceeds their number. */
  lemma {:induction false} DoubledFirst(size: nat, nel: nat, steps: nat)
    requires 0 < size && nel < 0x8000_0000 && nel < size * Pow2(steps)
    ensures size > nel ==> Doubled(size, nel, steps) == size
    ensures size <= nel ==> nel < Doubled(size, nel, steps) <= 2 * nel
    ensures exists k: nat :: Doubled(size, nel, steps) == size * Pow2(k)
    decreases steps
  {
    Powers(size, steps);
    hide Doubled, Pow2;
    DoubledOnce(size, nel, steps);
    if size <= nel {
      DoubledFirst(size * 2, nel, steps - 1);
      var k: nat :| Doubled(size * 2, nel, steps - 1) == size * 2 * Pow2(k);
      Powers(size, k + 1);
    }
  }

  lemma DoubledOnce(size: nat, nel: nat, steps: nat)
    requires 0 < size && nel < 0x8000_0000
    ensures size > nel ==> Doubled(size, nel, steps) == size
    ensures size <= nel && steps > 0 ==> Doubled(size, nel, steps) == Doubled(size * 2, nel, steps - 1)
  {
    if size <= nel { NoWrap(size); }
  }

  lemma NoWrap(size: nat)
    requires size < 0x8000_0000
    ensures size * 2 % WORD == size * 2
  {
  }

  lemma Powers(size: nat, k: nat)
    ensures size == size * Pow2(0)
    ensures k > 0 ==> size * Pow2(k) == size * 2 * Pow2(k - 1)
    ensures k == 0 ==> size * Pow2(k) == size
  {
  }

  lemma FirstSize(size: nat, nel: nat)
    requires size > 0
    ensures size > nel ==> Doubled(size, nel, 32) == size
    ensures size <= nel < 0x8000_0000 ==> nel < Doubled(size, nel, 32) <= 2 * nel
    ensures nel < 0x8000_0000 ==> exists k: nat :: Doubled(size, nel, 32) == size * Pow2(k)
  {
    if nel < 0x8000_0000 {
      Pow32();
      assert nel < size * WORD;
      DoubledFirst(size, nel, 32);
    }
  }

  /** How often two divides a number. */
  function Twos(n: nat): nat
    requires n > 0
  {
    if n % 2 == 1 then 0 else 1 + Twos(n / 2)
  }

  lemma {:induction false} TwosBelow(n: nat, k: nat)
    requires 0 < n < Pow2(k)
    ensures Twos(n) < k
    decreases n
  {
    if n % 2 == 0 { TwosBelow(n / 2, k - 1); }
  }

  /** Taking off the top bit leaves the trailing zeros. */
  lemma {:induction false} TwosWrap(n: nat, k: nat)
    requires Pow2(k) < n < Pow2(k + 1)
    ensures Twos(n - Pow2(k)) == Twos(n)
    decreases k
  {
    if k > 0 {
      assert Pow2(k) == 2 * Pow2(k - 1);
      if n % 2 == 0 {
        assert (n - Pow2(k)) / 2 == n / 2 - Pow2(k - 1);
        TwosWrap(n / 2, k - 1);
      }
    }
  }

  lemma Pow32()
    ensures Pow2(31) == 0x8000_0000 && Pow2(32) == WORD
  {
    assert Pow2(8) == 0x100;
    assert Pow2(16) == 0x1_0000;
    assert Pow2(24) == 0x100_0000;
    assert Pow2(31) == 0x8000_0000;
  }

  /** Each doubling adds a trailing zero, wrapped or not. */
  lemma DoublingTwos(n: nat)
    requires 0 < n < WORD && n * 2 % WORD != 0
    ensures Twos(n * 2 % WORD) == Twos(n) + 1 && Twos(n) < 32
  {
    Pow32();
    TwosBelow(n, 32);
    if n < 0x8000_0000 {
      assert n * 2 % WORD == n * 2;
    } else {
      assert n * 2 % WORD == 2 * (n - 0x8000_0000);
      TwosWrap(n, 31);
    }
  }

  class Hashtab<K(==, !new), V(!new)> {
    const cmp: Cmp<K>
    const hash: Hash<K>
    var htable: seq<seq<Entry<K, V>>>
    var size: nat
    var nel: nat

    ghost predicate Valid()
      reads this
    {
      && TotalOrder(cmp) && 0 < size == |htable| && size < WORD
      && Placed(cmp, hash, htable) && nel == Count(htable) && nel <= UINT_MAX
    }

    constructor (hash: Hash<K>, cmp: Cmp<K>, size: nat)
      requires TotalOrder(cmp) && 0 < size < WORD
      ensures Valid() && this.cmp == cmp && this.hash == hash && this.size == size && nel == 0
      ensures forall e :: !Linked(htable, e)
    {
      this.cmp, this.hash, this.size := cmp, hash, size;
      nel := 0;
      htable := seq(size, i => []);
      new;
      CountEmpty(htable);
    }

    /** The position a walk stops at: the end, an equal key, or the first larger one. */
    method Walk(key: K, chain: seq<Entry<K, V>>) returns (j: nat)
      requires TotalOrder(cmp) && Ascending(cmp, chain)
      ensures PlaceIn(cmp, chain, key, j)
      ensures j < |chain| && cmp(key, chain[j].key) == 0 ==> chain[j].key == key
      ensures !(j < |chain| && chain[j].key == key) ==> forall e :: e in chain ==> e.key != key
    {
      j := 0;
      while j < |chain| && cmp(key, chain[j].key) > 0
        invariant j <= |chain| && forall k :: 0 <= k < j ==> cmp(key, chain[k].key) > 0
      {
        j := j + 1;
      }
      forall k | 0 <= k < |chain| && k != j ensures chain[k].key != key {
        assert cmp(key, key) == 0;
        if k > j { assert cmp(chain[j].key, chain[k].key) < 0; }
      }
    }

    /** Moves one entry of the old table into its place in the new one. */
    method Relink(table: seq<seq<Entry<K, V>>>, e: Entry<K, V>) returns (after: seq<seq<Entry<K, V>>>)
      requires TotalOrder(cmp) && |table| > 0 && Placed(cmp, hash, table) && !Bound(table, e.key)
      ensures |after| == |table| && Placed(cmp, hash, after) && Count(after) == Count(table) + 1
      ensures forall f :: Linked(after, f) <==> Linked(table, f) || f == e
    {
      hide *;
      var i := Slot(hash, |table|, e.key);
      ChainOf(table, i);
      var j := Walk(e.key, table[i]);
      PlaceBound(table[i], e.key, j);
      LinkOne(cmp, hash, table, e, j);
      after := table[i := InsertAt(table[i], j, e)];
    }

    lemma ChainOf(table: seq<seq<Entry<K, V>>>, i: nat)
      requires |table| > 0 && Placed(cmp, hash, table) && i < |table|
      ensures Ascending(cmp, table[i]) && ChainOk(cmp, hash, |table|, i, table[i])
    {
    }

    lemma PlaceBound(chain: seq<Entry<K, V>>, key: K, j: nat)
      requires PlaceIn(cmp, chain, key, j)
      ensures j <= |chain|
    {
    }

    /** Relinked: the entries of the first slots, and of the first places of the next. */
    ghost predicate Moved(old_: seq<seq<Entry<K, V>>>, table: seq<seq<Entry<K, V>>>, i: nat, j: nat)
      requires i < |old_| ==> j <= |old_[i]|
    {
      && |table| > 0 && Placed(cmp, hash, table)
      && Count(table) == Count(old_[..Min(i, |old_|)]) + (if i < |old_| then j else 0)
      && forall e :: Linked(table, e) <==> Linked(old_[..Min(i, |old_|)], e) || (i < |old_| && e in old_[i][..j])
    }

    lemma MoveStart(old_: seq<seq<Entry<K, V>>>, table: seq<seq<Entry<K, V>>>)
      requires |table| > 0 && forall i :: 0 <= i < |table| ==> table[i] == []
      ensures Moved(old_, table, 0, 0)
    {
      CountEmpty(table);
      assert old_[..0] == [];
    }

    lemma MoveRow(old_: seq<seq<Entry<K, V>>>, table: seq<seq<Entry<K, V>>>, i: nat)
      requires i < |old_| && Moved(old_, table, i, |old_[i]|)
      ensures Moved(old_, table, i + 1, 0)
    {
      var a, b := old_[..i], old_[..i + 1];
      assert b[..i] == a && b[i] == old_[i];
      assert old_[i][..|old_[i]|] == old_[i];
      hide Placed;
      forall e ensures Linked(b, e) <==> Linked(a, e) || e in old_[i] {
        if Linked(b, e) { var k :| 0 <= k < |b| && e in b[k]; assert k < i ==> e in a[k]; }
        if Linked(a, e) { var k :| 0 <= k < |a| && e in a[k]; assert e in b[k]; }
        if e in old_[i] { assert e in b[i]; }
      }
      hide Linked;
    }

    /** The next entry's key has not been moved yet. */
    lemma NextUnbound(old_: seq<seq<Entry<K, V>>>, table: seq<seq<Entry<K, V>>>, i: nat, j: nat)
      requires TotalOrder(cmp) && Placed(cmp, hash, old_) && i < |old_| && j < |old_[i]| && Moved(old_, table, i, j)
      ensures !Bound(table, old_[i][j].key)
    {
      var e := old_[i][j];
      assert ChainOk(cmp, hash, |old_|, i, old_[i]);
      hide Moved, Slot, TotalOrder;
      EarlierEntries(old_, table, i, j);
      forall f | Linked(table, f) ensures f.key != e.key {
        if f in old_[i][..j] {
          var k :| 0 <= k < j && old_[i][k] == f;
          assert cmp(f.key, e.key) < 0;
          NotSelf(e.key);
        } else {
          var k :| 0 <= k < i && f in old_[k];
          var m :| 0 <= m < |old_[k]| && old_[k][m] == f;
          assert ChainOk(cmp, hash, |old_|, k, old_[k]);
        }
      }
    }

    lemma NotSelf(key: K)
      requires TotalOrder(cmp)
      ensures cmp(key, key) == 0
    {
    }

    lemma EarlierEntries(old_: seq<seq<Entry<K, V>>>, table: seq<seq<Entry<K, V>>>, i: nat, j: nat)
      requires i < |old_| && j < |old_[i]| && Moved(old_, table, i, j)
      ensures forall f :: Linked(table, f) ==> f in old_[i][..j] || exists k :: 0 <= k < i && f in old_[k]
    {
      hide Placed;
      forall f | Linked(old_[..i], f) ensures exists k :: 0 <= k < i && f in old_[k] {
        var k :| 0 <= k < |old_[..i]| && f in old_[..i][k];
        assert f in old_[k];
      }
    }

    lemma MoveOne(old_: seq<seq<Entry<K, V>>>, table: seq<seq<Entry<K, V>>>, after: seq<seq<Entry<K, V>>>, i: nat, j: nat)
      requires i < |old_| && j < |old_[i]| && Moved(old_, table, i, j)
      requires |after| == |table| && Placed(cmp, hash, after) && Count(after) == Count(table) + 1
      requires forall f :: Linked(after, f) <==> Linked(table, f) || f == old_[i][j]
      ensures Moved(old_, after, i, j + 1)
    {
      hide Placed, Linked, Count;
      var a, b := old_[i][..j], old_[i][..j + 1];
      assert b == a + [old_[i][j]];
    }

    lemma MovedAll(old_: seq<seq<Entry<K, V>>>, table: seq<seq<Entry<K, V>>>)
      requires Moved(old_, table, |old_|, 0)
      ensures Placed(cmp, hash, table) && Count(table) == Count(old_) && SameEntries(old_, table)
    {
      assert old_[..|old_|] == old_;
      hide Placed, Linked, Count;
    }

    /** Grows the table before it is full; every binding stays, under the new hash. */
    method CheckResize()
      requires Valid()
      modifies this
      ensures Valid() && nel == old(nel) && SameEntries(old(htable), htable)
      ensures size == Doubled(old(size), nel, 32) && (size > nel || size * 2 % WORD == 0)
      ensures old(size) > nel ==> size == old(size)
      ensures old(size) <= nel < 0x8000_0000 ==> nel < size <= 2 * nel && exists k: nat :: size == old(size) * Pow2(k)
    {
      var newSize := NewSize();
      if size == newSize { SameTable(htable); return; }
      MoveAll(newSize);
    }

    lemma SameTable(table: seq<seq<Entry<K, V>>>)
      ensures SameEntries(table, table)
    {
    }

    /** The doubling loop; it stops before the 32-bit size would wrap to zero. */
    method NewSize() returns (newSize: nat)
      requires 0 < size < WORD
      ensures 0 < newSize < WORD && newSize == Doubled(size, nel, 32)
      ensures newSize > nel || newSize * 2 % WORD == 0
      ensures size > nel ==> newSize == size
      ensures size <= nel < 0x8000_0000 ==> nel < newSize <= 2 * nel && exists k: nat :: newSize == size * Pow2(k)
    {
      FirstSize(size, nel);
      ghost var steps: nat := 32;
      newSize := size;
      while newSize <= nel && newSize * 2 % WORD != 0
        invariant 0 < newSize < WORD && steps <= 32 && Twos(newSize) + steps >= 32
        invariant Doubled(size, nel, 32) == Doubled(newSize, nel, steps)
        decreases steps
      {
        DoublingTwos(newSize);
        newSize := newSize * 2 % WORD;
        steps := steps - 1;
      }
    }

    method MoveAll(newSize: nat)
      requires Valid() && 0 < newSize < WORD
      modifies this
      ensures Valid() && nel == old(nel) && size == newSize && SameEntries(old(htable), htable)
    {
      ghost var was := htable;
      var newTable: seq<seq<Entry<K, V>>> := seq(newSize, i => []);
      var oldSize := size;
      size := newSize;
      hide Placed, Count, Linked, TotalOrder, Moved;
      MoveStart(was, newTable);
      for i := 0 to oldSize
        invariant htable == was && size == newSize == |newTable| && nel == old(nel) && Moved(was, newTable, i, 0)
      {
        for j := 0 to |htable[i]|
          invariant htable == was && size == newSize == |newTable| && nel == old(nel) && Moved(was, newTable, i, j)
        {
          ghost var before := newTable;
          MovedParts(was, newTable, i, j);
          NextUnbound(was, newTable, i, j);
          newTable := Relink(newTable, htable[i][j]);
          MoveOne(was, before, newTable, i, j);
        }
        MoveRow(was, newTable, i);
      }
      MovedAll(was, newTable);
      htable := newTable;
    }

    lemma MovedParts(old_: seq<seq<Entry<K, V>>>, table: seq<seq<Entry<K, V>>>, i: nat, j: nat)
      requires i < |old_| && j < |old_[i]| && Moved(old_, table, i, j)
      ensures |table| > 0 && Placed(cmp, hash, table)
    {
    }

    method Insert(key: K, datum: V) returns (rc: Status)
      requires Valid()
      modifies this
      ensures Valid()
      ensures rc == Full <==> old(nel) == UINT_MAX
      ensures rc == Exists <==> old(nel) != UINT_MAX && old(Bound(htable, key))
      ensures rc == Full || rc == Exists || rc == Inserted
      ensures rc != Inserted ==> nel == old(nel) && SameEntries(old(htable), htable)
      ensures rc == Inserted ==> nel == old(nel) + 1
      ensures rc == Inserted ==> forall e :: Linked(htable, e) <==> Linked(old(htable), e) || e == Entry(key, datum)
    {
      hide *;
      ghost var was := htable;
      SameBound(was, htable, key);
      if nel == UINT_MAX { SameTable(was); return Full; }
      CheckResize();
      SameBound(was, htable, key);
      rc := InsertSized(key, datum);
      InsertedEntries(was, old(htable));
    }

    lemma SameBound(a: seq<seq<Entry<K, V>>>, b: seq<seq<Entry<K, V>>>, key: K)
      ensures SameEntries(a, b) ==> (Bound(a, key) <==> Bound(b, key))
    {
      hide Linked;
    }

    /** The insertion proper, into a table of the right size. */
    method InsertSized(key: K, datum: V) returns (rc: Status)
      requires Valid() && nel < UINT_MAX
      modifies this
      ensures Valid()
      ensures rc == Exists <==> Bound(old(htable), key)
      ensures rc == Exists || rc == Inserted
      ensures rc != Inserted ==> nel == old(nel) && htable == old(htable)
      ensures rc == Inserted ==> nel == old(nel) + 1
      ensures rc == Inserted ==> forall e :: Linked(htable, e) <==> Linked(old(htable), e) || e == Entry(key, datum)
    {
      hide Placed, Count, Linked, TotalOrder, Bound, SameEntries, Ascending, ChainOk, Slot;
      var hvalue := Slot(hash, size, key);
      ChainOf(htable, hvalue);
      var j := Walk(key, htable[hvalue]);
      PlaceBound(htable[hvalue], key, j);
      ChainBound(key, j);
      if j < |htable[hvalue]| && cmp(key, htable[hvalue][j].key) == 0 { return Exists; }
      LinkOne(cmp, hash, htable, Entry(key, datum), j);
      htable := htable[hvalue := InsertAt(htable[hvalue], j, Entry(key, datum))];
      nel := nel + 1;
      rc := Inserted;
    }

    lemma InsertedEntries(a: seq<seq<Entry<K, V>>>, b: seq<seq<Entry<K, V>>>)
      requires SameEntries(a, b)
      ensures forall e :: Linked(a, e) <==> Linked(b, e)
    {
    }

    /** The walk decides whether a key is bound, and where. */
    lemma ChainBound(key: K, j: nat)
      requires Valid() && PlaceIn(cmp, htable[Slot(hash, size, key)], key, j)
      ensures var chain := htable[Slot(hash, size, key)];
        && (Bound(htable, key) <==> j < |chain| && cmp(key, chain[j].key) == 0)
        && (Bound(htable, key) ==> chain[j].key == key && Linked(htable, chain[j]))
    {
      var i := Slot(hash, size, key);
      var chain := htable[i];
      assert ChainOk(cmp, hash, size, i, chain);
      if j < |chain| && cmp(key, chain[j].key) == 0 {
        assert chain[j] in htable[i];
        assert Linked(htable, chain[j]);
      }
      if Bound(htable, key) {
        var e :| Linked(htable, e) && e.key == key;
        InSlot(cmp, hash, htable, e);
        var k :| 0 <= k < |chain| && chain[k] == e;
        assert cmp(key, key) == 0;
        assert k > j ==> cmp(chain[j].key, chain[k].key) < 0;
      }
    }

    method Search(key: K) returns (datum: Option<V>)
      requires Valid()
      ensures datum.Some? ==> Binds(htable, key, datum.value)
      ensures datum.None? <==> !Bound(htable, key)
    {
      hide Placed, Count, Linked, TotalOrder, Bound;
      var hvalue := Slot(hash, size, key);
      ChainOf(htable, hvalue);
      var j := Walk(key, htable[hvalue]);
      PlaceBound(htable[hvalue], key, j);
      ChainBound(key, j);
      if j < |htable[hvalue]| && cmp(key, htable[hvalue][j].key) == 0 {
        EntryIs(htable[hvalue][j]);
        return Some(htable[hvalue][j].datum);
      }
      datum := None;
    }

    lemma EntryIs(e: Entry<K, V>)
      ensures e == Entry(e.key, e.datum)
    {
    }

    /** Unlinks the entry of a key. */
    method Remove(key: K) returns (rc: Status, removed: Option<Entry<K, V>>)
      requires Valid()
      modifies this`htable, this`nel
      ensures Valid() && size == old(size)
      ensures rc == Missing <==> !Bound(old(htable), key)
      ensures rc == Missing || rc == Removed
      ensures rc == Missing ==> htable == old(htable) && nel == old(nel)
      ensures rc == Removed ==> nel + 1 == old(nel) && removed.Some? && removed.value.key == key && Linked(old(htable), removed.value)
      ensures rc == Removed ==> forall e :: Linked(htable, e) <==> Linked(old(htable), e) && e.key != key
    {
      hide Placed, Count, Linked, TotalOrder, Bound;
      removed := None;
      var hvalue := Slot(hash, size, key);
      ChainOf(htable, hvalue);
      var j := Walk(key, htable[hvalue]);
      PlaceBound(htable[hvalue], key, j);
      ChainBound(key, j);
      if !(j < |htable[hvalue]| && cmp(key, htable[hvalue][j].key) == 0) { return Missing, None; }
      removed := Some(htable[hvalue][j]);
      UnlinkOne(htable, hvalue, j);
      htable := htable[hvalue := RemoveAt(htable[hvalue], j)];
      nel := nel - 1;
      rc := Removed;
    }

    lemma UnlinkOne(table: seq<seq<Entry<K, V>>>, i: nat, j: nat)
      requires TotalOrder(cmp) && |table| > 0 && Placed(cmp, hash, table) && i < |table| && j < |table[i]|
      ensures var after := table[i := RemoveAt(table[i], j)];
        && Placed(cmp, hash, after) && Count(after) + 1 == Count(table)
        && forall e :: Linked(after, e) <==> Linked(table, e) && e.key != table[i][j].key
    {
      var gone, after := table[i][j], table[i := RemoveAt(table[i], j)];
      CountUpdate(table, i, RemoveAt(table[i], j));
      assert ChainOk(cmp, hash, |table|, i, table[i]);
      RemoveAscending(cmp, table[i], j);
      assert ChainOk(cmp, hash, |table|, i, after[i]);
      assert Linked(table, gone) by { assert gone in table[i]; }
      forall e | Linked(table, e) && e.key == gone.key ensures e == gone { KeyUnique(cmp, hash, table, e, gone); }
      forall e | e in table[i] && e.key != gone.key ensures e in after[i] { }
      KeyGone(table[i], j);
      SlotOnly(table, i, gone);
      hide TotalOrder, Slot, Count, ChainOk, Ascending;
      forall e ensures Linked(after, e) <==> Linked(table, e) && e.key != gone.key {
        if Linked(after, e) {
          var k :| 0 <= k < |after| && e in after[k];
          assert e in table[k];
        }
        if Linked(table, e) && e.key != gone.key {
          var k :| 0 <= k < |table| && e in table[k];
          assert e in after[k];
        }
      }
    }

    lemma KeyGone(chain: seq<Entry<K, V>>, j: nat)
      requires TotalOrder(cmp) && Ascending(cmp, chain) && j < |chain|
      ensures forall e :: e in RemoveAt(chain, j) ==> e.key != chain[j].key
    {
      var c := RemoveAt(chain, j);
      forall k | 0 <= k < |c| ensures c[k].key != chain[j].key {
        assert cmp(chain[j].key, chain[j].key) == 0;
        if k < j { assert cmp(chain[k].key, chain[j].key) < 0; } else { assert cmp(chain[j].key, chain[k + 1].key) < 0; }
      }
    }

    lemma SlotOnly(table: seq<seq<Entry<K, V>>>, i: nat, gone: Entry<K, V>)
      requires |table| > 0 && Placed(cmp, hash, table) && i < |table| && gone in table[i]
      ensures forall k, e :: 0 <= k < |table| && k != i && e in table[k] ==> e.key != gone.key
    {
      forall k, e | 0 <= k < |table| && k != i && e in table[k] ensures e.key != gone.key {
        assert ChainOk(cmp, hash, |table|, k, table[k]) && ChainOk(cmp, hash, |table|, i, table[i]);
        var a :| 0 <= a < |table[k]| && table[k][a] == e;
        var b :| 0 <= b < |table[i]| && table[i][b] == gone;
      }
    }

    // -------------------------------------------------------------- hashtab_map

    /** All entries in walking order. */
    ghost function Flat(table: seq<seq<Entry<K, V>>>): seq<Entry<K, V>> {
      if table == [] then [] else Flat(table[..|table| - 1]) + table[|table| - 1]
    }

    lemma {:induction false} FlatMembers(table: seq<seq<Entry<K, V>>>)
      ensures |Flat(table)| == Count(table)
      ensures forall e :: e in Flat(table) <==> Linked(table, e)
      decreases |table|
    {
      if table != [] {
        var n := |table| - 1;
        FlatMembers(table[..n]);
        forall e ensures Linked(table, e) <==> Linked(table[..n], e) || e in table[n] {
          if Linked(table, e) { var i :| 0 <= i < |table| && e in table[i]; assert i < n ==> e in table[..n][i]; }
          if Linked(table[..n], e) { var i :| 0 <= i < |table[..n]| && e in table[..n][i]; assert e in table[i]; }
        }
      }
    }

    lemma {:induction false} FlatDistinct(n: nat)
      requires Valid() && n <= size
      ensures NoDuplicates(Flat(htable[..n]))
      decreases n
    {
      if n > 0 {
        FlatDistinct(n - 1);
        var a, chain := htable[..n - 1], htable[n - 1];
        assert htable[..n][..n - 1] == a && htable[..n][n - 1] == chain;
        FlatMembers(a);
        ChainDistinct(n - 1);
        forall j | 0 <= j < |chain| ensures chain[j] !in Flat(a) { OtherSlot(n - 1, j); }
        hide Linked, Placed, Count;
      }
    }

    lemma ChainDistinct(i: nat)
      requires Valid() && i < size
      ensures NoDuplicates(htable[i])
    {
      assert ChainOk(cmp, hash, size, i, htable[i]);
      var chain := htable[i];
      forall j, k | 0 <= j < k < |chain| ensures chain[j] != chain[k] {
        assert cmp(chain[j].key, chain[k].key) < 0 && cmp(chain[j].key, chain[j].key) == 0;
      }
    }

    lemma OtherSlot(i: nat, j: nat)
      requires Valid() && i < size && j < |htable[i]|
      ensures !Linked(htable[..i], htable[i][j])
    {
      var e := htable[i][j];
      SlotOnly(htable, i, e);
      forall k | 0 <= k < i ensures e !in htable[..i][k] { assert htable[..i][k] == htable[k]; }
    }

    /** Applies a callback to the entries until it returns nonzero. */
    method Map(apply: (K, V) -> int) returns (rc: int, visited: seq<Entry<K, V>>)
      requires Valid()
      ensures NoDuplicates(visited) && forall e :: e in visited ==> Linked(htable, e)
      ensures rc == 0 ==> |visited| == nel && forall e :: Linked(htable, e) ==> e in visited
      ensures rc == 0 ==> forall e :: e in visited ==> apply(e.key, e.datum) == 0
      ensures rc != 0 ==> visited != [] && apply(visited[|visited| - 1].key, visited[|visited| - 1].datum) == rc
      ensures rc != 0 ==> Quiet(apply, visited[..|visited| - 1])
    {
      hide *;
      visited, rc := [], 0;
      ghost var all := Flat(htable);
      FlatFacts();
      for i := 0 to |htable|
        invariant rc == 0 && visited == Flat(htable[..i]) && Quiet(apply, visited)
      {
        FlatFrom(i);
        ghost var base, chain := visited, htable[i];
        for j := 0 to |htable[i]|
          invariant rc == 0 && visited == base + chain[..j] && Quiet(apply, visited)
        {
          PartOf(htable, i, j + 1);
          QuietMore(apply, visited, htable[i][j]);
          ghost var before := visited;
          assert chain[..j + 1] == chain[..j] + [chain[j]];
          visited := visited + [htable[i][j]];
          rc := apply(htable[i][j].key, htable[i][j].datum);
          if rc != 0 {
            PrefixFacts(visited, all);
            assert visited[..|visited| - 1] == before;
            return;
          }
        }
        assert chain[..|chain|] == chain;
      }
      assert htable[..|htable|] == htable;
      QuietAll(apply, visited);
    }

    ghost predicate Quiet(apply: (K, V) -> int, visited: seq<Entry<K, V>>) {
      forall e :: e in visited ==> apply(e.key, e.datum) == 0
    }

    lemma QuietMore(apply: (K, V) -> int, visited: seq<Entry<K, V>>, e: Entry<K, V>)
      requires Quiet(apply, visited)
      ensures apply(e.key, e.datum) == 0 ==> Quiet(apply, visited + [e])
    {
    }

    lemma QuietAll(apply: (K, V) -> int, visited: seq<Entry<K, V>>)
      requires Quiet(apply, visited)
      ensures forall e :: e in visited ==> apply(e.key, e.datum) == 0
    {
    }

    /** The walk has as many entries as the table, all of them, each once. */
    lemma FlatFacts()
      requires Valid()
      ensures Flat(htable[..0]) == []
      ensures forall apply: (K, V) -> int :: Quiet(apply, [])
      ensures |Flat(htable)| == nel && NoDuplicates(Flat(htable))
      ensures forall e :: e in Flat(htable) <==> Linked(htable, e)
    {
      FlatMembers(htable);
      FlatDistinct(size);
      assert htable[..size] == htable;
      hide Linked, Placed, TotalOrder;
    }

    lemma FlatFrom(i: nat)
      requires i < |htable|
      ensures Flat(htable[..i + 1]) == Flat(htable[..i]) + htable[i]
    {
      assert htable[..i + 1][..i] == htable[..i];
    }

    lemma {:induction false} PartOf(table: seq<seq<Entry<K, V>>>, i: nat, j: nat)
      requires i < |table| && j <= |table[i]|
      ensures Flat(table[..i]) + table[i][..j] <= Flat(table)
      decreases |table| - i
    {
      assert table[..i + 1][..i] == table[..i];
      assert table[i] == table[i][..j] + table[i][j..];
      assert Flat(table[..i]) + table[i][..j] <= Flat(table[..i + 1]);
      if i + 1 < |table| {
        PartOf(table, i + 1, 0);
        assert Flat(table[..i + 1]) + table[i + 1][..0] == Flat(table[..i + 1]);
      } else {
        assert table[..i + 1] == table;
      }
    }

    lemma PrefixFacts(a: seq<Entry<K, V>>, b: seq<Entry<K, V>>)
      requires a <= b && NoDuplicates(b)
      ensures NoDuplicates(a) && forall e :: e in a ==> e in b
    {
    }
  }

  function Min(a: nat, b: nat): nat {
    if a < b then a else b
  }
}
