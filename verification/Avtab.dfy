/**
 The access-vector rule table (src/avtab.c).

 Rule nodes live in `pool`; a pointer to a node is its index there, so that the
 conditional lists, which point at the same nodes, alias them exactly as in the source.
 A hash chain is the sequence of node pointers in `next` order.
 */
module Avtab {
  import opened Prelude

  const ALLOWED: bv16 := 0x0001
  const AUDITALLOW: bv16 := 0x0002
  const AUDITDENY: bv16 := 0x0004
  const AV: bv16 := 0x0007
  const TRANSITION: bv16 := 0x0010
  const MEMBER: bv16 := 0x0020
  const CHANGE: bv16 := 0x0040
  const TYPE_RULES: bv16 := 0x0070
  const XPERMS_ALLOWED: bv16 := 0x0100
  const XPERMS_AUDITALLOW: bv16 := 0x0200
  const XPERMS_DONTAUDIT: bv16 := 0x0400
  const XPERMS: bv16 := 0x0700
  const ENABLED: bv16 := 0x8000

  const MAX_HASH_BUCKETS: nat := 0x10_0000

  /** Types and classes are numbered from 1. */
  datatype Key = Key(source: nat, target: nat, tclass: nat, specified: bv16)

  const IOCTLFUNCTION: nat := 1
  const IOCTLDRIVER: nat := 2
  const NLMSG: nat := 3

  /** 256 extended permissions as eight 32-bit words. */
  datatype RawXperms = Xperms(specified: nat, driver: nat, perms: seq<bv32>)
  type Xperms = x: RawXperms | |x.perms| == 8 && x.driver < 256
    witness Xperms(0, 0, [0, 0, 0, 0, 0, 0, 0, 0])

  const NO_XPERMS: Xperms := Xperms(0, 0, [0, 0, 0, 0, 0, 0, 0, 0])

  datatype Datum = Datum(data: bv32, xperms: Option<Xperms>)

  datatype Node = Node(key: Key, datum: Datum)

  datatype Status = Ok | NoMem | Exists

  predicate Has(specified: bv16, mask: bv16) {
    specified & mask != 0
  }

  predicate IsXperms(specified: bv16) {
    Has(specified & !ENABLED, XPERMS)
  }

  predicate SameTriple(a: Key, b: Key) {
    a.source == b.source && a.target == b.target && a.tclass == b.tclass
  }

  predicate TripleLess(a: Key, b: Key) {
    || a.source < b.source
    || (a.source == b.source && a.target < b.target)
    || (a.source == b.source && a.target == b.target && a.tclass < b.tclass)
  }

  /** The specifier test of every table walk: the enabled flag is not searched for. */
  predicate Overlaps(want: bv16, have: bv16) {
    want & !ENABLED & have != 0
  }

  predicate Matches(want: Key, have: Key) {
    SameTriple(want, have) && Overlaps(want.specified, have.specified)
  }

  /** The node the insert functions build: an extended-permission rule owns a private copy. */
  function NewNode(key: Key, datum: Datum): (node: Node)
    ensures node.key == key
  {
    if Has(key.specified, XPERMS) then
      Node(key, Datum(datum.data, Some(if datum.xperms.Some? then datum.xperms.value else NO_XPERMS)))
    else
      Node(key, datum)
  }

  predicate IsEnabled(specified: bv16) {
    Has(specified, ENABLED)
  }

  function WithEnabled(n: Node, on: bool): (r: Node)
    ensures SameTriple(n.key, r.key) && r.datum == n.datum
    ensures IsEnabled(r.key.specified) == on
    ensures r.key.specified & !ENABLED == n.key.specified & !ENABLED
  {
    n.(key := n.key.(specified := if on then n.key.specified | ENABLED else n.key.specified & !ENABLED))
  }

  type Hash = (nat, nat, nat) -> nat

  function Slot(hash: Hash, nslot: nat, key: Key): (i: nat)
    requires nslot > 0
    ensures i < nslot
  {
    hash(key.source, key.target, key.tclass) % nslot
  }

  ghost predicate Linked(htable: seq<seq<nat>>, p: nat) {
    exists i :: 0 <= i < |htable| && p in htable[i]
  }

  /** Node `p` is linked and answers a search for `key`. */
  ghost predicate Hit(pool: seq<Node>, htable: seq<seq<nat>>, key: Key, p: nat) {
    Linked(htable, p) && p < |pool| && Matches(key, pool[p].key)
  }

  /** Node `q` is the first of its chain that answers a search on its triple with this specifier. */
  ghost predicate FirstOfKey(hash: Hash, pool: seq<Node>, htable: seq<seq<nat>>, specified: bv16, q: nat) {
    q < |pool| && |htable| > 0 && exists pos :: FirstAt(pool, htable[Slot(hash, |htable|, pool[q].key)], specified, q, pos)
  }

  ghost predicate FirstAt(pool: seq<Node>, chain: seq<nat>, specified: bv16, q: nat, pos: int)
    requires q < |pool|
  {
    && 0 <= pos < |chain| && chain[pos] == q
    && forall x :: 0 <= x < pos ==> chain[x] < |pool| && !Matches(pool[q].key.(specified := specified), pool[chain[x]].key)
  }

  ghost predicate InPool(pool: seq<Node>, chain: seq<nat>) {
    forall j :: 0 <= j < |chain| ==> chain[j] < |pool|
  }

  ghost predicate Sorted(pool: seq<Node>, chain: seq<nat>)
    requires InPool(pool, chain)
  {
    forall j, k :: 0 <= j < k < |chain| ==> !TripleLess(pool[chain[k]].key, pool[chain[j]].key)
  }

  ghost predicate ChainOk(hash: Hash, nslot: nat, pool: seq<Node>, i: nat, chain: seq<nat>)
    requires nslot > 0
  {
    && InPool(pool, chain)
    && Sorted(pool, chain)
    && NoDuplicates(chain)
    && forall j :: 0 <= j < |chain| ==> Slot(hash, nslot, pool[chain[j]].key) == i
  }

  ghost predicate WellChained(hash: Hash, pool: seq<Node>, htable: seq<seq<nat>>) {
    forall i :: 0 <= i < |htable| ==> ChainOk(hash, |htable|, pool, i, htable[i])
  }

  function Count(htable: seq<seq<nat>>): nat {
    if |htable| == 0 then 0 else Count(htable[..|htable| - 1]) + |htable[|htable| - 1]|
  }

  lemma {:induction false} CountUpdate(htable: seq<seq<nat>>, i: nat, chain: seq<nat>)
    requires i < |htable|
    ensures Count(htable[i := chain]) == Count(htable) - |htable[i]| + |chain|
  {
    var last := |htable| - 1;
    if i == last {
      assert htable[i := chain][..last] == htable[..last];
    } else {
      assert htable[i := chain][..last] == htable[..last][i := chain];
      CountUpdate(htable[..last], i, chain);
    }
  }

  /** A linked node is found in the one slot its key hashes to. */
  lemma LinkedSlot(hash: Hash, pool: seq<Node>, htable: seq<seq<nat>>, p: nat)
    requires WellChained(hash, pool, htable) && Linked(htable, p)
    ensures p < |pool| && |htable| > 0 && p in htable[Slot(hash, |htable|, pool[p].key)]
  {
    var i :| 0 <= i < |htable| && p in htable[i];
    var j :| 0 <= j < |htable[i]| && htable[i][j] == p;
    assert ChainOk(hash, |htable|, pool, i, htable[i]);
  }

  lemma EmptySlots(htable: seq<seq<nat>>)
    requires forall i :: 0 <= i < |htable| ==> htable[i] == []
    ensures forall p: nat :: !Linked(htable, p)
  {
  }

  /** `b` is `a` with the new pointer `p` linked into slot `i`. */
  ghost predicate LinksOne(a: seq<seq<nat>>, b: seq<seq<nat>>, i: nat, p: nat) {
    i < |a| && exists j :: 0 <= j <= |a[i]| && b == a[i := InsertAt(a[i], j, p)]
  }

  lemma LinksOneLinked(a: seq<seq<nat>>, b: seq<seq<nat>>, i: nat, p: nat)
    requires LinksOne(a, b, i, p)
    ensures |b| == |a| && forall q :: Linked(b, q) <==> Linked(a, q) || q == p
  {
    forall q ensures Linked(b, q) <==> Linked(a, q) || q == p {
      if Linked(b, q) {
        var k :| 0 <= k < |b| && q in b[k];
        assert k != i ==> q in a[k];
        assert k == i && q != p ==> q in a[i];
      }
      if Linked(a, q) {
        var k :| 0 <= k < |a| && q in a[k];
        assert q in b[k];
      }
      if q == p { assert p in b[i]; }
    }
  }

  /** Putting a pointer where neither neighbour is out of order keeps the chain in shape. */
  lemma InsertKeepsChain(hash: Hash, nslot: nat, pool: seq<Node>, i: nat, chain: seq<nat>, j: nat, node: Node)
    requires nslot > 0 && ChainOk(hash, nslot, pool, i, chain) && j <= |chain|
    requires Slot(hash, nslot, node.key) == i
    requires forall k :: 0 <= k < j ==> !TripleLess(node.key, pool[chain[k]].key)
    requires forall k :: j <= k < |chain| ==> !TripleLess(pool[chain[k]].key, node.key)
    ensures ChainOk(hash, nslot, pool + [node], i, InsertAt(chain, j, |pool|))
  {
    var c := InsertAt(chain, j, |pool|);
    assert forall k :: 0 <= k < |c| ==> c[k] == if k < j then chain[k] else if k == j then |pool| else chain[k - 1];
  }

  lemma GrowPoolKeepsChain(hash: Hash, nslot: nat, pool: seq<Node>, i: nat, chain: seq<nat>, node: Node)
    requires nslot > 0 && ChainOk(hash, nslot, pool, i, chain)
    ensures ChainOk(hash, nslot, pool + [node], i, chain)
  {
  }

  lemma SameKeysKeepChain(hash: Hash, nslot: nat, a: seq<Node>, b: seq<Node>, i: nat, chain: seq<nat>)
    requires nslot > 0 && ChainOk(hash, nslot, a, i, chain)
    requires |a| == |b| && forall p :: 0 <= p < |a| ==> a[p].key == b[p].key
    ensures ChainOk(hash, nslot, b, i, chain)
  {
  }

  lemma SameTriplesKeepChain(hash: Hash, nslot: nat, a: seq<Node>, b: seq<Node>, i: nat, chain: seq<nat>)
    requires nslot > 0 && ChainOk(hash, nslot, a, i, chain)
    requires |a| == |b| && forall p :: 0 <= p < |a| ==> SameTriple(a[p].key, b[p].key)
    ensures ChainOk(hash, nslot, b, i, chain)
  {
  }

  lemma RemoveKeepsChain(hash: Hash, nslot: nat, pool: seq<Node>, i: nat, chain: seq<nat>, j: nat)
    requires nslot > 0 && ChainOk(hash, nslot, pool, i, chain) && j < |chain|
    ensures ChainOk(hash, nslot, pool, i, RemoveAt(chain, j))
    ensures chain[j] !in RemoveAt(chain, j)
  {
    var c := RemoveAt(chain, j);
    assert forall k :: 0 <= k < |c| ==> c[k] == if k < j then chain[k] else chain[k + 1];
  }

  /** Keys of one triple have one slot, so what a scan finds first is the first of its key. */
  lemma FoundFirst(hash: Hash, pool: seq<Node>, htable: seq<seq<nat>>, key: Key, i: nat, pos: nat)
    requires i < |htable| && i == Slot(hash, |htable|, key) && pos < |htable[i]| && htable[i][pos] < |pool|
    requires Matches(key, pool[htable[i][pos]].key)
    requires forall k :: 0 <= k < pos ==> htable[i][k] < |pool| && !Matches(key, pool[htable[i][k]].key)
    ensures FirstOfKey(hash, pool, htable, key.specified, htable[i][pos])
  {
    hide Overlaps;
    var q := htable[i][pos];
    assert pool[q].key.(specified := key.specified) == key.(source := pool[q].key.source, target := pool[q].key.target, tclass := pool[q].key.tclass);
    assert FirstAt(pool, htable[Slot(hash, |htable|, pool[q].key)], key.specified, q, pos);
  }

  /** There is one first node of a key. */
  lemma FirstUnique(hash: Hash, pool: seq<Node>, htable: seq<seq<nat>>, specified: bv16, p: nat, q: nat)
    requires FirstOfKey(hash, pool, htable, specified, p) && FirstOfKey(hash, pool, htable, specified, q)
    requires SameTriple(pool[p].key, pool[q].key)
    requires Overlaps(specified, pool[p].key.specified) && Overlaps(specified, pool[q].key.specified)
    ensures p == q
  {
    hide Overlaps;
    var chain := htable[Slot(hash, |htable|, pool[p].key)];
    var x :| FirstAt(pool, chain, specified, p, x);
    var y :| FirstAt(pool, chain, specified, q, y);
  }

  lemma SlotUnique(hash: Hash, pool: seq<Node>, htable: seq<seq<nat>>, p: nat, i: nat, k: nat)
    requires WellChained(hash, pool, htable)
    requires i < |htable| && k < |htable| && p in htable[i] && p in htable[k]
    ensures i == k
  {
    assert ChainOk(hash, |htable|, pool, i, htable[i]) && ChainOk(hash, |htable|, pool, k, htable[k]);
    var a :| 0 <= a < |htable[i]| && htable[i][a] == p;
    var b :| 0 <= b < |htable[k]| && htable[k][b] == p;
  }

  /** Only extended-permission rules may share a triple and a specifier. */
  ghost predicate UniqueKeys(pool: seq<Node>, htable: seq<seq<nat>>) {
    forall p: nat, q: nat ::
      (Linked(htable, p) && Linked(htable, q) && p != q && p < |pool| && q < |pool| && Matches(pool[p].key, pool[q].key))
      ==> Has(pool[p].key.specified | pool[q].key.specified, XPERMS)
  }

  lemma OverlapsSymmetric(x: bv16, y: bv16)
    ensures Overlaps(x, y) <==> Overlaps(y, x)
  {
    assert x & !ENABLED & y == y & !ENABLED & x;
  }

  lemma HasEither(x: bv16, y: bv16)
    ensures IsXperms(x) || IsXperms(y) ==> Has(x | y, XPERMS)
  {
  }

  lemma FreshKeepsUnique(pool: seq<Node>, a: seq<seq<nat>>, b: seq<seq<nat>>, i: nat, node: Node)
    requires UniqueKeys(pool, a) && LinksOne(a, b, i, |pool|)
    requires IsXperms(node.key.specified) || forall p: nat :: !Hit(pool, a, node.key, p)
    ensures UniqueKeys(pool + [node], b)
  {
    LinksOneLinked(a, b, i, |pool|);
    var pool' := pool + [node];
    forall p: nat, q: nat | Linked(b, p) && Linked(b, q) && p != q && p < |pool'| && q < |pool'| &&
      Matches(pool'[p].key, pool'[q].key)
      ensures Has(pool'[p].key.specified | pool'[q].key.specified, XPERMS)
    {
      OverlapsSymmetric(pool'[p].key.specified, pool'[q].key.specified);
      HasEither(pool'[p].key.specified, pool'[q].key.specified);
      if p == |pool| {
        assert !Hit(pool, a, node.key, q) || IsXperms(node.key.specified);
      } else if q == |pool| {
        assert !Hit(pool, a, node.key, p) || IsXperms(node.key.specified);
      }
    }
  }

  /** Between a half and a quarter as many slots as rules, a power of two, up to the maximum. */
  ghost predicate SlotsFor(nrules: nat, nslot: nat) {
    if nrules == 0 then nslot == 0
    else if nrules < 4 then nslot == if nrules == 1 then 2 else 4
    else
      && (exists k: nat :: nslot == Pow2(k))
      && nslot <= MAX_HASH_BUCKETS && 2 * nslot <= nrules && (nrules < 4 * nslot || nslot == MAX_HASH_BUCKETS)
  }

  lemma SlotsAre(nrules: nat, nslot: nat)
    requires SlotsFor(nrules, nslot)
    ensures nrules == 0 ==> nslot == 0
    ensures nrules == 1 ==> nslot == 2
    ensures 2 <= nrules <= 3 ==> nslot == 4
    ensures nrules >= 4 ==>
      && (exists k: nat :: nslot == Pow2(k))
      && nslot <= 0x10_0000 && 2 * nslot <= nrules && (nrules < 4 * nslot || nslot == 0x10_0000)
  {
    hide Pow2;
  }

  lemma NoSlots()
    ensures SlotsFor(0, 0)
  {
  }

  lemma SomeSlots(nrules: nat, nslot: nat)
    requires SlotsFor(nrules, nslot)
    ensures nslot == 0 <==> nrules == 0
  {
  }

  lemma HalfStep(work: nat, p: nat, n: nat)
    requires work * p <= n < (work + 1) * p
    ensures work / 2 * (2 * p) <= n < (work / 2 + 1) * (2 * p)
  {
    var h := work / 2;
    assert work == 2 * h || work == 2 * h + 1;
    assert h * (2 * p) == 2 * h * p && (h + 1) * (2 * p) == (2 * h + 2) * p;
  }

  /** The shifting loop of avtab_alloc counts the bits of a number. */
  method BitLength(n: nat) returns (shift: nat)
    requires n > 0
    ensures shift > 0 && Pow2(shift - 1) <= n < Pow2(shift)
  {
    hide *;
    var work := n;
    shift := 0;
    ShiftStart(n);
    while work != 0
      invariant Shifted(n, work, shift)
      decreases work
    {
      ShiftStep(n, work, shift);
      work := work / 2;
      shift := shift + 1;
    }
    ShiftEnd(n, shift);
  }

  ghost predicate Shifted(n: nat, work: nat, shift: nat) {
    work * Pow2(shift) <= n < (work + 1) * Pow2(shift) && (work == 0 ==> shift > 0 && Pow2(shift - 1) <= n)
  }

  lemma ShiftStart(n: nat)
    requires n > 0
    ensures Shifted(n, n, 0)
  {
  }

  lemma ShiftStep(n: nat, work: nat, shift: nat)
    requires Shifted(n, work, shift) && work != 0
    ensures Shifted(n, work / 2, shift + 1)
  {
    var p := Pow2(shift);
    assert Pow2(shift + 1) == 2 * p;
    hide Pow2;
    HalfStep(work, p, n);
    if work / 2 == 0 { assert work == 1; }
  }

  lemma ShiftEnd(n: nat, shift: nat)
    requires Shifted(n, 0, shift)
    ensures shift > 0 && Pow2(shift - 1) <= n < Pow2(shift)
  {
    hide Pow2;
  }

  lemma SlotsOfBits(nrules: nat, bits: nat, nslot: nat)
    requires bits > 0 && Pow2(bits - 1) <= nrules < Pow2(bits)
    requires var n := Pow2(if bits > 2 then bits - 2 else bits); nslot == if n > MAX_HASH_BUCKETS then MAX_HASH_BUCKETS else n
    ensures SlotsFor(nrules, nslot)
  {
    assert Pow2(1) == 2 && Pow2(2) == 4 && Pow2(3) == 8;
    assert Pow2(10) == 0x400 && Pow2(20) == MAX_HASH_BUCKETS;
    if bits > 2 {
      assert Pow2(bits) == 2 * Pow2(bits - 1) && Pow2(bits - 1) == 2 * Pow2(bits - 2);
      if bits > 3 { Pow2Grows(3, bits); }
      if bits > 3 { Pow2Grows(2, bits - 1); }
    }
  }

  lemma EmptyTable(tab: Avtab)
    requires tab.pool == [] && tab.nel == 0 && tab.htable == seq(|tab.htable|, i => [])
    ensures tab.Valid() && forall i :: 0 <= i < |tab.htable| ==> tab.htable[i] == []
  {
    EmptyCount(tab.htable);
  }

  // ---------------------------------------------------------------- keys, word by word

  /** `have` answers a search for `want`: same source, target and class, and a specifier bit in common, the flag aside. */
  predicate AnswersSearch(want: Key, have: Key) {
    && want.source == have.source && want.target == have.target && want.tclass == have.tclass
    && want.specified & have.specified & 0x7FFF != 0
  }

  /** Lexicographic order of source, target and class. */
  predicate InOrder(a: Key, b: Key) {
    && a.source <= b.source
    && (a.source == b.source ==> a.target <= b.target)
    && (a.source == b.source && a.target == b.target ==> a.tclass <= b.tclass)
  }

  lemma OverlapsIs(x: bv16, y: bv16)
    ensures Overlaps(x, y) <==> x & y & 0x7FFF != 0
  {
    calc {
      Overlaps(x, y);
      x & !0x8000 & y != 0;
      x & y & 0x7FFF != 0;
    }
  }

  lemma MatchesIs(want: Key, have: Key)
    ensures Matches(want, have) <==> AnswersSearch(want, have)
  {
    hide Overlaps;
    OverlapsIs(want.specified, have.specified);
  }

  lemma OrderIs(a: Key, b: Key)
    ensures TripleLess(a, b) <==> !InOrder(b, a)
  {
  }

  /** What a search can find. */
  lemma HitMeans(pool: seq<Node>, htable: seq<seq<nat>>, key: Key, p: nat)
    ensures Hit(pool, htable, key, p) <==>
      p < |pool| && AnswersSearch(key, pool[p].key) && exists i :: 0 <= i < |htable| && p in htable[i]
  {
    hide Matches, AnswersSearch;
    if p < |pool| { MatchesIs(key, pool[p].key); }
  }

  /** Chains are in lexicographic order. */
  lemma ChainsInOrder(tab: Avtab, i: nat, j: nat, k: nat)
    requires tab.Valid() && i < |tab.htable| && j < k < |tab.htable[i]|
    ensures tab.htable[i][j] < |tab.pool| && tab.htable[i][k] < |tab.pool| && tab.htable[i][j] != tab.htable[i][k]
    ensures InOrder(tab.pool[tab.htable[i][j]].key, tab.pool[tab.htable[i][k]].key)
  {
    assert ChainOk(tab.hash, |tab.htable|, tab.pool, i, tab.htable[i]);
    OrderIs(tab.pool[tab.htable[i][k]].key, tab.pool[tab.htable[i][j]].key);
  }

  predicate EitherExtended(a: Key, b: Key) {
    (a.specified | b.specified) & 0x0700 != 0
  }

  /** Two linked rules of one triple share no specifier bit, save when one is an extended rule. */
  ghost predicate KeysDiffer(pool: seq<Node>, htable: seq<seq<nat>>) {
    forall p: nat, q: nat :: Linked(htable, p) && Linked(htable, q) && p != q && p < |pool| && q < |pool| ==>
      !AnswersSearch(pool[p].key, pool[q].key) || EitherExtended(pool[p].key, pool[q].key)
  }

  lemma UniqueMeans(pool: seq<Node>, htable: seq<seq<nat>>)
    ensures UniqueKeys(pool, htable) <==> KeysDiffer(pool, htable)
  {
    forall p: nat, q: nat | p < |pool| && q < |pool|
      ensures Matches(pool[p].key, pool[q].key) <==> AnswersSearch(pool[p].key, pool[q].key)
    {
      MatchesIs(pool[p].key, pool[q].key);
    }
    hide Matches, AnswersSearch, Linked;
  }

  /** The node an insertion links: the key and data it was given, and a list exactly for an extended rule. */
  lemma NodeInserted(key: Key, datum: Datum)
    ensures NewNode(key, datum).key == key && NewNode(key, datum).datum.data == datum.data
    ensures key.specified & 0x0700 == 0 ==> NewNode(key, datum).datum.xperms == datum.xperms
    ensures key.specified & 0x0700 != 0 && datum.xperms.Some? ==> NewNode(key, datum).datum.xperms == datum.xperms
    ensures key.specified & 0x0700 != 0 && datum.xperms.None? ==>
      NewNode(key, datum).datum.xperms == Some(Xperms(0, 0, [0, 0, 0, 0, 0, 0, 0, 0]))
  {
  }

  lemma FlagWord(n: Node, on: bool)
    ensures WithEnabled(n, on).key.specified == if on then n.key.specified | 0x8000 else n.key.specified & 0x7FFF
  {
  }

  /** Where an insertion goes: before the first rule it matches or precedes. */
  ghost predicate TakesPlace(pool: seq<Node>, chain: seq<nat>, key: Key, j: nat) {
    && j <= |chain|
    && (forall k :: 0 <= k < j ==> chain[k] < |pool| && PassedOver(key, pool[chain[k]].key))
    && (j < |chain| ==> chain[j] < |pool| && !PassedOver(key, pool[chain[j]].key))
  }

  predicate PassedOver(key: Key, have: Key) {
    InOrder(have, key) && !AnswersSearch(key, have)
  }

  /** The insertion of a node at its place in the chain of its slot. */
  ghost predicate InsertedAt(hash: Hash, pool: seq<Node>, before: seq<seq<nat>>, now: seq<seq<nat>>, key: Key) {
    |before| > 0 && exists j: nat :: PlacedBy(pool, before, now, key, Slot(hash, |before|, key), j)
  }

  ghost predicate PlacedBy(pool: seq<Node>, before: seq<seq<nat>>, now: seq<seq<nat>>, key: Key, i: nat, j: nat) {
    i < |before| && TakesPlace(pool, before[i], key, j) && now == before[i := before[i][..j] + [|pool|] + before[i][j..]]
  }

  lemma PlaceTaken(hash: Hash, pool: seq<Node>, before: seq<seq<nat>>, now: seq<seq<nat>>, key: Key, i: nat, j: nat, p: nat)
    requires i < |before| && i == Slot(hash, |before|, key) && p == |pool| && TakesPlace(pool, before[i], key, j) && j <= |before[i]|
    requires now == before[i := InsertAt(before[i], j, p)]
    ensures InsertedAt(hash, pool, before, now, key)
  {
    hide TakesPlace;
    assert InsertAt(before[i], j, p) == before[i][..j] + [p] + before[i][j..];
    assert PlacedBy(pool, before, now, key, i, j);
  }

  class Avtab {
    const hash: Hash
    var pool: seq<Node>
    var htable: seq<seq<nat>>
    var nel: nat

    ghost predicate Valid()
      reads this
    {
      WellChained(hash, pool, htable) && nel == Count(htable)
    }

    constructor (hash: Hash)
      ensures Valid() && this.hash == hash && pool == [] && htable == [] && nel == 0
    {
      this.hash := hash;
      pool, htable, nel := [], [], 0;
    }

    /** Sizes the slot array; zero rules leave the table without slots. */
    method Alloc(nrules: nat)
      requires nrules < 0x1_0000_0000
      modifies this
      ensures Valid() && nel == 0 && pool == []
      ensures SlotsFor(nrules, |htable|)
      ensures nrules == 0 ==> |htable| == 0
      ensures nrules == 1 ==> |htable| == 2
      ensures 2 <= nrules <= 3 ==> |htable| == 4
      ensures nrules >= 4 ==>
        && (exists k: nat :: |htable| == Pow2(k))
        && |htable| <= 0x10_0000 && 2 * |htable| <= nrules && (nrules < 4 * |htable| || |htable| == 0x10_0000)
      ensures forall i :: 0 <= i < |htable| ==> htable[i] == []
    {
      hide *;
      var nslot := 0;
      if nrules != 0 {
        var shift := BitLength(nrules);
        ghost var bits := shift;
        if shift > 2 { shift := shift - 2; }
        nslot := Pow2(shift);
        if nslot > MAX_HASH_BUCKETS { nslot := MAX_HASH_BUCKETS; }
        SlotsOfBits(nrules, bits, nslot);
      } else {
        NoSlots();
      }
      SlotsAre(nrules, nslot);
      htable := seq(nslot, i => []);
      pool, nel := [], 0;
      EmptyTable(this);
    }

    /** Links a fresh node before position `j` of slot `i`; `j` counts the nodes up to `prev`. */
    method InsertNode(i: nat, j: nat, key: Key, datum: Datum) returns (p: nat)
      requires Valid() && i < |htable| && j <= |htable[i]|
      requires Slot(hash, |htable|, key) == i
      requires forall k :: 0 <= k < j ==> !TripleLess(key, pool[htable[i][k]].key)
      requires forall k :: j <= k < |htable[i]| ==> !TripleLess(pool[htable[i][k]].key, key)
      modifies this
      ensures Valid()
      ensures p == |old(pool)| && pool == old(pool) + [NewNode(key, datum)]
      ensures htable == old(htable)[i := InsertAt(old(htable)[i], j, p)]
      ensures LinksOne(old(htable), htable, i, p)
      ensures nel == old(nel) + 1
    {
      p := |pool|;
      ghost var was, chains := pool, htable;
      InsertKeepsChain(hash, |htable|, pool, i, htable[i], j, NewNode(key, datum));
      CountUpdate(htable, i, InsertAt(htable[i], j, p));
      pool := pool + [NewNode(key, datum)];
      htable := htable[i := InsertAt(htable[i], j, p)];
      nel := nel + 1;
      forall k | 0 <= k < |htable| ensures ChainOk(hash, |htable|, pool, k, htable[k]) {
        if k != i { GrowPoolKeepsChain(hash, |htable|, was, k, chains[k], NewNode(key, datum)); }
      }
    }

    /** A write through a node pointer into its datum. */
    method SetDatum(p: nat, datum: Datum)
      requires Valid() && p < |pool|
      modifies this`pool
      ensures Valid()
      ensures pool == old(pool)[p := Node(old(pool)[p].key, datum)]
    {
      ghost var was := pool;
      pool := pool[p := pool[p].(datum := datum)];
      forall i | 0 <= i < |htable| ensures ChainOk(hash, |htable|, pool, i, htable[i]) {
        SameKeysKeepChain(hash, |htable|, was, pool, i, htable[i]);
      }
    }

    /** Turns the enabled flag of a node on or off, through a pointer held elsewhere. */
    method SetEnabled(p: nat, on: bool)
      requires Valid() && p < |pool|
      modifies this`pool
      ensures Valid()
      ensures pool == old(pool)[p := WithEnabled(old(pool)[p], on)]
    {
      ghost var was := pool;
      pool := pool[p := WithEnabled(pool[p], on)];
      forall i | 0 <= i < |htable| ensures ChainOk(hash, |htable|, pool, i, htable[i]) {
        SameTriplesKeepChain(hash, |htable|, was, pool, i, htable[i]);
      }
    }

    /** `*cur = tmp->next`: drops the node at a cursor. */
    method Unlink(i: nat, j: nat)
      requires Valid() && i < |htable| && j < |htable[i]|
      modifies this`htable, this`nel
      ensures Valid()
      ensures htable == old(htable)[i := RemoveAt(old(htable)[i], j)]
      ensures forall q: nat :: Linked(htable, q) <==> Linked(old(htable), q) && q != old(htable)[i][j]
    {
      ghost var was, p := htable, htable[i][j];
      CountUpdate(htable, i, RemoveAt(htable[i], j));
      assert forall k :: 0 <= k < |htable| ==> ChainOk(hash, |htable|, pool, k, htable[k]);
      RemoveKeepsChain(hash, |htable|, pool, i, htable[i], j);
      htable := htable[i := RemoveAt(htable[i], j)];
      nel := nel - 1;
      forall k | 0 <= k < |was| && p in was[k] ensures k == i { SlotUnique(hash, pool, was, p, i, k); }
      forall q: nat ensures Linked(htable, q) <==> Linked(was, q) && q != p {
        if Linked(was, q) && q != p {
          var k :| 0 <= k < |was| && q in was[k];
          assert q in htable[k];
        }
        if Linked(htable, q) {
          var k :| 0 <= k < |htable| && q in htable[k];
          assert q in was[k];
        }
      }
    }

    /** The walk both insert functions share: stop at a match or at the first larger triple. */
    method FindPlace(key: Key) returns (i: nat, j: nat, found: bool)
      requires Valid() && |htable| > 0
      ensures i == Slot(hash, |htable|, key) && j <= |htable[i]|
      ensures forall k :: 0 <= k < j ==> !TripleLess(key, pool[htable[i][k]].key)
      ensures forall k :: j <= k < |htable[i]| ==> !TripleLess(pool[htable[i][k]].key, key)
      ensures found ==> j < |htable[i]| && Matches(key, pool[htable[i][j]].key)
      ensures found <==> exists p: nat :: Hit(pool, htable, key, p)
      ensures TakesPlace(pool, htable[i], key, j)
    {
      i := Slot(hash, |htable|, key);
      j := 0;
      ghost var chain := htable[i];
      assert ChainOk(hash, |htable|, pool, i, chain);
      forall k | 0 <= k < |chain|
        ensures PassedOver(key, pool[chain[k]].key) <==> !Matches(key, pool[chain[k]].key) && !TripleLess(key, pool[chain[k]].key)
      {
        MatchesIs(key, pool[chain[k]].key);
        OrderIs(key, pool[chain[k]].key);
      }
      while j < |htable[i]|
        invariant j <= |chain|
        invariant forall k :: 0 <= k < j ==> !Matches(key, pool[chain[k]].key) && !TripleLess(key, pool[chain[k]].key)
      {
        if Matches(key, pool[htable[i][j]].key) {
          assert Hit(pool, htable, key, htable[i][j]);
          return i, j, true;
        }
        if TripleLess(key, pool[htable[i][j]].key) {
          break;
        }
        j := j + 1;
      }
      found := false;
      if p: nat :| Hit(pool, htable, key, p) {
        LinkedSlot(hash, pool, htable, p);
        assert false;
      }
      LowerBound(key, chain, j);
    }

    /** From the first larger triple on, a sorted chain holds no smaller one. */
    lemma LowerBound(key: Key, chain: seq<nat>, j: nat)
      requires InPool(pool, chain) && Sorted(pool, chain) && j <= |chain|
      requires j < |chain| ==> TripleLess(key, pool[chain[j]].key)
      ensures forall k :: j <= k < |chain| ==> !TripleLess(pool[chain[k]].key, key)
    {
    }

    method Insert(key: Key, datum: Datum) returns (rc: Status)
      requires Valid()
      modifies this
      ensures Valid()
      ensures rc == NoMem <==> |old(htable)| == 0
      ensures rc == Exists <==>
        && |old(htable)| > 0 && !IsXperms(key.specified)
        && exists p: nat :: Hit(old(pool), old(htable), key, p)
      ensures rc != Ok ==> pool == old(pool) && htable == old(htable) && nel == old(nel)
      ensures rc == Ok ==>
        && pool == old(pool) + [NewNode(key, datum)]
        && |htable| > 0 && LinksOne(old(htable), htable, Slot(hash, |htable|, key), |old(pool)|)
        && nel == old(nel) + 1
      ensures UniqueKeys(old(pool), old(htable)) ==> UniqueKeys(pool, htable)
      ensures rc == Ok ==> InsertedAt(hash, old(pool), old(htable), htable, key)
    {
      hide *;
      if |htable| == 0 { return NoMem; }
      var i, j, found := FindPlace(key);
      if found && !IsXperms(key.specified) { return Exists; }
      ghost var was, chains := pool, htable;
      var p := InsertNode(i, j, key, datum);
      PlaceTaken(hash, was, chains, htable, key, i, j, |was|);
      if UniqueKeys(was, chains) {
        FreshKeepsUnique(was, chains, htable, i, NewNode(key, datum));
      }
      rc := Ok;
    }

    method InsertNonunique(key: Key, datum: Datum) returns (p: Option<nat>)
      requires Valid()
      modifies this
      ensures Valid()
      ensures p.None? <==> |old(htable)| == 0
      ensures p.None? ==> pool == old(pool) && htable == old(htable) && nel == old(nel)
      ensures p.Some? ==>
        && p.value == |old(pool)| && pool == old(pool) + [NewNode(key, datum)]
        && |htable| > 0 && LinksOne(old(htable), htable, Slot(hash, |htable|, key), p.value)
        && nel == old(nel) + 1
      ensures p.Some? ==> InsertedAt(hash, old(pool), old(htable), htable, key)
    {
      hide *;
      if |htable| == 0 { return None; }
      var i, j, _ := FindPlace(key);
      ghost var was, chains := pool, htable;
      var q := InsertNode(i, j, key, datum);
      PlaceTaken(hash, was, chains, htable, key, i, j, |was|);
      p := Some(q);
    }

    /** A cursor into slot `i` is a position there; the chain's length stands for NULL. */
    method SearchFrom(key: Key, specified: bv16, i: nat, start: nat) returns (pos: nat)
      requires Valid() && i < |htable| && start <= |htable[i]|
      ensures start <= pos <= |htable[i]|
      ensures forall k :: start <= k < pos ==>
        htable[i][k] < |pool| && !Matches(key.(specified := specified), pool[htable[i][k]].key)
      ensures pos < |htable[i]| ==>
        htable[i][pos] < |pool| && Matches(key.(specified := specified), pool[htable[i][pos]].key)
    {
      ghost var chain := htable[i];
      assert ChainOk(hash, |htable|, pool, i, chain);
      pos := start;
      while pos < |htable[i]|
        invariant start <= pos <= |chain|
        invariant forall k :: start <= k < pos ==> !Matches(key.(specified := specified), pool[chain[k]].key)
      {
        if Matches(key.(specified := specified), pool[htable[i][pos]].key) { return; }
        if TripleLess(key, pool[htable[i][pos]].key) {
          assert forall k :: pos <= k < |chain| ==> !TripleLess(pool[chain[k]].key, pool[chain[pos]].key);
          return |htable[i]|;
        }
        pos := pos + 1;
      }
    }

    method Search(key: Key) returns (p: Option<nat>)
      requires Valid()
      ensures p.Some? ==> Hit(pool, htable, key, p.value) && FirstOfKey(hash, pool, htable, key.specified, p.value)
      ensures p.None? ==> forall q: nat :: !Hit(pool, htable, key, q)
    {
      if |htable| == 0 { return None; }
      var i := Slot(hash, |htable|, key);
      var pos := SearchFrom(key, key.specified, i, 0);
      assert key.(specified := key.specified) == key;
      if pos < |htable[i]| {
        assert Hit(pool, htable, key, htable[i][pos]);
        FoundFirst(hash, pool, htable, key, i, pos);
        return Some(htable[i][pos]);
      }
      p := None;
      forall q: nat | Hit(pool, htable, key, q) ensures false {
        LinkedSlot(hash, pool, htable, q);
      }
    }

    method SearchNode(key: Key) returns (i: nat, pos: nat)
      requires Valid() && |htable| > 0
      ensures i == Slot(hash, |htable|, key) && pos <= |htable[i]|
      ensures forall k :: 0 <= k < pos ==> htable[i][k] < |pool| && !Matches(key, pool[htable[i][k]].key)
      ensures pos < |htable[i]| ==> htable[i][pos] < |pool| && Matches(key, pool[htable[i][pos]].key)
    {
      i := Slot(hash, |htable|, key);
      pos := SearchFrom(key, key.specified, i, 0);
      assert key.(specified := key.specified) == key;
    }

    method SearchNodeNext(i: nat, pos: nat, specified: bv16) returns (next: nat)
      requires Valid() && i < |htable| && pos < |htable[i]| && htable[i][pos] < |pool|
      ensures pos < next <= |htable[i]|
      ensures forall k :: pos < k < next ==>
        htable[i][k] < |pool| && !Matches(pool[htable[i][pos]].key.(specified := specified), pool[htable[i][k]].key)
      ensures next < |htable[i]| ==>
        htable[i][next] < |pool| && Matches(pool[htable[i][pos]].key.(specified := specified), pool[htable[i][next]].key)
    {
      next := SearchFrom(pool[htable[i][pos]].key, specified, i, pos + 1);
    }

    /**
     The search_node / search_node_next idiom visits exactly the linked nodes that match,
     each once, in chain order.
     */
    method Enumerate(key: Key) returns (visited: seq<nat>)
      requires Valid()
      ensures forall p: nat :: p in visited <==> Hit(pool, htable, key, p)
      ensures NoDuplicates(visited)
    {
      hide NoDuplicates, Matches, Slot, Filter, WellChained, ChainOk, Sorted, TripleLess;
      visited := [];
      NothingLinked(pool, key);
      if |htable| == 0 { return; }
      var i, pos := SearchNode(key);
      ghost var chain := htable[i];
      ChainParts(this, i);
      FilterSkips(pool, chain, key, 0, pos);
      FilterStart(pool, chain, key, pos);
      while pos < |htable[i]|
        invariant pos <= |chain|
        invariant pos < |chain| ==> Matches(key, pool[chain[pos]].key)
        invariant visited + Filter(pool, chain, key, pos) == Filter(pool, chain, key, 0)
      {
        FilterStart(pool, chain, key, pos);
        SameSearch(key, pool[chain[pos]].key);
        visited := visited + [htable[i][pos]];
        var next := SearchNodeNext(i, pos, key.specified);
        FilterSkips(pool, chain, key, pos + 1, next);
        pos := next;
      }
      FilterStart(pool, chain, key, pos);
      FilterContents(pool, chain, key, 0);
      assert visited == Filter(pool, chain, key, 0);
      forall p: nat ensures p in visited <==> Hit(pool, htable, key, p) {
        if Hit(pool, htable, key, p) { HitPlace(this, key, p); }
        if p in visited { assert p in htable[i]; }
      }
    }
  }

  lemma NothingLinked(pool: seq<Node>, key: Key)
    ensures forall p: nat :: !Hit(pool, [], key, p)
    ensures NoDuplicates<nat>([])
  {
  }

  lemma ChainParts(tab: Avtab, i: nat)
    requires tab.Valid() && i < |tab.htable|
    ensures InPool(tab.pool, tab.htable[i]) && NoDuplicates(tab.htable[i])
  {
    assert ChainOk(tab.hash, |tab.htable|, tab.pool, i, tab.htable[i]);
  }

  lemma FilterStart(pool: seq<Node>, chain: seq<nat>, key: Key, from: nat)
    requires InPool(pool, chain) && from <= |chain|
    ensures from == |chain| ==> Filter(pool, chain, key, from) == []
    ensures from < |chain| && Matches(key, pool[chain[from]].key) ==>
      Filter(pool, chain, key, from) == [chain[from]] + Filter(pool, chain, key, from + 1)
  {
  }

  /** A match searched on from is searched like the key itself. */
  lemma SameSearch(key: Key, have: Key)
    requires Matches(key, have)
    ensures forall k: Key :: Matches(have.(specified := key.specified), k) <==> Matches(key, k)
  {
  }

  lemma HitPlace(tab: Avtab, key: Key, q: nat)
    requires tab.Valid() && Hit(tab.pool, tab.htable, key, q) && |tab.htable| > 0
    ensures q < |tab.pool| && q in tab.htable[Slot(tab.hash, |tab.htable|, key)] && Matches(key, tab.pool[q].key)
  {
    LinkedSlot(tab.hash, tab.pool, tab.htable, q);
  }

  lemma UnlinkedBeyondPool(tab: Avtab)
    requires tab.Valid()
    ensures !Linked(tab.htable, |tab.pool|)
  {
    if Linked(tab.htable, |tab.pool|) { LinkedSlot(tab.hash, tab.pool, tab.htable, |tab.pool|); }
  }

  /** The matching part of a chain from position `from` on. */
  ghost function Filter(pool: seq<Node>, chain: seq<nat>, key: Key, from: nat): seq<nat>
    requires InPool(pool, chain) && from <= |chain|
    decreases |chain| - from
  {
    if from == |chain| then []
    else if Matches(key, pool[chain[from]].key) then [chain[from]] + Filter(pool, chain, key, from + 1)
    else Filter(pool, chain, key, from + 1)
  }

  lemma {:induction false} FilterSkips(pool: seq<Node>, chain: seq<nat>, key: Key, from: nat, to: nat)
    requires InPool(pool, chain) && from <= to <= |chain|
    requires forall k :: from <= k < to ==> !Matches(key, pool[chain[k]].key)
    ensures Filter(pool, chain, key, from) == Filter(pool, chain, key, to)
    decreases |chain| - from
  {
    if from < to { FilterSkips(pool, chain, key, from + 1, to); }
  }

  lemma {:induction false} FilterContents(pool: seq<Node>, chain: seq<nat>, key: Key, from: nat)
    requires InPool(pool, chain) && NoDuplicates(chain) && from <= |chain|
    ensures forall p: nat :: p in Filter(pool, chain, key, from) <==>
      p in chain[from..] && p < |pool| && Matches(key, pool[p].key)
    ensures NoDuplicates(Filter(pool, chain, key, from))
    decreases |chain| - from
  {
    if from < |chain| {
      FilterContents(pool, chain, key, from + 1);
      assert chain[from..] == [chain[from]] + chain[from + 1..];
    }
  }

  lemma EmptyCount(htable: seq<seq<nat>>)
    requires forall i :: 0 <= i < |htable| ==> htable[i] == []
    ensures Count(htable) == 0
  {
  }
}
