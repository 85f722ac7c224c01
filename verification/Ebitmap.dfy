/**
 The sparse bitmap (src/ebitmap.c): a list of 64-bit map words at increasing, aligned start
 positions, with the end of the last word as the high bit.
 */
module Ebitmap {
  import opened Prelude
  import opened Words

  const MAPSIZE: nat := 64
  const LIMIT: nat := 0x1_0000_0000

  datatype BitNode = BitNode(start: nat, map_: bv64)

  datatype Status = Fine | Invalid | Overflow

  /** Starts strictly increasing and aligned, no empty word, and room for the high bit. */
  predicate Ordered(nodes: seq<BitNode>) {
    && (forall i :: 0 <= i < |nodes| ==>
         nodes[i].start % MAPSIZE == 0 && nodes[i].start + MAPSIZE < LIMIT && nodes[i].map_ != 0)
    && forall i, j :: 0 <= i < j < |nodes| ==> nodes[i].start < nodes[j].start
  }

  function HighBit(nodes: seq<BitNode>): nat {
    if nodes == [] then 0 else nodes[|nodes| - 1].start + MAPSIZE
  }

  /** The word stored for a start position, 0 where there is none. */
  function WordAt(nodes: seq<BitNode>, start: nat): bv64 {
    if nodes == [] then 0
    else if nodes[|nodes| - 1].start == start then nodes[|nodes| - 1].map_
    else WordAt(nodes[..|nodes| - 1], start)
  }

  predicate In(nodes: seq<BitNode>, x: nat) {
    Has(WordAt(nodes, x - x % MAPSIZE), x % MAPSIZE)
  }

  function Elements(nodes: seq<BitNode>): set<nat> {
    set x: nat | x < LIMIT && In(nodes, x)
  }

  // ---------------------------------------------------------------- words and elements

  lemma {:induction false} WordNone(nodes: seq<BitNode>, start: nat)
    requires forall i :: 0 <= i < |nodes| ==> nodes[i].start != start
    ensures WordAt(nodes, start) == 0
  {
    if nodes != [] { WordNone(nodes[..|nodes| - 1], start); }
  }

  lemma {:induction false} WordOf(nodes: seq<BitNode>, i: nat)
    requires Ordered(nodes) && i < |nodes|
    ensures WordAt(nodes, nodes[i].start) == nodes[i].map_
  {
    if i < |nodes| - 1 { WordOf(nodes[..|nodes| - 1], i); }
  }

  /** A nonzero word belongs to a node. */
  lemma {:induction false} WordNode(nodes: seq<BitNode>, start: nat) returns (i: nat)
    requires WordAt(nodes, start) != 0
    ensures i < |nodes| && nodes[i].start == start && nodes[i].map_ == WordAt(nodes, start)
  {
    var k := |nodes| - 1;
    if nodes[k].start == start { i := k; } else { i := WordNode(nodes[..k], start); }
  }

  /** A node of the list holds number `x`: its word starts at most 63 below `x` and has the bit set. */
  predicate NodeHolds(n: BitNode, x: nat) {
    n.start <= x < n.start + 64 && Tests(n.map_, x - n.start)
  }

  /** A number is in the bitmap exactly when a node holds it. */
  lemma {:induction false} ElementsHeld(nodes: seq<BitNode>, x: nat)
    requires Ordered(nodes)
    ensures x in Elements(nodes) <==> exists i :: 0 <= i < |nodes| && NodeHolds(nodes[i], x)
  {
    hide Has, WordAt;
    var start := x - x % MAPSIZE;
    if x in Elements(nodes) {
      ZeroHolds(x % MAPSIZE);
      var i := WordNode(nodes, start);
      HoldsAt(nodes[i], x, x % MAPSIZE);
      assert NodeHolds(nodes[i], x);
    }
    if i :| 0 <= i < |nodes| && NodeHolds(nodes[i], x) {
      AlignedStart(nodes[i].start, x);
      WordOf(nodes, i);
      HoldsAt(nodes[i], x, x % MAPSIZE);
    }
  }

  lemma ZeroHolds(k: nat)
    ensures !Has(0, k)
  {
  }

  lemma AlignedStart(start: nat, x: nat)
    requires start % 64 == 0 && start <= x < start + 64
    ensures x - x % 64 == start
  {
  }

  lemma HoldsAt(n: BitNode, x: nat, k: nat)
    requires x == n.start + k && k < 64
    ensures NodeHolds(n, x) <==> Has(n.map_, k)
  {
    hide Has, Tests;
    HasTests(n.map_, k);
  }

  /** The shape of a bitmap: aligned increasing starts, no empty word, and the end of the last word as high bit. */
  lemma ShapeIs(b: Bitmap)
    requires b.Valid()
    ensures forall i :: 0 <= i < |b.nodes| ==>
      b.nodes[i].start % 64 == 0 && b.nodes[i].start <= 0x1_0000_0000 - 128 && b.nodes[i].map_ != 0
    ensures forall i, j :: 0 <= i < j < |b.nodes| ==> b.nodes[i].start + 64 <= b.nodes[j].start
    ensures b.nodes == [] ==> b.highbit == 0
    ensures b.nodes != [] ==> b.highbit == b.nodes[|b.nodes| - 1].start + 64
  {
    forall i, j | 0 <= i < j < |b.nodes| ensures b.nodes[i].start + 64 <= b.nodes[j].start {
      AlignedApart(b.nodes[i].start, b.nodes[j].start);
    }
  }

  lemma AlignedApart(a: nat, b: nat)
    requires a % 64 == 0 && b % 64 == 0 && a < b
    ensures a + 64 <= b
  {
  }

  lemma WordAppend(nodes: seq<BitNode>, n: BitNode, start: nat)
    ensures WordAt(nodes + [n], start) == if n.start == start then n.map_ else WordAt(nodes, start)
  {
    assert (nodes + [n])[..|nodes|] == nodes;
  }

  lemma ElementIn(nodes: seq<BitNode>, x: nat)
    requires Ordered(nodes)
    ensures x in Elements(nodes) <==> In(nodes, x)
  {
    if In(nodes, x) {
      BitOps(0, 0, x % MAPSIZE);
      var i := WordNode(nodes, x - x % MAPSIZE);
    }
  }

  /** The member at bit `k` of the word at `start`. */
  lemma MemberAt(nodes: seq<BitNode>, start: nat, k: nat)
    requires Ordered(nodes) && start % MAPSIZE == 0 && k < MAPSIZE
    ensures start + k in Elements(nodes) <==> Has(WordAt(nodes, start), k)
  {
    hide *;
    ElementIn(nodes, start + k);
    Offset(start, k);
    InDef(nodes, start + k);
  }

  lemma Offset(start: nat, k: nat)
    requires start % MAPSIZE == 0 && k < MAPSIZE
    ensures (start + k) % MAPSIZE == k && start + k - (start + k) % MAPSIZE == start
  {
  }

  lemma InDef(nodes: seq<BitNode>, x: nat)
    ensures In(nodes, x) <==> Has(WordAt(nodes, x - x % MAPSIZE), x % MAPSIZE)
  {
  }

  lemma AlignedWord(nodes: seq<BitNode>, start: nat)
    requires Ordered(nodes) && start % MAPSIZE != 0
    ensures WordAt(nodes, start) == 0
  {
    WordNone(nodes, start);
  }

  lemma WordsFromElements(a: seq<BitNode>, b: seq<BitNode>, start: nat)
    requires Ordered(a) && Ordered(b) && Elements(a) == Elements(b)
    ensures WordAt(a, start) == WordAt(b, start)
  {
    hide Elements, Ordered, WordAt, Has;
    if start % MAPSIZE == 0 {
      forall k: nat | k < 64 ensures Has(WordAt(a, start), k) == Has(WordAt(b, start), k) {
        MemberAt(a, start, k);
        MemberAt(b, start, k);
      }
      BitsDetermine(WordAt(a, start), WordAt(b, start));
    } else {
      AlignedWord(a, start);
      AlignedWord(b, start);
    }
  }

  /** The form is canonical: a set has one list of nodes. */
  lemma {:induction false} CanonicalNodes(a: seq<BitNode>, b: seq<BitNode>)
    requires Ordered(a) && Ordered(b) && forall w: nat :: WordAt(a, w) == WordAt(b, w)
    ensures a == b
    decreases |a|
  {
    if a == [] {
      if b != [] { var w := WordAt(b, b[|b| - 1].start); }
    } else if b == [] {
      var w := WordAt(a, a[|a| - 1].start);
    } else {
      var m, n := a[|a| - 1], b[|b| - 1];
      if m.start > n.start { WordNone(b, m.start); } else if n.start > m.start { WordNone(a, n.start); }
      assert WordAt(a, m.start) == WordAt(b, m.start) && WordAt(a, n.start) == WordAt(b, n.start);
      assert m == n;
      var a', b' := a[..|a| - 1], b[..|b| - 1];
      forall w: nat ensures WordAt(a', w) == WordAt(b', w) {
        assert WordAt(a, w) == WordAt(b, w);
        if w == m.start { WordNone(a', w); WordNone(b', w); }
      }
      CanonicalNodes(a', b');
      assert a == a' + [m] && b == b' + [n];
    }
  }

  /** Equal sets are stored equally. */
  lemma SameElements(a: seq<BitNode>, b: seq<BitNode>)
    requires Ordered(a) && Ordered(b)
    ensures Elements(a) == Elements(b) <==> a == b
  {
    hide *;
    if Elements(a) == Elements(b) {
      forall w: nat ensures WordAt(a, w) == WordAt(b, w) { WordsFromElements(a, b, w); }
      CanonicalNodes(a, b);
    }
  }

  // ---------------------------------------------------------------- merging two lists word by word

  datatype WordOp = OrOp | AndOp | XorOp

  function Apply(op: WordOp, a: bv64, b: bv64): bv64 {
    match op
    case OrOp => Or(a, b)
    case AndOp => And(a, b)
    case XorOp => Xor(a, b)
  }

  function ApplySet(op: WordOp, a: set<nat>, b: set<nat>): set<nat> {
    match op
    case OrOp => a + b
    case AndOp => a * b
    case XorOp => (a - b) + (b - a)
  }

  lemma ApplyZero(op: WordOp, w: bv64)
    ensures Apply(op, 0, 0) == 0
    ensures Apply(op, w, 0) == Apply(op, 0, w) == if op == AndOp then 0 else w
  {
  }

  /** A word added at a new, larger position unless it is empty. */
  function Put(nodes: seq<BitNode>, start: nat, w: bv64): seq<BitNode> {
    if w == 0 then nodes else nodes + [BitNode(start, w)]
  }

  lemma PutWord(nodes: seq<BitNode>, start: nat, w: bv64, at: nat)
    requires forall k :: 0 <= k < |nodes| ==> nodes[k].start < start
    ensures WordAt(Put(nodes, start, w), at) == if at == start then w else WordAt(nodes, at)
  {
    WordNone(nodes, start);
    WordAppend(nodes, BitNode(start, w), at);
  }

  lemma PutOrdered(nodes: seq<BitNode>, start: nat, w: bv64)
    requires Ordered(nodes) && start % MAPSIZE == 0 && start + MAPSIZE < LIMIT
    requires forall k :: 0 <= k < |nodes| ==> nodes[k].start < start
    ensures Ordered(Put(nodes, start, w))
  {
  }

  /** All of a list's starts are below the start of the `j`th node of another, if there is one. */
  predicate Below(a: seq<BitNode>, b: seq<BitNode>, j: nat)
    requires j <= |b|
  {
    j < |b| ==> forall k :: 0 <= k < |a| ==> a[k].start < b[j].start
  }

  /** `dst` is the merge of the first `i` nodes of `a` and the first `j` of `b`. */
  ghost predicate Merged(op: WordOp, dst: seq<BitNode>, a: seq<BitNode>, i: nat, b: seq<BitNode>, j: nat) {
    && Ordered(a) && Ordered(b) && Ordered(dst) && i <= |a| && j <= |b|
    && Below(dst, a, i) && Below(dst, b, j) && Below(a[..i], b, j) && Below(b[..j], a, i)
    && forall w: nat :: WordAt(dst, w) == Apply(op, WordAt(a[..i], w), WordAt(b[..j], w))
  }

  lemma MergeStart(op: WordOp, a: seq<BitNode>, b: seq<BitNode>)
    requires Ordered(a) && Ordered(b)
    ensures Merged(op, [], a, 0, b, 0)
  {
    ApplyZero(op, 0);
    hide Apply;
  }

  lemma PrefixWord(a: seq<BitNode>, i: nat, w: nat)
    requires Ordered(a) && i < |a|
    ensures WordAt(a[..i + 1], w) == if a[i].start == w then a[i].map_ else WordAt(a[..i], w)
    ensures WordAt(a[..i], a[i].start) == 0
  {
    assert a[..i + 1] == a[..i] + [a[i]];
    WordAppend(a[..i], a[i], w);
    WordNone(a[..i], a[i].start);
  }

  lemma MergeBoth(op: WordOp, dst: seq<BitNode>, a: seq<BitNode>, i: nat, b: seq<BitNode>, j: nat)
    requires Merged(op, dst, a, i, b, j) && i < |a| && j < |b| && a[i].start == b[j].start
    ensures Merged(op, Put(dst, a[i].start, Apply(op, a[i].map_, b[j].map_)), a, i + 1, b, j + 1)
  {
    var s, m := a[i].start, Apply(op, a[i].map_, b[j].map_);
    PutOrdered(dst, s, m);
    hide Apply;
    forall w: nat ensures WordAt(Put(dst, s, m), w) == Apply(op, WordAt(a[..i + 1], w), WordAt(b[..j + 1], w)) {
      PutWord(dst, s, m, w);
      PrefixWord(a, i, w);
      PrefixWord(b, j, w);
    }
    hide WordAt;
  }

  lemma MergeLeft(op: WordOp, dst: seq<BitNode>, a: seq<BitNode>, i: nat, b: seq<BitNode>, j: nat)
    requires Merged(op, dst, a, i, b, j) && i < |a| && (j == |b| || a[i].start < b[j].start)
    ensures Merged(op, Put(dst, a[i].start, Apply(op, a[i].map_, 0)), a, i + 1, b, j)
  {
    var s, m := a[i].start, Apply(op, a[i].map_, 0);
    PutOrdered(dst, s, m);
    WordNone(b[..j], s);
    hide Apply;
    forall w: nat ensures WordAt(Put(dst, s, m), w) == Apply(op, WordAt(a[..i + 1], w), WordAt(b[..j], w)) {
      PutWord(dst, s, m, w);
      PrefixWord(a, i, w);
    }
    hide WordAt;
  }

  lemma MergeRight(op: WordOp, dst: seq<BitNode>, a: seq<BitNode>, i: nat, b: seq<BitNode>, j: nat)
    requires Merged(op, dst, a, i, b, j) && j < |b| && (i == |a| || b[j].start < a[i].start)
    ensures Merged(op, Put(dst, b[j].start, Apply(op, 0, b[j].map_)), a, i, b, j + 1)
  {
    var s, m := b[j].start, Apply(op, 0, b[j].map_);
    PutOrdered(dst, s, m);
    WordNone(a[..i], s);
    hide Apply;
    forall w: nat ensures WordAt(Put(dst, s, m), w) == Apply(op, WordAt(a[..i], w), WordAt(b[..j + 1], w)) {
      PutWord(dst, s, m, w);
      PrefixWord(b, j, w);
    }
    hide WordAt;
  }

  /** Once both lists are used up the words of the result are the combined words. */
  lemma MergeElements(op: WordOp, dst: seq<BitNode>, a: seq<BitNode>, b: seq<BitNode>)
    requires Ordered(dst) && Ordered(a) && Ordered(b)
    requires forall w: nat :: WordAt(dst, w) == Apply(op, WordAt(a, w), WordAt(b, w))
    ensures Elements(dst) == ApplySet(op, Elements(a), Elements(b))
  {
    hide Elements, Has, Or, And, Xor, Ordered, WordAt;
    forall x: nat ensures x in Elements(dst) <==> x in ApplySet(op, Elements(a), Elements(b)) {
      ElementIn(dst, x);
      ElementIn(a, x);
      ElementIn(b, x);
      BitOps(WordAt(a, x - x % MAPSIZE), WordAt(b, x - x % MAPSIZE), x % MAPSIZE);
    }
  }

  lemma MergeDone(op: WordOp, dst: seq<BitNode>, a: seq<BitNode>, b: seq<BitNode>)
    requires Merged(op, dst, a, |a|, b, |b|)
    ensures Ordered(dst) && Elements(dst) == ApplySet(op, Elements(a), Elements(b))
  {
    assert a[..|a|] == a && b[..|b|] == b;
    hide Elements, Apply, ApplySet, WordAt;
    MergeElements(op, dst, a, b);
  }

  /** An intersection is finished when either list is used up. */
  lemma {:induction false} MergeRest(dst: seq<BitNode>, a: seq<BitNode>, i: nat, b: seq<BitNode>, j: nat)
    requires Merged(AndOp, dst, a, i, b, j) && (i == |a| || j == |b|)
    ensures Ordered(dst) && Elements(dst) == Elements(a) * Elements(b)
    decreases |a| - i + |b| - j
  {
    hide *;
    MergedBounds(AndOp, dst, a, i, b, j);
    if i < |a| {
      MergeLeft(AndOp, dst, a, i, b, j);
      PutNothing(dst, a[i].start, a[i].map_);
      MergeRest(dst, a, i + 1, b, j);
    } else if j < |b| {
      MergeRight(AndOp, dst, a, i, b, j);
      PutNothing(dst, b[j].start, b[j].map_);
      MergeRest(dst, a, i, b, j + 1);
    } else {
      MergeDone(AndOp, dst, a, b);
      ApplyAnd(Elements(a), Elements(b));
    }
  }

  lemma MergedBounds(op: WordOp, dst: seq<BitNode>, a: seq<BitNode>, i: nat, b: seq<BitNode>, j: nat)
    requires Merged(op, dst, a, i, b, j)
    ensures i <= |a| && j <= |b|
  {
  }

  lemma PutNothing(dst: seq<BitNode>, start: nat, w: bv64)
    ensures Put(dst, start, Apply(AndOp, w, 0)) == dst == Put(dst, start, Apply(AndOp, 0, w))
  {
    ApplyZero(AndOp, w);
    hide Apply;
  }

  lemma ApplyAnd(a: set<nat>, b: set<nat>)
    ensures ApplySet(AndOp, a, b) == a * b
  {
  }

  // ---------------------------------------------------------------- complement

  /** Word `start` of the complement below `maxbit`. */
  function NotWord(nodes: seq<BitNode>, start: nat, maxbit: nat): bv64
    requires start < maxbit
  {
    var m := Not(WordAt(nodes, start));
    if maxbit - start < MAPSIZE then And(m, Less1(Bit(maxbit - start))) else m
  }

  ghost predicate Negated(dst: seq<BitNode>, nodes: seq<BitNode>, cur: nat, maxbit: nat) {
    && Ordered(dst) && Ordered(nodes) && cur % MAPSIZE == 0
    && (forall k :: 0 <= k < |dst| ==> dst[k].start < cur)
    && forall w: nat :: WordAt(dst, w) == if w % MAPSIZE == 0 && w < cur && w < maxbit then NotWord(nodes, w, maxbit) else 0
  }

  lemma NotStart(nodes: seq<BitNode>, maxbit: nat)
    requires Ordered(nodes)
    ensures Negated([], nodes, 0, maxbit)
  {
  }

  lemma NotStep(dst: seq<BitNode>, nodes: seq<BitNode>, cur: nat, maxbit: nat)
    requires Negated(dst, nodes, cur, maxbit) && cur < maxbit <= LIMIT - MAPSIZE
    ensures Negated(Put(dst, cur, NotWord(nodes, cur, maxbit)), nodes, cur + 64, maxbit)
  {
    var m := NotWord(nodes, cur, maxbit);
    hide NotWord;
    PutOrdered(dst, cur, m);
    forall w: nat
      ensures WordAt(Put(dst, cur, m), w) ==
        if w % MAPSIZE == 0 && w < cur + MAPSIZE && w < maxbit then NotWord(nodes, w, maxbit) else 0
    {
      PutWord(dst, cur, m, w);
    }
    hide WordAt;
  }

  lemma NotBit(nodes: seq<BitNode>, start: nat, maxbit: nat, k: nat)
    requires start < maxbit && k < MAPSIZE
    ensures Has(NotWord(nodes, start, maxbit), k) <==> start + k < maxbit && !Has(WordAt(nodes, start), k)
  {
    hide Has, Not, And, Less1, Bit;
    var w := WordAt(nodes, start);
    BitOps(w, 0, k);
    if maxbit - start < MAPSIZE {
      BitOps(Not(w), Less1(Bit(maxbit - start)), k);
      BitBelow(maxbit - start, k);
    }
  }

  predicate AtLeast(x: nat, lo: nat) { x >= lo }

  function Interval(lo: nat, hi: nat): set<nat> {
    set x: nat | x < hi && AtLeast(x, lo)
  }

  lemma NotDone(dst: seq<BitNode>, nodes: seq<BitNode>, cur: nat, maxbit: nat)
    requires Negated(dst, nodes, cur, maxbit) && maxbit <= cur && maxbit <= LIMIT
    ensures Elements(dst) == Interval(0, maxbit) - Elements(nodes)
  {
    hide Elements, NotWord, WordAt, Has, Ordered;
    forall x: nat ensures x in Elements(dst) <==> x < maxbit && x !in Elements(nodes) {
      ElementIn(dst, x);
      ElementIn(nodes, x);
      InDef(dst, x);
      InDef(nodes, x);
      var start := x - x % MAPSIZE;
      Aligned(x);
      BitOps(0, 0, x % MAPSIZE);
      if start < maxbit { NotBit(nodes, start, maxbit, x % MAPSIZE); }
    }
  }

  lemma Aligned(x: nat)
    ensures (x - x % MAPSIZE) % MAPSIZE == 0 && x % MAPSIZE < MAPSIZE
  {
  }

  // ---------------------------------------------------------------- counting

  function Shifted(s: set<nat>, d: nat): set<nat> {
    set k | k in s :: k + d
  }

  lemma {:induction false} ShiftedSize(s: set<nat>, d: nat)
    ensures |Shifted(s, d)| == |s|
    decreases s
  {
    hide Shifted;
    if s == {} {
      ShiftedEmpty(d);
    } else {
      var x :| x in s;
      ShiftedSize(s - {x}, d);
      ShiftedAdd(s - {x}, d, x);
      assert s - {x} + {x} == s;
    }
  }

  lemma ShiftedEmpty(d: nat)
    ensures Shifted({}, d) == {}
  {
  }

  lemma ShiftedAdd(s: set<nat>, d: nat, x: nat)
    ensures Shifted(s + {x}, d) == Shifted(s, d) + {x + d}
    ensures x + d in Shifted(s, d) <==> x in s
  {
    if x in s { assert x + d in Shifted(s, d); }
    forall y ensures y in Shifted(s + {x}, d) <==> y in Shifted(s, d) || y == x + d {
      if y in Shifted(s + {x}, d) {
        var k :| k in s + {x} && y == k + d;
        assert k in s || k == x;
      }
    }
  }

  function BitsOf(w: bv64): set<nat> {
    set k: nat | k < 64 && Has(w, k)
  }

  lemma PopCountIs(w: bv64)
    ensures PopCount(w) == |BitsOf(w)|
  {
    assert (set k | 0 <= k < 64 && Has(w, k)) == BitsOf(w);
  }

  /** Elements of one node more: its bits, shifted to its start. */
  lemma ElementsAppend(nodes: seq<BitNode>, n: BitNode)
    requires Ordered(nodes + [n])
    ensures Ordered(nodes)
    ensures Elements(nodes + [n]) == Elements(nodes) + Shifted(BitsOf(n.map_), n.start)
    ensures Elements(nodes) * Shifted(BitsOf(n.map_), n.start) == {}
  {
    var all := nodes + [n];
    assert forall i :: 0 <= i < |nodes| ==> all[i] == nodes[i];
    assert Ordered(nodes) && all[|nodes|] == n && n.start % MAPSIZE == 0;
    forall i | 0 <= i < |nodes| ensures nodes[i].start != n.start { assert all[i].start < all[|nodes|].start; }
    WordNone(nodes, n.start);
    hide Elements, Has, Ordered;
    forall x: nat
      ensures x in Elements(all) <==> x in Elements(nodes) || x in Shifted(BitsOf(n.map_), n.start)
      ensures !(x in Elements(nodes) && x in Shifted(BitsOf(n.map_), n.start))
    {
      ElementIn(all, x);
      ElementIn(nodes, x);
      WordAppend(nodes, n, x - x % MAPSIZE);
      InShifted(n, x);
      BitOps(0, 0, x % MAPSIZE);
      hide WordAt, Shifted, BitsOf;
    }
  }

  lemma InShifted(n: BitNode, x: nat)
    requires n.start % MAPSIZE == 0
    ensures x in Shifted(BitsOf(n.map_), n.start) <==> x - x % MAPSIZE == n.start && Has(n.map_, x % MAPSIZE)
  {
    hide Has;
    if x - x % MAPSIZE == n.start && Has(n.map_, x % MAPSIZE) {
      assert x % MAPSIZE in BitsOf(n.map_);
      assert x == x % MAPSIZE + n.start;
    }
    if x in Shifted(BitsOf(n.map_), n.start) {
      var k :| k in BitsOf(n.map_) && x == k + n.start;
      Offset(n.start, k);
    }
  }

  lemma IntervalIs(lo: nat, hi: nat)
    ensures forall x :: x in Interval(lo, hi) <==> lo <= x < hi
  {
  }

  /** The 32-bit counter of ebitmap_not after some rounds. */
  function Counter(rounds: nat): nat {
    64 * rounds % LIMIT
  }

  /** The counter gets past `maxbit` exactly up to the last word; above that it wraps for ever. */
  lemma CounterPasses(maxbit: nat)
    ensures (exists rounds: nat :: Counter(rounds) >= maxbit) <==> maxbit <= LIMIT - MAPSIZE
  {
    if maxbit <= LIMIT - MAPSIZE {
      var rounds: nat := 0x3FF_FFFF;
      assert 64 * rounds == LIMIT - MAPSIZE;
      assert Counter(rounds) >= maxbit;
    }
    forall rounds: nat ensures Counter(rounds) <= LIMIT - MAPSIZE {
      CounterStep(rounds);
    }
  }

  lemma CounterStep(rounds: nat)
    ensures Counter(rounds) <= LIMIT - MAPSIZE
  {
    var q, r := rounds / 0x400_0000, rounds % 0x400_0000;
    assert rounds == 0x400_0000 * q + r;
    assert 64 * rounds == LIMIT * q + 64 * r;
  }

  class Bitmap {
    var nodes: seq<BitNode>
    var highbit: nat

    ghost predicate Valid()
      reads this
    {
      Ordered(nodes) && highbit == HighBit(nodes)
    }

    ghost function Contents(): set<nat>
      reads this
    {
      Elements(nodes)
    }

    constructor ()
      ensures Valid() && Contents() == {} && nodes == []
    {
      nodes, highbit := [], 0;
    }

    method Or(e1: Bitmap, e2: Bitmap)
      requires e1.Valid() && e2.Valid() && this != e1 && this != e2
      modifies this
      ensures Valid() && Contents() == e1.Contents() + e2.Contents()
    {
      hide *;
      nodes, highbit := [], 0;
      ghost var a, b := e1.nodes, e2.nodes;
      OrderedOf(e1);
      OrderedOf(e2);
      OrStart(a, b);
      var i, j := 0, 0;
      while i < |e1.nodes| || j < |e2.nodes|
        invariant OrMerged(nodes, a, i, b, j) && i <= |a| && j <= |b|
        decreases |a| - i + |b| - j
      {
        var new_;
        if i < |e1.nodes| && j < |e2.nodes| && e1.nodes[i].start == e2.nodes[j].start {
          OrBoth(nodes, a, i, b, j);
          new_ := BitNode(e1.nodes[i].start, Words.Or(e1.nodes[i].map_, e2.nodes[j].map_));
          i, j := i + 1, j + 1;
        } else if j == |e2.nodes| || (i < |e1.nodes| && e1.nodes[i].start < e2.nodes[j].start) {
          OrLeft(nodes, a, i, b, j);
          new_ := BitNode(e1.nodes[i].start, e1.nodes[i].map_);
          i := i + 1;
        } else {
          OrRight(nodes, a, i, b, j);
          new_ := BitNode(e2.nodes[j].start, e2.nodes[j].map_);
          j := j + 1;
        }
        nodes := nodes + [new_];
      }
      OrDone(nodes, a, b);
      highbit := Max(e1.highbit, e2.highbit);
      MadeValid(this);
      ContentsAre(this, e1, e2);
    }

    method And(e1: Bitmap, e2: Bitmap)
      requires e1.Valid() && e2.Valid() && this != e1 && this != e2
      modifies this
      ensures Valid() && Contents() == e1.Contents() * e2.Contents()
    {
      hide *;
      nodes, highbit := [], 0;
      ghost var a, b := e1.nodes, e2.nodes;
      OrderedOf(e1);
      OrderedOf(e2);
      MergeStart(AndOp, a, b);
      var i, j := 0, 0;
      NoHighBit();
      while i < |e1.nodes| && j < |e2.nodes|
        invariant Merged(AndOp, nodes, a, i, b, j) && i <= |a| && j <= |b| && highbit == 0
        decreases |a| - i + |b| - j
      {
        if e1.nodes[i].start == e2.nodes[j].start {
          MergeBoth(AndOp, nodes, a, i, b, j);
          PutCases(nodes, a[i].start, AndOp, a[i].map_, b[j].map_);
          if Words.And(e1.nodes[i].map_, e2.nodes[j].map_) != 0 {
            nodes := nodes + [BitNode(e1.nodes[i].start, Words.And(e1.nodes[i].map_, e2.nodes[j].map_))];
          }
          i, j := i + 1, j + 1;
        } else if e1.nodes[i].start > e2.nodes[j].start {
          MergeRight(AndOp, nodes, a, i, b, j);
          PutNothing(nodes, b[j].start, b[j].map_);
          j := j + 1;
        } else {
          MergeLeft(AndOp, nodes, a, i, b, j);
          PutNothing(nodes, a[i].start, a[i].map_);
          i := i + 1;
        }
      }
      MergeRest(nodes, a, i, b, j);
      SetHighBit();
      ContentsAre(this, e1, e2);
    }

    /** The high bit of a list just built; the empty list keeps the initial 0. */
    method SetHighBit()
      requires Ordered(nodes) && highbit == 0
      modifies this`highbit
      ensures Valid()
    {
      if nodes != [] { highbit := nodes[|nodes| - 1].start + MAPSIZE; }
    }

    method Xor(e1: Bitmap, e2: Bitmap)
      requires e1.Valid() && e2.Valid() && this != e1 && this != e2
      modifies this
      ensures Valid() && Contents() == (e1.Contents() - e2.Contents()) + (e2.Contents() - e1.Contents())
    {
      hide *;
      nodes, highbit := [], 0;
      ghost var a, b := e1.nodes, e2.nodes;
      OrderedOf(e1);
      OrderedOf(e2);
      MergeStart(XorOp, a, b);
      var i, j := 0, 0;
      while i < |e1.nodes| || j < |e2.nodes|
        invariant Merged(XorOp, nodes, a, i, b, j) && i <= |a| && j <= |b| && highbit == 0
        decreases |a| - i + |b| - j
      {
        var startbit, map_;
        if i < |e1.nodes| && j < |e2.nodes| && e1.nodes[i].start == e2.nodes[j].start {
          MergeBoth(XorOp, nodes, a, i, b, j);
          PutCases(nodes, a[i].start, XorOp, a[i].map_, b[j].map_);
          startbit, map_ := e1.nodes[i].start, Words.Xor(e1.nodes[i].map_, e2.nodes[j].map_);
          i, j := i + 1, j + 1;
        } else if j == |e2.nodes| || (i < |e1.nodes| && e1.nodes[i].start < e2.nodes[j].start) {
          MergeLeft(XorOp, nodes, a, i, b, j);
          PutCases(nodes, a[i].start, XorOp, a[i].map_, 0);
          startbit, map_ := e1.nodes[i].start, e1.nodes[i].map_;
          i := i + 1;
        } else {
          MergeRight(XorOp, nodes, a, i, b, j);
          PutCases(nodes, b[j].start, XorOp, 0, b[j].map_);
          startbit, map_ := e2.nodes[j].start, e2.nodes[j].map_;
          j := j + 1;
        }
        if map_ != 0 { nodes := nodes + [BitNode(startbit, map_)]; }
      }
      MergeDone(XorOp, nodes, a, b);
      ApplyXor(Elements(a), Elements(b));
      SetHighBit();
      ContentsAre(this, e1, e2);
    }

    /** The complement word at `cur`, and the node that comes next. */
    method NotMap(e1: Bitmap, n: nat, cur: nat, maxbit: nat) returns (map_: bv64, next: nat)
      requires cur < maxbit && Reached(e1.nodes, n, cur)
      ensures map_ == NotWord(e1.nodes, cur, maxbit) && Reached(e1.nodes, next, cur + 64)
    {
      hide *;
      ReachStep(e1.nodes, n, cur);
      if n < |e1.nodes| && e1.nodes[n].start == cur {
        map_, next := Words.Not(e1.nodes[n].map_), n + 1;
      } else {
        map_, next := ALL, n;
      }
      NotWordIs(e1.nodes, cur, maxbit, map_);
      if maxbit - cur < 64 { map_ := Words.And(map_, Less1(Bit(maxbit - cur))); }
    }

    /** The complement below `maxbit`, which must leave the counter room to stop. */
    method Not(e1: Bitmap, maxbit: nat)
      requires e1.Valid() && this != e1 && maxbit <= LIMIT - MAPSIZE
      modifies this
      ensures Valid() && Contents() == Interval(0, maxbit) - e1.Contents()
      ensures forall x :: x in Contents() <==> 0 <= x < maxbit && x !in e1.Contents()
    {
      hide *;
      nodes, highbit := [], 0;
      OrderedOf(e1);
      ghost var a := e1.nodes;
      NotStart(a, maxbit);
      var n, cur := 0, 0;
      ReachStart(a);
      while cur < maxbit
        invariant Negated(nodes, a, cur, maxbit) && Reached(a, n, cur) && highbit == 0
        decreases maxbit - cur
      {
        NotStep(nodes, a, cur, maxbit);
        var map_;
        map_, n := NotMap(e1, n, cur, maxbit);
        PutIs(nodes, cur, map_);
        if map_ != 0 { nodes := nodes + [BitNode(cur, map_)]; }
        cur := cur + 64;
      }
      NotDone(nodes, a, cur, maxbit);
      NegatedOrdered(nodes, a, cur, maxbit);
      SetHighBit();
      ContentsAre(this, e1, e1);
      IntervalIs(0, maxbit);
    }

    /** What is in the first but not the second, below `maxbit`. */
    method AndNot(e1: Bitmap, e2: Bitmap, maxbit: nat)
      requires e1.Valid() && e2.Valid() && this != e1 && this != e2 && maxbit <= LIMIT - MAPSIZE
      modifies this
      ensures Valid() && Contents() == e1.Contents() * (Interval(0, maxbit) - e2.Contents())
      ensures forall x :: x in Contents() <==> x in e1.Contents() && x < maxbit && x !in e2.Contents()
    {
      var e3 := new Bitmap();
      e3.Not(e2, maxbit);
      And(e1, e3);
    }

    method Cardinality() returns (count: nat)
      requires Valid()
      ensures count == |Contents()|
    {
      hide *;
      OrderedOf(this);
      count := 0;
      CountStart();
      for i := 0 to |nodes|
        invariant i <= |nodes| && count == |Elements(nodes[..i])|
      {
        CountStep(nodes, i);
        count := count + PopCount(nodes[i].map_);
      }
      assert nodes[..|nodes|] == nodes;
    }

    /** Equal exactly when the sets are. */
    method Cmp(e2: Bitmap) returns (equal: bool)
      requires Valid() && e2.Valid()
      ensures equal <==> Contents() == e2.Contents()
    {
      SameElements(nodes, e2.nodes);
      if highbit != e2.highbit { return false; }
      hide Elements, Ordered;
      var i := 0;
      while i < |nodes| && i < |e2.nodes| && nodes[i].start == e2.nodes[i].start && nodes[i].map_ == e2.nodes[i].map_
        invariant i <= |nodes| && i <= |e2.nodes| && nodes[..i] == e2.nodes[..i]
      {
        i := i + 1;
      }
      if i < |nodes| || i < |e2.nodes| { return false; }
      equal := true;
    }

    /** The size of the symmetric difference, as an int. */
    method HammingDistance(e2: Bitmap) returns (distance: int)
      requires Valid() && e2.Valid()
      ensures distance == ToInt(|(Contents() - e2.Contents()) + (e2.Contents() - Contents())|)
      ensures |(Contents() - e2.Contents()) + (e2.Contents() - Contents())| < 0x8000_0000 ==>
        distance == |(Contents() - e2.Contents()) + (e2.Contents() - Contents())|
      ensures WrapsTo(|(Contents() - e2.Contents()) + (e2.Contents() - Contents())|, distance)
    {
      hide ToInt, WrapsTo, Elements, Ordered;
      ToIntWraps(|(Contents() - e2.Contents()) + (e2.Contents() - Contents())|);
      ToIntWraps(0);
      var equal := Cmp(e2);
      if equal {
        assert (Contents() - e2.Contents()) + (e2.Contents() - Contents()) == {};
        return 0;
      }
      var tmp := new Bitmap();
      tmp.Xor(this, e2);
      var count := tmp.Cardinality();
      distance := ToInt(count);
    }

    method Cpy(src: Bitmap)
      requires src.Valid() && this != src
      modifies this
      ensures Valid() && Contents() == src.Contents() && nodes == src.nodes
    {
      hide Elements, Ordered, HighBit;
      nodes, highbit := [], 0;
      var i := 0;
      while i < |src.nodes|
        invariant i <= |src.nodes| && nodes == src.nodes[..i]
      {
        nodes := nodes + [BitNode(src.nodes[i].start, src.nodes[i].map_)];
        i := i + 1;
      }
      assert nodes == src.nodes;
      highbit := src.highbit;
    }

    /** Whether the other bitmap's set is a subset. */
    method Contains(e2: Bitmap) returns (r: bool)
      requires Valid() && e2.Valid()
      ensures r <==> e2.Contents() <= Contents()
    {
      hide *;
      ghost var a, b := nodes, e2.nodes;
      OrderedOf(this);
      OrderedOf(e2);
      if highbit < e2.highbit { HighDecides(a, b); return false; }
      var i, j := 0, 0;
      CoverStart(a, b);
      while i < |nodes| && j < |e2.nodes| && nodes[i].start <= e2.nodes[j].start
        invariant CoveredUpTo(a, i, b, j) && i <= |a| && j <= |b|
        decreases |a| - i
      {
        if nodes[i].start < e2.nodes[j].start {
          CoverSkip(a, i, b, j);
          i := i + 1;
          continue;
        }
        CoverBoth(a, i, b, j);
        if Words.And(nodes[i].map_, e2.nodes[j].map_) != e2.nodes[j].map_ { return false; }
        i, j := i + 1, j + 1;
      }
      if j < |e2.nodes| { CoverMissing(a, i, b, j); return false; }
      CoverDone(a, i, b);
      r := true;
    }

    /** Whether the sets overlap. */
    method MatchAny(e2: Bitmap) returns (r: bool)
      requires Valid() && e2.Valid()
      ensures r <==> Contents() * e2.Contents() != {}
    {
      hide *;
      ghost var a, b := nodes, e2.nodes;
      OrderedOf(this);
      OrderedOf(e2);
      MergeStart(AndOp, a, b);
      var i, j := 0, 0;
      while i < |nodes| && j < |e2.nodes|
        invariant Merged(AndOp, [], a, i, b, j) && i <= |a| && j <= |b|
        decreases |a| - i + |b| - j
      {
        if nodes[i].start < e2.nodes[j].start {
          MergeLeft(AndOp, [], a, i, b, j);
          PutNothing([], a[i].start, a[i].map_);
          i := i + 1;
        } else if e2.nodes[j].start < nodes[i].start {
          MergeRight(AndOp, [], a, i, b, j);
          PutNothing([], b[j].start, b[j].map_);
          j := j + 1;
        } else {
          MergeBoth(AndOp, [], a, i, b, j);
          PutCases([], a[i].start, AndOp, a[i].map_, b[j].map_);
          if Words.And(nodes[i].map_, e2.nodes[j].map_) != 0 {
            CommonBit(a, i, b, j);
            return true;
          }
          i, j := i + 1, j + 1;
        }
      }
      MergeRest([], a, i, b, j);
      NothingIn();
      r := false;
    }

    method GetBit(bit: nat) returns (r: bool)
      requires Valid() && bit < LIMIT
      ensures r <==> bit in Contents()
    {
      hide *;
      OrderedOf(this);
      ElementIn(nodes, bit);
      InDef(nodes, bit);
      if highbit < bit { HighAbove(nodes, bit); return false; }
      PassStart(nodes, bit);
      var n := 0;
      while n < |nodes| && nodes[n].start <= bit
        invariant n <= |nodes| && Passed(nodes, n, bit)
      {
        PassStep(nodes, n, bit);
        if nodes[n].start + 64 > bit {
          return Words.And(nodes[n].map_, Bit(bit - nodes[n].start)) != 0;
        }
        n := n + 1;
      }
      PassEnd(nodes, n, bit);
      r := false;
    }

    /** Sets or clears one bit; the last possible word is refused, as its high bit would wrap. */
    method SetBit(bit: nat, value: bool) returns (rc: Status)
      requires Valid() && bit < LIMIT
      modifies this
      ensures Valid()
      ensures rc == Invalid <==> bit >= 0x1_0000_0000 - 64
      ensures rc == Invalid || rc == Fine
      ensures rc == Invalid ==> nodes == old(nodes)
      ensures rc == Fine ==> Contents() == if value then old(Contents()) + {bit} else old(Contents()) - {bit}
    {
      hide *;
      ghost var a := nodes;
      OrderedOf(this);
      BlockFacts(bit);
      var startbit := bit - bit % 64;
      var high := (startbit + 64) % 0x1_0000_0000;
      if high == 0 { return Invalid; }
      PassStart(nodes, bit);
      var n := 0;
      while n < |nodes| && nodes[n].start <= bit
        invariant n <= |nodes| && Passed(nodes, n, bit) && nodes == a && highbit == HighBit(a)
      {
        PassStep(nodes, n, bit);
        if nodes[n].start + 64 > bit {
          if value {
            var map_ := Words.Or(nodes[n].map_, Bit(bit - nodes[n].start));
            SetWord(a, n, bit);
            nodes := nodes[n := BitNode(nodes[n].start, map_)];
          } else {
            var map_ := Words.And(nodes[n].map_, Words.Not(Bit(bit - nodes[n].start)));
            ClearWord(a, n, bit);
            nodes := nodes[n := BitNode(nodes[n].start, map_)];
            if map_ == 0 {
              if n == |nodes| - 1 { highbit := if n > 0 then nodes[n - 1].start + 64 else 0; }
              nodes := nodes[..n] + nodes[n + 1..];
            }
          }
          MadeValid(this);
          ContentsAre(this, this, this);
          return Fine;
        }
        n := n + 1;
      }
      PassEnd(nodes, n, bit);
      if !value {
        MissingStays(a, bit);
        MadeValid(this);
        ContentsAre(this, this, this);
        return Fine;
      }
      NewWord(a, n, bit);
      if n == |nodes| { highbit := high; }
      nodes := nodes[..n] + [BitNode(startbit, Bit(bit - startbit))] + nodes[n..];
      MadeValid(this);
      ContentsAre(this, this, this);
      rc := Fine;
    }

    /** All bits from `minbit` to `maxbit`. */
    method InitRange(minbit: nat, maxbit: nat) returns (rc: Status)
      requires minbit < LIMIT && maxbit < LIMIT
      modifies this
      ensures Valid()
      ensures rc == Invalid <==> minbit > maxbit
      ensures rc == Overflow <==> minbit <= maxbit && maxbit >= 0x1_0000_0000 - 64
      ensures Contents() == if rc == Fine then Interval(minbit, maxbit + 1) else {}
      ensures rc == Fine ==> forall x :: x in Contents() <==> minbit <= x <= maxbit
    {
      hide *;
      nodes, highbit := [], 0;
      CountStart();
      EmptyValid(this);
      if minbit > maxbit { return Invalid; }
      BlockFacts(minbit);
      BlockFacts(maxbit);
      var minstart, maxstart := minbit - minbit % 64, maxbit - maxbit % 64;
      if (minstart + 64) % 0x1_0000_0000 == 0 || (maxstart + 64) % 0x1_0000_0000 == 0 {
        TopBlocks(minbit, maxbit);
        return Overflow;
      }
      RangeStart(minbit, maxbit);
      var startbit := minstart;
      while startbit <= maxstart
        invariant Ranged(nodes, minbit, maxbit, startbit)
        decreases maxstart + 64 - startbit
      {
        var map_;
        if startbit != minstart && startbit != maxstart {
          map_ := ALL;
        } else if startbit != maxstart {
          map_ := Shl(ALL, minbit - startbit);
        } else if startbit != minstart {
          map_ := Shr(ALL, 64 - (maxbit - startbit + 1));
        } else {
          var mask := Shr(ALL, 64 - (maxbit - minbit + 1));
          map_ := Shl(mask, minbit - startbit);
        }
        RangeWordFrom(nodes, minbit, maxbit, startbit, map_);
        RangeStep(nodes, minbit, maxbit, startbit, map_);
        nodes := nodes + [BitNode(startbit, map_)];
        startbit := startbit + 64;
      }
      highbit := maxstart + 64;
      RangeDone(nodes, minbit, maxbit, startbit);
      MadeValid(this);
      ContentsAre(this, this, this);
      IntervalIs(minbit, maxbit + 1);
      rc := Fine;
    }

    /** The for-each-positive-bit walk yields the members in ascending order, each once. */
    method PositiveBits() returns (bits: seq<nat>)
      requires Valid()
      ensures forall x :: x in bits <==> x in Contents()
      ensures forall i, j :: 0 <= i < j < |bits| ==> bits[i] < bits[j]
    {
      hide *;
      OrderedOf(this);
      bits := [];
      if nodes == [] { NothingIn(); return; }
      var n, bit := 0, nodes[0].start;
      WalkStart(nodes);
      while bit < highbit
        invariant n < |nodes| && Walked(nodes, n, bit, bits)
        decreases highbit - bit
      {
        WalkStep(nodes, n, bit, bits);
        if Words.And(nodes[n].map_, Bit(bit - nodes[n].start)) != 0 { bits := bits + [bit]; }
        if bit == nodes[n].start + 63 && n + 1 < |nodes| {
          n := n + 1;
          bit := nodes[n].start;
        } else {
          bit := bit + 1;
        }
      }
      WalkEnd(nodes, n, bit, bits);
    }

    /** The destination becomes the union with another bitmap. */
    method Union(e1: Bitmap)
      requires Valid() && e1.Valid()
      modifies this
      ensures Valid() && Contents() == old(Contents()) + old(e1.Contents())
    {
      var tmp := new Bitmap();
      tmp.Or(this, e1);
      nodes := tmp.nodes;
      highbit := tmp.highbit;
    }
  }

  lemma NoHighBit()
    ensures HighBit([]) == 0
  {
  }

  lemma PutCases(nodes: seq<BitNode>, start: nat, op: WordOp, a: bv64, b: bv64)
    ensures op == AndOp ==>
      Put(nodes, start, Apply(op, a, b)) == if Words.And(a, b) != 0 then nodes + [BitNode(start, Words.And(a, b))] else nodes
    ensures op == XorOp ==>
      Put(nodes, start, Apply(op, a, b)) == if Words.Xor(a, b) != 0 then nodes + [BitNode(start, Words.Xor(a, b))] else nodes
    ensures op == XorOp && b == 0 ==> Words.Xor(a, b) == a
    ensures op == XorOp && a == 0 ==> Words.Xor(a, b) == b
  {
    ApplyZero(op, a);
    ApplyZero(op, b);
    hide Words.And, Words.Xor;
  }

  lemma PutIs(nodes: seq<BitNode>, start: nat, w: bv64)
    ensures Put(nodes, start, w) == if w != 0 then nodes + [BitNode(start, w)] else nodes
  {
  }

  lemma ApplyXor(a: set<nat>, b: set<nat>)
    ensures ApplySet(XorOp, a, b) == (a - b) + (b - a)
  {
  }

  /** The first `n` nodes start below `cur`, the rest not. */
  ghost predicate Reached(a: seq<BitNode>, n: nat, cur: nat) {
    && n <= |a| && Ordered(a) && cur % MAPSIZE == 0
    && (forall k :: 0 <= k < n ==> a[k].start < cur)
    && forall k :: n <= k < |a| ==> a[k].start >= cur
  }

  lemma ReachStart(a: seq<BitNode>)
    requires Ordered(a)
    ensures Reached(a, 0, 0)
  {
  }

  lemma ReachStep(a: seq<BitNode>, n: nat, cur: nat)
    requires Reached(a, n, cur)
    ensures if n < |a| && a[n].start == cur then Reached(a, n + 1, cur + 64) && WordAt(a, cur) == a[n].map_
            else Reached(a, n, cur + 64) && WordAt(a, cur) == 0
  {
    if n < |a| && a[n].start == cur { WordOf(a, n); } else { WordNone(a, cur); }
    hide WordAt;
    forall k | n <= k < |a| && a[k].start > cur ensures a[k].start >= cur + 64 { NextAligned(cur, a[k].start); }
  }

  lemma NextAligned(a: nat, b: nat)
    requires a % MAPSIZE == 0 && b % MAPSIZE == 0 && b > a
    ensures b >= a + MAPSIZE
  {
  }

  lemma NotWordIs(a: seq<BitNode>, cur: nat, maxbit: nat, m: bv64)
    requires cur < maxbit && (m == Words.Not(WordAt(a, cur)) || (WordAt(a, cur) == 0 && m == ALL))
    ensures NotWord(a, cur, maxbit) == if maxbit - cur < 64 then Words.And(m, Less1(Bit(maxbit - cur))) else m
  {
    NotZero();
    hide Words.And, Less1, Bit, Words.Not;
  }

  lemma NegatedOrdered(dst: seq<BitNode>, nodes: seq<BitNode>, cur: nat, maxbit: nat)
    requires Negated(dst, nodes, cur, maxbit)
    ensures Ordered(dst)
  {
  }

  lemma CountStart()
    ensures |Elements([])| == 0
  {
    hide Has;
    forall x: nat ensures !In([], x) { BitOps(0, 0, x % MAPSIZE); }
  }

  lemma CountStep(nodes: seq<BitNode>, i: nat)
    requires Ordered(nodes) && i < |nodes|
    ensures |Elements(nodes[..i + 1])| == |Elements(nodes[..i])| + PopCount(nodes[i].map_)
  {
    var p, n := nodes[..i], nodes[i];
    assert nodes[..i + 1] == p + [n] && Ordered(p + [n]);
    hide Elements, Ordered, BitsOf, PopCount, Shifted;
    ElementsAppend(p, n);
    ShiftedSize(BitsOf(n.map_), n.start);
    PopCountIs(n.map_);
    DisjointSize(Elements(p), Shifted(BitsOf(n.map_), n.start));
  }

  lemma DisjointSize(a: set<nat>, b: set<nat>)
    requires a * b == {}
    ensures |a + b| == |a| + |b|
  {
  }

  lemma OrderedOf(e: Bitmap)
    requires e.Valid()
    ensures Ordered(e.nodes) && e.highbit == HighBit(e.nodes) && e.Contents() == Elements(e.nodes)
  {
  }

  lemma MadeValid(e: Bitmap)
    requires Ordered(e.nodes) && e.highbit == HighBit(e.nodes)
    ensures e.Valid()
  {
  }

  lemma ContentsAre(dst: Bitmap, e1: Bitmap, e2: Bitmap)
    ensures dst.Contents() == Elements(dst.nodes) && e1.Contents() == Elements(e1.nodes) && e2.Contents() == Elements(e2.nodes)
  {
  }

  ghost predicate OrMerged(dst: seq<BitNode>, a: seq<BitNode>, i: nat, b: seq<BitNode>, j: nat) {
    Merged(OrOp, dst, a, i, b, j) && HighBit(dst) == Max(HighBit(a[..i]), HighBit(b[..j]))
  }

  lemma OrStart(a: seq<BitNode>, b: seq<BitNode>)
    requires Ordered(a) && Ordered(b)
    ensures OrMerged([], a, 0, b, 0)
  {
    MergeStart(OrOp, a, b);
    hide Merged;
  }

  lemma PrefixHigh(a: seq<BitNode>, i: nat)
    requires i < |a|
    ensures HighBit(a[..i + 1]) == a[i].start + MAPSIZE
  {
  }

  lemma HighBelow(dst: seq<BitNode>, op: WordOp, a: seq<BitNode>, i: nat, b: seq<BitNode>, j: nat)
    requires Merged(op, dst, a, i, b, j)
    ensures i < |a| ==> HighBit(a[..i]) < a[i].start + MAPSIZE && HighBit(b[..j]) < a[i].start + MAPSIZE
    ensures j < |b| ==> HighBit(a[..i]) < b[j].start + MAPSIZE && HighBit(b[..j]) < b[j].start + MAPSIZE
    ensures i < |a| ==> a[i].map_ != 0
    ensures j < |b| ==> b[j].map_ != 0
    ensures i <= |a| && j <= |b|
  {
    if i < |a| && i > 0 { assert a[i - 1].start < a[i].start && a[..i][i - 1] == a[i - 1]; }
    if j < |b| && j > 0 { assert b[j - 1].start < b[j].start && b[..j][j - 1] == b[j - 1]; }
    hide WordAt, Apply;
  }

  lemma PutHigh(dst: seq<BitNode>, start: nat, w: bv64)
    requires w != 0
    ensures Put(dst, start, w) == dst + [BitNode(start, w)] && HighBit(Put(dst, start, w)) == start + MAPSIZE
  {
  }

  lemma OrBoth(dst: seq<BitNode>, a: seq<BitNode>, i: nat, b: seq<BitNode>, j: nat)
    requires OrMerged(dst, a, i, b, j) && i < |a| && j < |b| && a[i].start == b[j].start
    ensures OrMerged(dst + [BitNode(a[i].start, Words.Or(a[i].map_, b[j].map_))], a, i + 1, b, j + 1)
  {
    MergeBoth(OrOp, dst, a, i, b, j);
    HighBelow(dst, OrOp, a, i, b, j);
    OrNonzero(a[i].map_, b[j].map_);
    PutHigh(dst, a[i].start, Words.Or(a[i].map_, b[j].map_));
    PrefixHigh(a, i);
    PrefixHigh(b, j);
    hide Merged, HighBit, Words.Or;
  }

  lemma OrLeft(dst: seq<BitNode>, a: seq<BitNode>, i: nat, b: seq<BitNode>, j: nat)
    requires OrMerged(dst, a, i, b, j) && i < |a| && (j == |b| || a[i].start < b[j].start)
    ensures OrMerged(dst + [BitNode(a[i].start, a[i].map_)], a, i + 1, b, j)
  {
    MergeLeft(OrOp, dst, a, i, b, j);
    HighBelow(dst, OrOp, a, i, b, j);
    ApplyZero(OrOp, a[i].map_);
    PutHigh(dst, a[i].start, a[i].map_);
    PrefixHigh(a, i);
    hide Merged, HighBit, Apply;
  }

  lemma OrRight(dst: seq<BitNode>, a: seq<BitNode>, i: nat, b: seq<BitNode>, j: nat)
    requires OrMerged(dst, a, i, b, j) && j < |b| && (i == |a| || b[j].start < a[i].start)
    ensures OrMerged(dst + [BitNode(b[j].start, b[j].map_)], a, i, b, j + 1)
  {
    MergeRight(OrOp, dst, a, i, b, j);
    HighBelow(dst, OrOp, a, i, b, j);
    ApplyZero(OrOp, b[j].map_);
    PutHigh(dst, b[j].start, b[j].map_);
    PrefixHigh(b, j);
    hide Merged, HighBit, Apply;
  }

  lemma OrDone(dst: seq<BitNode>, a: seq<BitNode>, b: seq<BitNode>)
    requires OrMerged(dst, a, |a|, b, |b|)
    ensures Ordered(dst) && HighBit(dst) == Max(HighBit(a), HighBit(b))
    ensures Elements(dst) == Elements(a) + Elements(b)
  {
    MergeDone(OrOp, dst, a, b);
    assert a[..|a|] == a && b[..|b|] == b;
    hide Elements, WordAt, Apply;
  }

  function Max(a: nat, b: nat): nat {
    if a > b then a else b
  }

  lemma OrNonzero(a: bv64, b: bv64)
    requires a != 0 && b != 0
    ensures Words.Or(a, b) != 0
  {
  }

  // ---------------------------------------------------------------- subset and overlap

  lemma SubsetWord(a: bv64, b: bv64)
    ensures Words.And(a, b) == b <==> forall k: nat :: k < 64 && Has(b, k) ==> Has(a, k)
  {
    hide Words.And, Has;
    forall k: nat | k < 64 ensures Has(Words.And(a, b), k) <==> Has(a, k) && Has(b, k) { BitOps(a, b, k); }
    if forall k: nat :: k < 64 && Has(b, k) ==> Has(a, k) { BitsDetermine(Words.And(a, b), b); }
  }

  /** The first `j` nodes of `b` are within the first `i` of `a`, and nothing is out of step. */
  ghost predicate CoveredUpTo(a: seq<BitNode>, i: nat, b: seq<BitNode>, j: nat) {
    && Ordered(a) && Ordered(b) && i <= |a| && j <= |b|
    && Below(a[..i], b, j)
    && forall m :: 0 <= m < j ==> Words.And(WordAt(a, b[m].start), b[m].map_) == b[m].map_
  }

  lemma CoverStart(a: seq<BitNode>, b: seq<BitNode>)
    requires Ordered(a) && Ordered(b)
    ensures CoveredUpTo(a, 0, b, 0)
  {
  }

  lemma CoverSkip(a: seq<BitNode>, i: nat, b: seq<BitNode>, j: nat)
    requires CoveredUpTo(a, i, b, j) && i < |a| && j < |b| && a[i].start < b[j].start
    ensures CoveredUpTo(a, i + 1, b, j)
  {
    hide WordAt, Words.And;
  }

  lemma CoverBoth(a: seq<BitNode>, i: nat, b: seq<BitNode>, j: nat)
    requires CoveredUpTo(a, i, b, j) && i < |a| && j < |b| && a[i].start == b[j].start
    ensures Words.And(a[i].map_, b[j].map_) == b[j].map_ ==> CoveredUpTo(a, i + 1, b, j + 1)
    ensures Words.And(a[i].map_, b[j].map_) != b[j].map_ ==> !(Elements(b) <= Elements(a))
  {
    WordOf(a, i);
    WordOf(b, j);
    if Words.And(a[i].map_, b[j].map_) != b[j].map_ { MissingBit(a, b, j); }
    hide WordAt, Words.And, Elements;
  }

  /** A word of `b` not within the word of `a` has a member outside. */
  lemma MissingBit(a: seq<BitNode>, b: seq<BitNode>, j: nat)
    requires Ordered(a) && Ordered(b) && j < |b| && Words.And(WordAt(a, b[j].start), b[j].map_) != b[j].map_
    ensures !(Elements(b) <= Elements(a))
  {
    var start := b[j].start;
    WordOf(b, j);
    hide Words.And, Elements, WordAt, Has;
    SubsetWord(WordAt(a, start), b[j].map_);
    var k: nat :| k < 64 && Has(b[j].map_, k) && !Has(WordAt(a, start), k);
    MemberAt(a, start, k);
    MemberAt(b, start, k);
  }

  lemma ZeroMisses(w: bv64)
    requires w != 0
    ensures Words.And(0, w) != w
  {
  }

  lemma CoverMissing(a: seq<BitNode>, i: nat, b: seq<BitNode>, j: nat)
    requires CoveredUpTo(a, i, b, j) && j < |b| && (i < |a| ==> a[i].start > b[j].start)
    ensures !(Elements(b) <= Elements(a))
  {
    forall k | 0 <= k < |a| ensures a[k].start != b[j].start {
      if k < i { assert a[..i][k] == a[k]; } else if k > i { assert a[i].start < a[k].start; }
    }
    WordNone(a, b[j].start);
    ZeroMisses(b[j].map_);
    MissingBit(a, b, j);
  }

  lemma HighDecides(a: seq<BitNode>, b: seq<BitNode>)
    requires Ordered(a) && Ordered(b) && HighBit(a) < HighBit(b)
    ensures !(Elements(b) <= Elements(a))
  {
    var j := |b| - 1;
    forall k | 0 <= k < |a| ensures a[k].start != b[j].start { assert k < |a| - 1 ==> a[k].start < a[|a| - 1].start; }
    WordNone(a, b[j].start);
    ZeroMisses(b[j].map_);
    MissingBit(a, b, j);
  }

  lemma CoverDone(a: seq<BitNode>, i: nat, b: seq<BitNode>)
    requires CoveredUpTo(a, i, b, |b|)
    ensures Elements(b) <= Elements(a)
  {
    hide Elements, Has, Words.And, Ordered;
    forall x: nat | x in Elements(b) ensures x in Elements(a) {
      assert Ordered(a) && Ordered(b);
      ElementIn(b, x);
      ElementIn(a, x);
      InDef(a, x);
      InDef(b, x);
      BitOps(0, 0, x % MAPSIZE);
      var j := WordNode(b, x - x % MAPSIZE);
      SubsetWord(WordAt(a, b[j].start), b[j].map_);
    }
  }

  lemma CommonBit(a: seq<BitNode>, i: nat, b: seq<BitNode>, j: nat)
    requires Ordered(a) && Ordered(b) && i < |a| && j < |b| && a[i].start == b[j].start && Words.And(a[i].map_, b[j].map_) != 0
    ensures Elements(a) * Elements(b) != {}
  {
    WordOf(a, i);
    WordOf(b, j);
    hide Words.And, Elements, WordAt, Has;
    var k := SomeBit(Words.And(a[i].map_, b[j].map_));
    BitOps(a[i].map_, b[j].map_, k);
    MemberAt(a, a[i].start, k);
    MemberAt(b, b[j].start, k);
    assert a[i].start + k in Elements(a) * Elements(b);
  }

  lemma NothingIn()
    ensures Elements([]) == {}
  {
    hide Has;
    forall x: nat ensures !In([], x) { BitOps(0, 0, x % MAPSIZE); }
  }

  // ---------------------------------------------------------------- single bits

  lemma BlockFacts(bit: nat)
    requires bit < LIMIT
    ensures (bit - bit % 64) % 64 == 0 && bit - bit % 64 <= LIMIT - MAPSIZE
    ensures (bit - bit % 64 + 64) % 0x1_0000_0000 == 0 <==> bit >= LIMIT - MAPSIZE
    ensures (bit - bit % 64 + 64) % 0x1_0000_0000 != 0 ==> (bit - bit % 64 + 64) % 0x1_0000_0000 == bit - bit % 64 + 64
    ensures MAPSIZE == 64 && LIMIT == 0x1_0000_0000
  {
  }

  /** The first `n` nodes end at or before `bit`. */
  ghost predicate Passed(nodes: seq<BitNode>, n: nat, bit: nat) {
    Ordered(nodes) && n <= |nodes| && forall k :: 0 <= k < n ==> nodes[k].start + MAPSIZE <= bit
  }

  lemma PassStart(nodes: seq<BitNode>, bit: nat)
    requires Ordered(nodes)
    ensures Passed(nodes, 0, bit)
  {
  }

  lemma SameBlock(start: nat, bit: nat)
    requires start % MAPSIZE == 0 && start <= bit < start + MAPSIZE
    ensures start == bit - bit % MAPSIZE && bit - start == bit % MAPSIZE < 64
  {
  }

  lemma OtherBlock(start: nat, bit: nat)
    requires start % MAPSIZE == 0 && (start + MAPSIZE <= bit || start > bit)
    ensures start != bit - bit % MAPSIZE
  {
  }

  lemma PassStep(nodes: seq<BitNode>, n: nat, bit: nat)
    requires Passed(nodes, n, bit) && n < |nodes| && nodes[n].start <= bit
    ensures nodes[n].start + 64 <= bit ==> Passed(nodes, n + 1, bit)
    ensures nodes[n].start + 64 > bit ==> bit - nodes[n].start < 64 && nodes[n].start == bit - bit % 64
    ensures nodes[n].start + 64 > bit ==> (Words.And(nodes[n].map_, Bit(bit - nodes[n].start)) != 0 <==> bit in Elements(nodes))
  {
    if nodes[n].start + 64 > bit {
      SameBlock(nodes[n].start, bit);
      WordOf(nodes, n);
      ElementIn(nodes, bit);
      hide Elements, WordAt, Words.And, Bit;
    }
  }

  lemma PassEnd(nodes: seq<BitNode>, n: nat, bit: nat)
    requires Passed(nodes, n, bit) && (n < |nodes| ==> nodes[n].start > bit)
    ensures bit !in Elements(nodes) && WordAt(nodes, bit - bit % 64) == 0
  {
    forall k | 0 <= k < |nodes| ensures nodes[k].start != bit - bit % MAPSIZE {
      assert k > n ==> nodes[n].start < nodes[k].start;
      OtherBlock(nodes[k].start, bit);
    }
    WordNone(nodes, bit - bit % MAPSIZE);
    hide Elements, Has;
    ElementIn(nodes, bit);
    InDef(nodes, bit);
    BitOps(0, 0, bit % MAPSIZE);
  }

  lemma HighAbove(nodes: seq<BitNode>, bit: nat)
    requires Ordered(nodes) && HighBit(nodes) < bit
    ensures bit !in Elements(nodes)
  {
    var n := |nodes|;
    forall k | 0 <= k < n ensures nodes[k].start + MAPSIZE <= bit { assert k < n - 1 ==> nodes[k].start < nodes[n - 1].start; }
    PassEnd(nodes, n, bit);
  }

  /** Replacing one word, possibly by nothing, leaves every other word. */
  lemma ReplaceWord(a: seq<BitNode>, n: nat, m: bv64, w: nat)
    requires Ordered(a) && n < |a|
    ensures m != 0 ==> Ordered(a[n := BitNode(a[n].start, m)]) && HighBit(a[n := BitNode(a[n].start, m)]) == HighBit(a)
    ensures m != 0 ==> WordAt(a[n := BitNode(a[n].start, m)], w) == if w == a[n].start then m else WordAt(a, w)
  {
    if m != 0 {
      var b := a[n := BitNode(a[n].start, m)];
      assert Ordered(b);
      hide Ordered;
      SameStarts(a, b, n, w);
    }
  }

  lemma SameStarts(a: seq<BitNode>, b: seq<BitNode>, n: nat, w: nat)
    requires Ordered(a) && Ordered(b) && |a| == |b| && n < |a|
    requires forall k :: 0 <= k < |a| ==> a[k].start == b[k].start && (k != n ==> a[k] == b[k])
    ensures WordAt(b, w) == if w == a[n].start then b[n].map_ else WordAt(a, w)
  {
    hide WordAt;
    if k :| 0 <= k < |a| && a[k].start == w {
      WordOf(a, k);
      WordOf(b, k);
    } else {
      WordNone(a, w);
      WordNone(b, w);
    }
  }

  lemma DropShape(a: seq<BitNode>, n: nat) returns (b: seq<BitNode>)
    requires Ordered(a) && n < |a|
    ensures b == a[..n] + a[n + 1..] && Ordered(b) && |b| == |a| - 1
    ensures (forall k :: 0 <= k < n ==> b[k] == a[k]) && forall k :: n <= k < |b| ==> b[k] == a[k + 1]
    ensures HighBit(b) == if n < |a| - 1 then HighBit(a) else if n > 0 then a[n - 1].start + MAPSIZE else 0
  {
    b := a[..n] + a[n + 1..];
  }

  lemma DropWord(a: seq<BitNode>, n: nat, w: nat)
    requires Ordered(a) && n < |a|
    ensures Ordered(a[..n] + a[n + 1..])
    ensures HighBit(a[..n] + a[n + 1..]) == if n < |a| - 1 then HighBit(a) else if n > 0 then a[n - 1].start + MAPSIZE else 0
    ensures WordAt(a[..n] + a[n + 1..], w) == if w == a[n].start then 0 else WordAt(a, w)
  {
    hide *;
    var b := DropShape(a, n);
    DropAt(a, b, n, w);
  }

  lemma DropAt(a: seq<BitNode>, b: seq<BitNode>, n: nat, w: nat)
    requires Ordered(a) && Ordered(b) && n < |a| && |b| == |a| - 1
    requires (forall k :: 0 <= k < n ==> b[k] == a[k]) && forall k :: n <= k < |b| ==> b[k] == a[k + 1]
    ensures WordAt(b, w) == if w == a[n].start then 0 else WordAt(a, w)
  {
    assert forall k :: 0 <= k < |a| && k != n ==> a[k].start != a[n].start;
    hide WordAt, Ordered;
    if k :| 0 <= k < |b| && b[k].start == w {
      WordOf(b, k);
      WordOf(a, if k < n then k else k + 1);
    } else {
      WordNone(b, w);
      if w != a[n].start {
        forall k | 0 <= k < |a| ensures a[k].start != w { if k < n { assert b[k] == a[k]; } else if k > n { assert b[k - 1] == a[k]; } }
        WordNone(a, w);
      }
    }
  }

  lemma AddShape(a: seq<BitNode>, n: nat, x: BitNode) returns (b: seq<BitNode>)
    requires Ordered(a) && n <= |a| && x.start % MAPSIZE == 0 && x.start + MAPSIZE < LIMIT && x.map_ != 0
    requires (forall k :: 0 <= k < n ==> a[k].start < x.start) && forall k :: n <= k < |a| ==> x.start < a[k].start
    ensures b == a[..n] + [x] + a[n..] && Ordered(b) && |b| == |a| + 1 && b[n] == x
    ensures (forall k :: 0 <= k < n ==> b[k] == a[k]) && forall k :: n < k < |b| ==> b[k] == a[k - 1]
    ensures HighBit(b) == if n < |a| then HighBit(a) else x.start + MAPSIZE
  {
    b := a[..n] + [x] + a[n..];
  }

  lemma AddWord(a: seq<BitNode>, n: nat, x: BitNode, w: nat)
    requires Ordered(a) && n <= |a| && x.start % MAPSIZE == 0 && x.start + MAPSIZE < LIMIT && x.map_ != 0
    requires (forall k :: 0 <= k < n ==> a[k].start < x.start) && forall k :: n <= k < |a| ==> x.start < a[k].start
    ensures Ordered(a[..n] + [x] + a[n..])
    ensures HighBit(a[..n] + [x] + a[n..]) == if n < |a| then HighBit(a) else x.start + MAPSIZE
    ensures WordAt(a[..n] + [x] + a[n..], w) == if w == x.start then x.map_ else WordAt(a, w)
  {
    hide *;
    var b := AddShape(a, n, x);
    DropAt(b, a, n, w);
    WordOf(b, n);
  }

  function WithBit(w: bv64, k: nat, value: bool): bv64
    requires k < 64
  {
    if value then Words.Or(w, Bit(k)) else Words.And(w, Words.Not(Bit(k)))
  }

  /** One changed word changes one member. */
  lemma OneBit(a: seq<BitNode>, b: seq<BitNode>, bit: nat, value: bool)
    requires Ordered(a) && Ordered(b)
    requires forall w: nat :: WordAt(b, w) == if w == bit - bit % MAPSIZE then WithBit(WordAt(a, w), bit % MAPSIZE, value) else WordAt(a, w)
    ensures Elements(b) == if value then Elements(a) + {bit} else Elements(a) - {bit}
  {
    hide Elements, WordAt, Has, Words.And, Words.Or, Words.Not, Bit, Ordered;
    forall x: nat ensures x in Elements(b) <==> if x == bit then value else x in Elements(a) {
      ElementIn(a, x);
      ElementIn(b, x);
      InDef(a, x);
      InDef(b, x);
      var w, k, m := x - x % MAPSIZE, x % MAPSIZE, Bit(bit % MAPSIZE);
      if w == bit - bit % MAPSIZE {
        BitOps(WordAt(a, w), m, k);
        BitOps(m, m, k);
        BitOps(WordAt(a, w), Words.Not(m), k);
        BitIs(bit % MAPSIZE, k);
      }
    }
  }

  lemma OrNotZero(a: bv64, b: bv64)
    requires a != 0
    ensures Words.Or(a, b) != 0
  {
  }

  lemma SetWord(a: seq<BitNode>, n: nat, bit: nat)
    requires Passed(a, n, bit) && n < |a| && a[n].start <= bit < a[n].start + 64
    ensures bit - a[n].start < 64
    ensures var b := a[n := BitNode(a[n].start, Words.Or(a[n].map_, Bit(bit - a[n].start)))];
      Ordered(b) && HighBit(b) == HighBit(a) && Elements(b) == Elements(a) + {bit}
  {
    SameBlock(a[n].start, bit);
    var m := Words.Or(a[n].map_, Bit(bit - a[n].start));
    var b := a[n := BitNode(a[n].start, m)];
    OrNotZero(a[n].map_, Bit(bit - a[n].start));
    WordOf(a, n);
    assert Ordered(a);
    hide WordAt, Words.Or, Words.And, Words.Not, Bit, Elements, HighBit, Ordered;
    forall w: nat ensures WordAt(b, w) == if w == a[n].start then m else WordAt(a, w) { ReplaceWord(a, n, m, w); }
    ReplaceWord(a, n, m, 0);
    OneBit(a, b, bit, true);
  }

  lemma ClearWord(a: seq<BitNode>, n: nat, bit: nat)
    requires Passed(a, n, bit) && n < |a| && a[n].start <= bit < a[n].start + 64
    ensures bit - a[n].start < 64
    ensures var m := Words.And(a[n].map_, Words.Not(Bit(bit - a[n].start)));
      var replaced := a[n := BitNode(a[n].start, m)];
      var b := if m == 0 then replaced[..n] + replaced[n + 1..] else replaced;
      && Ordered(b) && Elements(b) == Elements(a) - {bit}
      && HighBit(b) == if m != 0 || n < |a| - 1 then HighBit(a) else if n > 0 then a[n - 1].start + 64 else 0
  {
    SameBlock(a[n].start, bit);
    var m := Words.And(a[n].map_, Words.Not(Bit(bit - a[n].start)));
    var replaced := a[n := BitNode(a[n].start, m)];
    var b := if m == 0 then replaced[..n] + replaced[n + 1..] else replaced;
    assert replaced[..n] + replaced[n + 1..] == a[..n] + a[n + 1..];
    WordOf(a, n);
    assert Ordered(a);
    hide WordAt, Words.Or, Words.And, Words.Not, Bit, Elements, HighBit, Ordered;
    forall w: nat ensures WordAt(b, w) == if w == a[n].start then m else WordAt(a, w) {
      ReplaceWord(a, n, m, w);
      DropWord(a, n, w);
    }
    ReplaceWord(a, n, m, 0);
    DropWord(a, n, 0);
    OneBit(a, b, bit, false);
  }

  lemma MissingStays(a: seq<BitNode>, bit: nat)
    requires bit !in Elements(a)
    ensures Elements(a) - {bit} == Elements(a)
  {
  }

  lemma NewWord(a: seq<BitNode>, n: nat, bit: nat)
    requires Passed(a, n, bit) && (n < |a| ==> a[n].start > bit) && bit < LIMIT - MAPSIZE
    ensures var startbit := bit - bit % 64;
      var b := a[..n] + [BitNode(startbit, Bit(bit - startbit))] + a[n..];
      && Ordered(b) && Elements(b) == Elements(a) + {bit}
      && HighBit(b) == if n < |a| then HighBit(a) else startbit + 64
  {
    var startbit := bit - bit % MAPSIZE;
    var x := BitNode(startbit, Bit(bit - startbit));
    var b := a[..n] + [x] + a[n..];
    NewNode(a, n, bit);
    PassEnd(a, n, bit);
    assert Ordered(a);
    hide WordAt, Words.Or, Words.And, Words.Not, Bit, Elements, HighBit, Ordered;
    OrZero(Bit(bit - startbit));
    forall w: nat ensures WordAt(b, w) == if w == startbit then x.map_ else WordAt(a, w) { AddWord(a, n, x, w); }
    AddWord(a, n, x, 0);
    OneBit(a, b, bit, true);
  }

  lemma NewNode(a: seq<BitNode>, n: nat, bit: nat)
    requires Passed(a, n, bit) && (n < |a| ==> a[n].start > bit) && bit < LIMIT - MAPSIZE
    ensures var startbit := bit - bit % MAPSIZE;
      && startbit % MAPSIZE == 0 && startbit + MAPSIZE < LIMIT && Bit(bit - startbit) != 0
      && (forall k :: 0 <= k < n ==> a[k].start < startbit) && forall k :: n <= k < |a| ==> startbit < a[k].start
  {
    Aligned(bit);
    BitHot(bit % MAPSIZE);
    forall k | n <= k < |a| ensures bit < a[k].start { assert k > n ==> a[n].start < a[k].start; }
  }

  lemma OrZero(w: bv64)
    ensures Words.Or(0, w) == w
  {
  }

  // ---------------------------------------------------------------- ranges

  lemma EmptyValid(e: Bitmap)
    requires e.nodes == [] && e.highbit == 0
    ensures e.Valid() && e.Contents() == {}
  {
    NothingIn();
  }

  lemma TopBlocks(minbit: nat, maxbit: nat)
    requires minbit <= maxbit < LIMIT
    ensures minbit >= LIMIT - MAPSIZE ==> maxbit >= LIMIT - MAPSIZE
  {
  }

  /** The blocks of the range before `cur` are there, with the right bits. */
  ghost predicate Ranged(dst: seq<BitNode>, minbit: nat, maxbit: nat, cur: nat) {
    && minbit <= maxbit < LIMIT - MAPSIZE
    && Ordered(dst) && cur % MAPSIZE == 0 && minbit - minbit % MAPSIZE <= cur <= maxbit - maxbit % MAPSIZE + MAPSIZE
    && (forall k :: 0 <= k < |dst| ==> dst[k].start < cur)
    && (forall w: nat, k: nat :: w % MAPSIZE == 0 && k < MAPSIZE ==> (Has(WordAt(dst, w), k) <==> w < cur && minbit <= w + k <= maxbit))
    && (cur > minbit - minbit % MAPSIZE ==> HighBit(dst) == cur)
  }

  lemma RangeStart(minbit: nat, maxbit: nat)
    requires minbit <= maxbit < LIMIT - MAPSIZE
    ensures Ranged([], minbit, maxbit, minbit - minbit % 64)
  {
    Aligned(minbit);
    BlockOrder(minbit, maxbit);
    forall w: nat, k: nat | w % MAPSIZE == 0 && k < MAPSIZE
      ensures !Has(WordAt([], w), k) && (w < minbit - minbit % MAPSIZE ==> w + k < minbit)
    {
      BitOps(0, 0, k);
      hide Has;
      if w < minbit - minbit % MAPSIZE { NextAligned(w, minbit - minbit % MAPSIZE); }
    }
    hide Has;
  }

  lemma BlockOrder(a: nat, b: nat)
    requires a <= b
    ensures a - a % MAPSIZE <= b - b % MAPSIZE
  {
  }

  /** The word the loop builds for a block. */
  ghost predicate RangeWord(minbit: nat, maxbit: nat, cur: nat, m: bv64) {
    var minstart, maxstart := minbit - minbit % 64, maxbit - maxbit % 64;
    && minbit <= maxbit && minstart <= cur <= maxstart
    && if cur != minstart && cur != maxstart then m == ALL
       else if cur != maxstart then m == Shl(ALL, minbit - cur)
       else if cur != minstart then maxbit - cur + 1 <= 64 && m == Shr(ALL, 64 - (maxbit - cur + 1))
       else maxbit - minbit + 1 <= 64 && m == Shl(Shr(ALL, 64 - (maxbit - minbit + 1)), minbit - cur)
  }

  lemma RangeWordFrom(dst: seq<BitNode>, minbit: nat, maxbit: nat, cur: nat, m: bv64)
    requires Ranged(dst, minbit, maxbit, cur) && cur <= maxbit - maxbit % 64
    requires
      var minstart, maxstart := minbit - minbit % 64, maxbit - maxbit % 64;
      if cur != minstart && cur != maxstart then m == ALL
      else if cur != maxstart then m == Shl(ALL, minbit - cur)
      else if cur != minstart then maxbit - cur + 1 <= 64 && m == Shr(ALL, 64 - (maxbit - cur + 1))
      else maxbit - minbit + 1 <= 64 && m == Shl(Shr(ALL, 64 - (maxbit - minbit + 1)), minbit - cur)
    ensures RangeWord(minbit, maxbit, cur, m)
  {
    hide WordAt, Has, Ordered;
  }

  lemma RangeBit(minbit: nat, maxbit: nat, cur: nat, m: bv64, k: nat)
    requires RangeWord(minbit, maxbit, cur, m) && cur % 64 == 0 && k < 64
    ensures Has(m, k) <==> minbit <= cur + k <= maxbit
  {
    var minstart, maxstart := minbit - minbit % 64, maxbit - maxbit % 64;
    BitOps(0, 0, k);
    Aligned(minbit);
    Aligned(maxbit);
    if cur != minstart { NextAligned(minstart, cur); }
    if cur != maxstart { NextAligned(cur, maxstart); }
    hide Has, Shl, Shr;
    if cur != minstart && cur != maxstart {
    } else if cur != maxstart {
      BitShl(ALL, minbit - cur, k);
      if k >= minbit - cur { BitOps(0, 0, k - (minbit - cur)); }
    } else if cur != minstart {
      BitShr(ALL, 64 - (maxbit - cur + 1), k);
      if k + 64 - (maxbit - cur + 1) < 64 { BitOps(0, 0, k + 64 - (maxbit - cur + 1)); }
    } else {
      var n := 64 - (maxbit - minbit + 1);
      BitShl(Shr(ALL, n), minbit - cur, k);
      if k >= minbit - cur {
        BitShr(ALL, n, k - (minbit - cur));
        if k - (minbit - cur) + n < 64 { BitOps(0, 0, k - (minbit - cur) + n); }
      }
    }
  }

  lemma RangeStep(dst: seq<BitNode>, minbit: nat, maxbit: nat, cur: nat, m: bv64)
    requires Ranged(dst, minbit, maxbit, cur) && cur <= maxbit - maxbit % 64 && RangeWord(minbit, maxbit, cur, m)
    ensures Ranged(dst + [BitNode(cur, m)], minbit, maxbit, cur + 64)
  {
    Aligned(minbit);
    Aligned(maxbit);
    RangeNonzero(minbit, maxbit, cur, m);
    if cur != maxbit - maxbit % 64 { NextAligned(cur, maxbit - maxbit % 64); }
    var n := BitNode(cur, m);
    forall w: nat, k: nat | w % MAPSIZE == 0 && k < MAPSIZE
      ensures Has(WordAt(dst + [n], w), k) <==> w < cur + MAPSIZE && minbit <= w + k <= maxbit
    {
      hide Has, RangeWord, WordAt;
      WordAppend(dst, n, w);
      if w == cur { RangeBit(minbit, maxbit, cur, m, k); } else if w > cur { NextAligned(cur, w); }
    }
    hide Has, RangeWord, WordAt;
  }

  lemma RangeNonzero(minbit: nat, maxbit: nat, cur: nat, m: bv64)
    requires RangeWord(minbit, maxbit, cur, m) && cur % 64 == 0
    ensures m != 0
  {
    Aligned(minbit);
    if cur != minbit - minbit % 64 { NextAligned(minbit - minbit % 64, cur); }
    var k := if cur <= minbit then minbit - cur else 0;
    RangeBit(minbit, maxbit, cur, m, k);
    hide RangeWord, Has;
    BitOps(0, 0, k);
  }

  lemma RangeDone(dst: seq<BitNode>, minbit: nat, maxbit: nat, cur: nat)
    requires Ranged(dst, minbit, maxbit, cur) && cur > maxbit - maxbit % 64
    ensures Ordered(dst) && HighBit(dst) == maxbit - maxbit % 64 + 64
    ensures Elements(dst) == Interval(minbit, maxbit + 1)
  {
    Aligned(minbit);
    Aligned(maxbit);
    NextAligned(maxbit - maxbit % 64, cur);
    BlockOrder(minbit, maxbit);
    hide Elements, Has, WordAt, Ordered;
    forall x: nat ensures x in Elements(dst) <==> minbit <= x <= maxbit {
      ElementIn(dst, x);
      InDef(dst, x);
      Aligned(x);
      if x <= maxbit { BlockOrder(x, maxbit); }
      assert Has(WordAt(dst, x - x % MAPSIZE), x % MAPSIZE) <==> x - x % MAPSIZE < cur && minbit <= x <= maxbit;
    }
  }

  // ---------------------------------------------------------------- walking the bits

  /** The walk is at `bit` in node `n`, having yielded the members below. */
  ghost predicate Walked(nodes: seq<BitNode>, n: nat, bit: nat, bits: seq<nat>) {
    && Ordered(nodes) && n < |nodes|
    && nodes[n].start <= bit <= nodes[n].start + 64 && (bit == nodes[n].start + 64 ==> n == |nodes| - 1)
    && (forall x :: x in bits <==> x in Elements(nodes) && x < bit)
    && forall i, j :: 0 <= i < j < |bits| ==> bits[i] < bits[j]
  }

  lemma NothingBelow(nodes: seq<BitNode>, n: nat, x: nat)
    requires Ordered(nodes) && n < |nodes| && x < nodes[n].start && (n > 0 ==> nodes[n - 1].start + MAPSIZE <= x)
    ensures x !in Elements(nodes)
  {
    forall k | 0 <= k < n ensures nodes[k].start + MAPSIZE <= x { assert k < n - 1 ==> nodes[k].start < nodes[n - 1].start; }
    PassEnd(nodes, n, x);
  }

  lemma WalkStart(nodes: seq<BitNode>)
    requires Ordered(nodes) && nodes != []
    ensures Walked(nodes, 0, nodes[0].start, [])
  {
    forall x | 0 <= x < nodes[0].start ensures x !in Elements(nodes) { NothingBelow(nodes, 0, x); }
    hide Elements;
  }

  lemma WalkStep(nodes: seq<BitNode>, n: nat, bit: nat, bits: seq<nat>)
    requires Walked(nodes, n, bit, bits) && bit < HighBit(nodes)
    ensures bit - nodes[n].start < 64 && bit >= nodes[n].start
    ensures
      var on := Words.And(nodes[n].map_, Bit(bit - nodes[n].start)) != 0;
      var bits' := if on then bits + [bit] else bits;
      if bit == nodes[n].start + 63 && n + 1 < |nodes| then Walked(nodes, n + 1, nodes[n + 1].start, bits')
      else Walked(nodes, n, bit + 1, bits')
    ensures bit == nodes[n].start + 63 && n + 1 < |nodes| ==> bit < nodes[n + 1].start <= HighBit(nodes)
  {
    if n < |nodes| - 1 { assert nodes[n].start < nodes[|nodes| - 1].start; }
    SameBlock(nodes[n].start, bit);
    WordOf(nodes, n);
    ElementIn(nodes, bit);
    InDef(nodes, bit);
    if bit == nodes[n].start + 63 && n + 1 < |nodes| {
      NextAligned(nodes[n].start, nodes[n + 1].start);
      assert nodes[n + 1].start <= nodes[|nodes| - 1].start;
      forall x | bit < x < nodes[n + 1].start ensures x !in Elements(nodes) { NothingBelow(nodes, n + 1, x); }
    }
    hide Elements, Words.And, Bit, WordAt, In;
    WalkYield(nodes, bit, bits);
  }

  /** One position more, yielded if it is a member. */
  lemma WalkYield(nodes: seq<BitNode>, bit: nat, bits: seq<nat>)
    requires forall x :: x in bits <==> x in Elements(nodes) && x < bit
    requires forall i, j :: 0 <= i < j < |bits| ==> bits[i] < bits[j]
    ensures var bits' := if bit in Elements(nodes) then bits + [bit] else bits;
      && (forall x :: x in bits' <==> x in Elements(nodes) && x < bit + 1)
      && forall i, j :: 0 <= i < j < |bits'| ==> bits'[i] < bits'[j]
  {
    hide Elements;
    forall i | 0 <= i < |bits| ensures bits[i] < bit { assert bits[i] in bits; }
  }

  lemma WalkEnd(nodes: seq<BitNode>, n: nat, bit: nat, bits: seq<nat>)
    requires Walked(nodes, n, bit, bits) && bit >= HighBit(nodes)
    ensures forall x :: x in bits <==> x in Elements(nodes)
    ensures forall i, j :: 0 <= i < j < |bits| ==> bits[i] < bits[j]
  {
    hide Elements;
    forall x | x in Elements(nodes) ensures x < bit {
      BeyondEnd(nodes, x);
    }
  }

  lemma BeyondEnd(nodes: seq<BitNode>, x: nat)
    requires Ordered(nodes) && x in Elements(nodes)
    ensures x < HighBit(nodes)
  {
    if x > HighBit(nodes) {
      HighAbove(nodes, x);
    } else if x == HighBit(nodes) {
      forall k | 0 <= k < |nodes| ensures nodes[k].start + MAPSIZE <= x { assert k < |nodes| - 1 ==> nodes[k].start < nodes[|nodes| - 1].start; }
      PassEnd(nodes, |nodes|, x);
    }
  }
}
