/**
 The run compression of category sets in printed labels (src/mls.c): the walk over the bits
 of a bitmap emits a category for every run of set bits, then the end of the run. The walk
 skips the gaps between the bitmap's nodes, which the compression does not notice.
 */
module MlsRuns {
  import opened Prelude
  import opened Words
  import opened Ebitmap

  /** One entry of a printed category list. */
  datatype Item = One(a: nat) | Range(a: nat, b: nat)

  /** The entries so far and how many set bits the current run has. */
  datatype Scan = Scan(items: seq<Item>, range: nat)

  /** A run ends: `last` is the position before the current one. */
  function Close(sc: Scan, last: nat): Scan {
    if sc.range > 2 && sc.items != [] then
      Scan(sc.items[..|sc.items| - 1] + [Range(sc.items[|sc.items| - 1].a, last)], 0)
    else if sc.range == 2 then Scan(sc.items + [One(last)], 0)
    else Scan(sc.items, 0)
  }

  function Step(sc: Scan, at: nat, on: bool): Scan {
    if on then (if sc.range > 0 then Scan(sc.items, sc.range + 1) else Scan(sc.items + [One(at)], 1))
    else Close(sc, if at > 0 then at - 1 else 0)
  }

  /** The state after the first `k` visited positions. */
  function ScanUpTo(pos: seq<nat>, on: seq<bool>, k: nat): Scan
    requires |pos| == |on| && k <= |pos|
  {
    if k == 0 then Scan([], 0) else Step(ScanUpTo(pos, on, k - 1), pos[k - 1], on[k - 1])
  }

  /** All entries: the last run is closed at the last position. */
  function ItemsOf(pos: seq<nat>, on: seq<bool>): seq<Item>
    requires |pos| == |on|
  {
    if pos == [] then [] else Close(ScanUpTo(pos, on, |pos|), pos[|pos| - 1]).items
  }

  function Covered(item: Item): set<nat> {
    match item
    case One(a) => {a}
    case Range(a, b) => Interval(a, b + 1)
  }

  /** The categories a list of entries names. */
  function Denote(items: seq<Item>): set<nat> {
    if items == [] then {} else Denote(items[..|items| - 1]) + Covered(items[|items| - 1])
  }

  lemma DenoteAppend(items: seq<Item>, x: Item)
    ensures Denote(items + [x]) == Denote(items) + Covered(x)
  {
    assert (items + [x])[..|items|] == items;
  }

  // ---------------------------------------------------------------- positions with jumps

  predicate Jump(pos: seq<nat>, t: nat)
    requires t < |pos|
  {
    t > 0 && pos[t] != pos[t - 1] + 1
  }

  /** Positions increase, and a jump has no other jump next to it. */
  predicate Visited(pos: seq<nat>) {
    && (forall s, t :: 0 <= s < t < |pos| ==> pos[s] < pos[t])
    && forall t: nat :: t < |pos| && Jump(pos, t) ==>
         t >= 2 && t + 1 < |pos| && pos[t - 1] == pos[t - 2] + 1 && pos[t + 1] == pos[t] + 1
  }

  /** A jump the compression does not survive: a run of two reaches it, or crosses it and goes on. */
  predicate BadJump(pos: seq<nat>, on: seq<bool>, t: nat)
    requires |pos| == |on| && t < |pos|
  {
    t >= 2 && t + 1 < |pos| && Jump(pos, t) && on[t - 1] && (on[t - 2] || (on[t] && on[t + 1]))
  }

  ghost predicate NoBadJump(pos: seq<nat>, on: seq<bool>)
    requires |pos| == |on|
  {
    forall t: nat :: t < |pos| ==> !BadJump(pos, on, t)
  }

  /** The set positions among the first `k`. */
  ghost function SetUpTo(pos: seq<nat>, on: seq<bool>, k: nat): set<nat>
    requires |pos| == |on| && k <= |pos|
  {
    set t: nat | t < k && on[t] :: pos[t]
  }

  /** Positions `lo` to `hi`, exclusive. */
  ghost function Slice(pos: seq<nat>, lo: nat, hi: nat): set<nat>
    requires lo <= hi <= |pos|
  {
    set t: nat | lo <= t < hi :: pos[t]
  }

  // ---------------------------------------------------------------- the run being read

  /** The last `range` positions are the run, whose first has its entry. */
  ghost predicate RunOk(pos: seq<nat>, on: seq<bool>, k: nat)
    requires |pos| == |on| && k <= |pos|
  {
    var sc := ScanUpTo(pos, on, k);
    && sc.range <= k
    && (forall t :: k - sc.range <= t < k ==> on[t])
    && (sc.range < k ==> !on[k - sc.range - 1])
    && (sc.range > 0 ==> sc.items != [] && sc.items[|sc.items| - 1] == One(pos[k - sc.range]))
  }

  lemma {:induction false} RunHolds(pos: seq<nat>, on: seq<bool>, k: nat)
    requires |pos| == |on| && k <= |pos|
    ensures RunOk(pos, on, k)
    decreases k
  {
    if k > 0 { RunHolds(pos, on, k - 1); }
  }

  /** A run with no jump inside is an interval. */
  lemma {:induction false} SliceInterval(pos: seq<nat>, lo: nat, hi: nat)
    requires lo < hi <= |pos| && forall t :: lo < t < hi ==> pos[t] == pos[t - 1] + 1
    ensures Slice(pos, lo, hi) == Interval(pos[lo], pos[hi - 1] + 1)
    ensures pos[lo] <= pos[hi - 1]
    decreases hi
  {
    if hi == lo + 1 {
      assert Slice(pos, lo, hi) == {pos[lo]};
    } else {
      SliceInterval(pos, lo, hi - 1);
      SliceStep(pos, lo, hi - 1);
    }
  }

  lemma SliceStep(pos: seq<nat>, lo: nat, hi: nat)
    requires lo <= hi < |pos|
    ensures Slice(pos, lo, hi + 1) == Slice(pos, lo, hi) + {pos[hi]}
  {
    var a, b := Slice(pos, lo, hi), Slice(pos, lo, hi + 1);
    forall x ensures x in b <==> x in a || x == pos[hi] {
      if x in b { var t: nat :| lo <= t < hi + 1 && pos[t] == x; }
      if x in a { var t: nat :| lo <= t < hi && pos[t] == x; }
    }
  }

  lemma SetStep(pos: seq<nat>, on: seq<bool>, k: nat)
    requires |pos| == |on| && k < |pos|
    ensures SetUpTo(pos, on, k + 1) == if on[k] then SetUpTo(pos, on, k) + {pos[k]} else SetUpTo(pos, on, k)
  {
    var a, b := SetUpTo(pos, on, k), SetUpTo(pos, on, k + 1);
    forall x ensures x in b <==> x in a || (on[k] && x == pos[k]) {
      if x in b { var t: nat :| t < k + 1 && on[t] && pos[t] == x; }
      if x in a { var t: nat :| t < k && on[t] && pos[t] == x; }
    }
  }

  /** Without a bad jump a long run has no jump inside, nor before the position that ends it. */
  lemma RunUnbroken(pos: seq<nat>, on: seq<bool>, lo: nat, k: nat)
    requires |pos| == |on| && Visited(pos) && NoBadJump(pos, on) && lo + 2 <= k <= |pos|
    requires forall t :: lo <= t < k ==> on[t]
    ensures k < |pos| ==> !Jump(pos, k)
    ensures k - lo > 2 ==> forall t :: lo < t < k ==> pos[t] == pos[t - 1] + 1
  {
    assert k < |pos| ==> !BadJump(pos, on, k);
    forall t: nat | k - lo > 2 && lo < t < k ensures pos[t] == pos[t - 1] + 1 {
      assert !BadJump(pos, on, t) && (Jump(pos, t) ==> t >= 2 && t + 1 < |pos|);
    }
  }

  lemma CloseLong(pos: seq<nat>, items: seq<Item>, lo: nat, k: nat)
    requires lo < k <= |pos| && items != [] && items[|items| - 1] == One(pos[lo])
    requires forall t :: lo < t < k ==> pos[t] == pos[t - 1] + 1
    ensures Denote(items[..|items| - 1] + [Range(pos[lo], pos[k - 1])]) == Denote(items) + Slice(pos, lo, k)
  {
    SliceInterval(pos, lo, k);
    DenoteAppend(items[..|items| - 1], Range(pos[lo], pos[k - 1]));
    DenoteSplit(items);
    hide Denote, Slice;
  }

  lemma CloseTwo(pos: seq<nat>, items: seq<Item>, lo: nat)
    requires lo + 2 <= |pos| && items != [] && items[|items| - 1] == One(pos[lo])
    ensures Denote(items + [One(pos[lo + 1])]) == Denote(items) + Slice(pos, lo, lo + 2)
  {
    SliceTwo(pos, lo);
    DenoteAppend(items, One(pos[lo + 1]));
    DenoteSplit(items);
    hide Denote, Slice;
  }

  lemma CloseOne(pos: seq<nat>, items: seq<Item>, lo: nat)
    requires lo + 1 <= |pos| && items != [] && items[|items| - 1] == One(pos[lo])
    ensures Denote(items) == Denote(items) + Slice(pos, lo, lo + 1)
  {
    SliceStep(pos, lo, lo);
    SliceNone(pos, lo);
    DenoteSplit(items);
    hide Denote, Slice;
  }

  lemma SliceNone(pos: seq<nat>, k: nat)
    requires k <= |pos|
    ensures Slice(pos, k, k) == {}
  {
  }

  lemma BeforeEnd(pos: seq<nat>, k: nat)
    requires 0 < k <= |pos|
    ensures k < |pos| && !Jump(pos, k) ==> pos[k] - 1 == pos[k - 1]
  {
  }

  /** Closing a run completes the categories it names. */
  lemma CloseNames(pos: seq<nat>, on: seq<bool>, k: nat, last: nat)
    requires |pos| == |on| && Visited(pos) && NoBadJump(pos, on) && 0 < k <= |pos| && RunOk(pos, on, k)
    requires k < |pos| ==> last == pos[k] - 1
    requires k == |pos| ==> last == pos[k - 1]
    ensures var sc := ScanUpTo(pos, on, k);
      sc.range <= k && Denote(Close(sc, last).items) == Denote(sc.items) + Slice(pos, k - sc.range, k)
  {
    hide ScanUpTo, NoBadJump, Visited, Denote, Slice, BadJump, Covered, Jump;
    var sc := ScanUpTo(pos, on, k);
    var lo := k - sc.range;
    BeforeEnd(pos, k);
    if sc.range >= 2 {
      RunUnbroken(pos, on, lo, k);
    }
    if sc.range > 2 {
      CloseLong(pos, sc.items, lo, k);
    } else if sc.range == 2 {
      CloseTwo(pos, sc.items, lo);
    } else if sc.range == 1 {
      CloseOne(pos, sc.items, lo);
    } else {
      SliceNone(pos, k);
    }
  }

  lemma SliceTwo(pos: seq<nat>, lo: nat)
    requires lo + 2 <= |pos|
    ensures Slice(pos, lo, lo + 2) == {pos[lo], pos[lo + 1]}
  {
    SliceStep(pos, lo, lo);
    SliceStep(pos, lo, lo + 1);
    assert Slice(pos, lo, lo) == {};
  }

  lemma DenoteSplit(items: seq<Item>)
    requires items != []
    ensures Denote(items) == Denote(items[..|items| - 1]) + Covered(items[|items| - 1])
  {
  }

  /** Entries and open run together name `all`. */
  ghost predicate Names(pos: seq<nat>, k: nat, sc: Scan, all: set<nat>)
    requires k <= |pos|
  {
    sc.range <= k && Denote(sc.items) + Slice(pos, k - sc.range, k) == all
  }

  lemma StepOn(pos: seq<nat>, k: nat, sc: Scan, all: set<nat>)
    requires k < |pos| && Names(pos, k, sc, all)
    ensures Names(pos, k + 1, Step(sc, pos[k], true), all + {pos[k]})
  {
    SliceStep(pos, k - sc.range, k);
    SliceNone(pos, k);
    DenoteAppend(sc.items, One(pos[k]));
    hide Denote, Slice;
  }

  lemma StepOff(pos: seq<nat>, on: seq<bool>, k: nat, all: set<nat>)
    requires |pos| == |on| && Visited(pos) && NoBadJump(pos, on) && k < |pos|
    requires Names(pos, k, ScanUpTo(pos, on, k), all)
    ensures Names(pos, k + 1, Step(ScanUpTo(pos, on, k), pos[k], false), all)
  {
    hide *;
    RunHolds(pos, on, k);
    SliceNone(pos, k + 1);
    if k > 0 {
      Increasing(pos, k);
      CloseNames(pos, on, k, pos[k] - 1);
      NamesClosed(pos, k, ScanUpTo(pos, on, k), all, pos[k] - 1);
    } else {
      StartClosed(pos, on, all);
    }
  }

  lemma Increasing(pos: seq<nat>, k: nat)
    requires Visited(pos) && 0 < k < |pos|
    ensures pos[k - 1] < pos[k]
  {
  }

  lemma NamesClosed(pos: seq<nat>, k: nat, sc: Scan, all: set<nat>, last: nat)
    requires 0 < k < |pos| && Names(pos, k, sc, all) && last + 1 == pos[k]
    requires sc.range <= k && Denote(Close(sc, last).items) == Denote(sc.items) + Slice(pos, k - sc.range, k)
    ensures Names(pos, k + 1, Step(sc, pos[k], false), all)
  {
    SliceNone(pos, k + 1);
    hide Denote, Slice;
  }

  lemma StartClosed(pos: seq<nat>, on: seq<bool>, all: set<nat>)
    requires |pos| == |on| && 0 < |pos| && Names(pos, 0, ScanUpTo(pos, on, 0), all)
    ensures Names(pos, 1, Step(ScanUpTo(pos, on, 0), pos[0], false), all)
  {
    SliceNone(pos, 0);
    SliceNone(pos, 1);
  }

  lemma {:induction false} ScanNames(pos: seq<nat>, on: seq<bool>, k: nat)
    requires |pos| == |on| && Visited(pos) && NoBadJump(pos, on) && k <= |pos|
    ensures Names(pos, k, ScanUpTo(pos, on, k), SetUpTo(pos, on, k))
    decreases k
  {
    hide NoBadJump, Visited, Names, SetUpTo, Step;
    if k > 0 {
      ScanNames(pos, on, k - 1);
      SetStep(pos, on, k - 1);
      if on[k - 1] {
        StepOn(pos, k - 1, ScanUpTo(pos, on, k - 1), SetUpTo(pos, on, k - 1));
      } else {
        StepOff(pos, on, k - 1, SetUpTo(pos, on, k - 1));
      }
    } else {
      NamesNone(pos, on);
    }
  }

  lemma NamesNone(pos: seq<nat>, on: seq<bool>)
    requires |pos| == |on|
    ensures Names(pos, 0, Scan([], 0), SetUpTo(pos, on, 0))
  {
    SliceNone(pos, 0);
    assert SetUpTo(pos, on, 0) == {};
  }

  /** Without a bad jump the entries name exactly the set positions. */
  lemma ItemsExact(pos: seq<nat>, on: seq<bool>)
    requires |pos| == |on| && Visited(pos) && NoBadJump(pos, on)
    ensures Denote(ItemsOf(pos, on)) == SetUpTo(pos, on, |pos|)
  {
    ScanNames(pos, on, |pos|);
    RunHolds(pos, on, |pos|);
    if pos != [] {
      CloseNames(pos, on, |pos|, pos[|pos| - 1]);
      hide Denote, Slice, NoBadJump, Visited, RunOk, SetUpTo, ScanUpTo;
    } else {
      SliceNone(pos, 0);
    }
  }

  // ---------------------------------------------------------------- a bad jump shows

  lemma ItemsKeep(sc: Scan, at: nat, on: bool, x: nat)
    requires x in Denote(sc.items)
    requires sc.range > 0 ==> sc.items != [] && sc.items[|sc.items| - 1].One? && (sc.range > 2 ==> sc.items[|sc.items| - 1].a < at)
    ensures x in Denote(Step(sc, at, on).items)
  {
    var n := |sc.items| - 1;
    if on {
      DenoteAppend(sc.items, One(at));
    } else {
      var last := if at > 0 then at - 1 else 0;
      DenoteAppend(sc.items, One(last));
      if sc.range > 2 {
        DenoteAppend(sc.items[..n], Range(sc.items[n].a, last));
        DenoteSplit(sc.items);
      }
    }
    hide Denote;
  }

  lemma CloseKeeps(sc: Scan, last: nat, x: nat)
    requires x in Denote(sc.items)
    requires sc.range > 0 ==> sc.items != [] && sc.items[|sc.items| - 1].One? && sc.items[|sc.items| - 1].a <= last
    ensures x in Denote(Close(sc, last).items)
  {
    var n := |sc.items| - 1;
    DenoteAppend(sc.items, One(last));
    if sc.range > 2 {
      DenoteAppend(sc.items[..n], Range(sc.items[n].a, last));
      DenoteSplit(sc.items);
    }
    hide Denote;
  }

  /** A run closed over `x` names it. */
  lemma CloseOver(sc: Scan, last: nat, x: nat)
    requires sc.range >= 2 && sc.items != [] && sc.items[|sc.items| - 1].One? && sc.items[|sc.items| - 1].a <= x <= last
    requires sc.range == 2 ==> x == last
    ensures x in Denote(Close(sc, last).items)
  {
    var n := |sc.items| - 1;
    DenoteAppend(sc.items, One(last));
    DenoteAppend(sc.items[..n], Range(sc.items[n].a, last));
    hide Denote;
  }

  /** From the bad jump on, the position before it is named, or the run across it is still open. */
  ghost predicate Spoilt(pos: seq<nat>, on: seq<bool>, t: nat, k: nat)
    requires |pos| == |on| && 0 < t < k <= |pos|
  {
    var sc := ScanUpTo(pos, on, k);
    pos[t] > 0 && (pos[t] - 1 in Denote(sc.items) || (sc.range <= k && k - sc.range < t && on[t]))
  }

  lemma SpoiltStart(pos: seq<nat>, on: seq<bool>, t: nat)
    requires |pos| == |on| && Visited(pos) && t < |pos| && BadJump(pos, on, t)
    ensures Spoilt(pos, on, t, t + 1)
  {
    RunHolds(pos, on, t);
    RunHolds(pos, on, t + 1);
    var sc := ScanUpTo(pos, on, t);
    assert pos[t - 1] < pos[t];
    if !on[t] {
      assert sc.range >= 2;
      assert pos[t - sc.range] < pos[t];
      hide Denote, Visited;
      CloseOver(sc, pos[t] - 1, pos[t] - 1);
    }
  }

  lemma SpoiltStep(pos: seq<nat>, on: seq<bool>, t: nat, k: nat)
    requires |pos| == |on| && Visited(pos) && t < k < |pos| && BadJump(pos, on, t) && Spoilt(pos, on, t, k)
    ensures Spoilt(pos, on, t, k + 1)
  {
    RunHolds(pos, on, k);
    RunHolds(pos, on, k + 1);
    var sc := ScanUpTo(pos, on, k);
    assert sc.range > 0 ==> pos[k - sc.range] < pos[k];
    assert pos[t] < pos[k];
    if pos[t] - 1 in Denote(sc.items) {
      hide Denote, Visited;
      ItemsKeep(sc, pos[k], on[k], pos[t] - 1);
    } else if !on[k] {
      assert k - sc.range <= t - 1 ==> pos[k - sc.range] <= pos[t - 1];
      assert pos[t - 1] < pos[t];
      assert sc.range > 2 by { OpenIsLong(pos, on, t, k); }
      hide Denote, Visited;
      CloseOver(sc, pos[k] - 1, pos[t] - 1);
    }
  }

  /** A run across a bad jump that is about to end is longer than two. */
  lemma OpenIsLong(pos: seq<nat>, on: seq<bool>, t: nat, k: nat)
    requires |pos| == |on| && t < k <= |pos| && BadJump(pos, on, t) && on[t]
    requires RunOk(pos, on, k) && k - ScanUpTo(pos, on, k).range < t
    requires k < |pos| ==> !on[k]
    ensures ScanUpTo(pos, on, k).range > 2
  {
    hide ScanUpTo, Jump;
  }

  lemma {:induction false} SpoiltLater(pos: seq<nat>, on: seq<bool>, t: nat, k: nat)
    requires |pos| == |on| && Visited(pos) && t < k <= |pos| && BadJump(pos, on, t)
    ensures t > 0 && Spoilt(pos, on, t, k)
    decreases k
  {
    hide Visited, Spoilt;
    if k == t + 1 {
      SpoiltStart(pos, on, t);
    } else {
      SpoiltLater(pos, on, t, k - 1);
      SpoiltStep(pos, on, t, k - 1);
    }
  }

  /** A bad jump makes the entries name a position in the gap before it. */
  lemma BadJumpShows(pos: seq<nat>, on: seq<bool>, t: nat)
    requires |pos| == |on| && Visited(pos) && t < |pos| && BadJump(pos, on, t)
    ensures pos[t] > 0 && pos[t] - 1 in Denote(ItemsOf(pos, on))
    ensures pos[t] - 1 !in SetUpTo(pos, on, |pos|)
  {
    var k, last := |pos|, pos[|pos| - 1];
    SpoiltLater(pos, on, t, k);
    RunHolds(pos, on, k);
    var sc := ScanUpTo(pos, on, k);
    assert pos[t - 1] < pos[t];
    assert pos[t] <= last;
    assert sc.range > 0 ==> pos[k - sc.range] <= last;
    NotVisited(pos, on, t);
    if pos[t] - 1 in Denote(sc.items) {
      hide Denote, Visited;
      CloseKeeps(sc, last, pos[t] - 1);
    } else {
      assert k - sc.range <= t - 1 ==> pos[k - sc.range] <= pos[t - 1];
      OpenIsLong(pos, on, t, k);
      hide Denote, Visited;
      CloseOver(sc, last, pos[t] - 1);
    }
  }

  lemma NotVisited(pos: seq<nat>, on: seq<bool>, t: nat)
    requires |pos| == |on| && Visited(pos) && t < |pos| && BadJump(pos, on, t)
    ensures pos[t] > 0 && pos[t] - 1 !in SetUpTo(pos, on, |pos|)
  {
    assert pos[t - 1] < pos[t];
    forall s | 0 <= s < |pos| ensures pos[s] != pos[t] - 1 {
      if s < t - 1 { assert pos[s] < pos[t - 1]; } else if s > t { assert pos[t] < pos[s]; }
    }
  }

  /** The entries name exactly the set positions if and only if there is no bad jump. */
  lemma ItemsExactly(pos: seq<nat>, on: seq<bool>)
    requires |pos| == |on| && Visited(pos)
    ensures Denote(ItemsOf(pos, on)) == SetUpTo(pos, on, |pos|) <==> NoBadJump(pos, on)
  {
    hide Visited, Denote, ItemsOf, SetUpTo, BadJump;
    if NoBadJump(pos, on) {
      ItemsExact(pos, on);
    } else {
      var t: nat :| t < |pos| && BadJump(pos, on, t);
      BadJumpShows(pos, on, t);
    }
  }

  // ---------------------------------------------------------------- the positions of a bitmap

  /** The positions the for-each-bit walk visits: every place of every node. */
  function PosOf(nodes: seq<BitNode>): (pos: seq<nat>)
    ensures |pos| == 64 * |nodes|
  {
    seq(64 * |nodes|, t requires 0 <= t < 64 * |nodes| => nodes[t / 64].start + t % 64)
  }

  function OnOf(nodes: seq<BitNode>): (on: seq<bool>)
    ensures |on| == 64 * |nodes|
  {
    seq(64 * |nodes|, t requires 0 <= t < 64 * |nodes| => Has(nodes[t / 64].map_, t % 64))
  }

  /** Where two neighbouring nodes leave a gap, no run of two reaches it and none goes on across it. */
  predicate GapOk(m: BitNode, n: BitNode) {
    n.start != m.start + 64 && Has(m.map_, 63) ==> !Has(m.map_, 62) && !(Has(n.map_, 0) && Has(n.map_, 1))
  }

  predicate GapsOk(nodes: seq<BitNode>) {
    forall k :: 0 < k < |nodes| ==> GapOk(nodes[k - 1], nodes[k])
  }

  lemma Places(n: nat, k: nat)
    requires k < 64
    ensures (64 * n + k) / 64 == n && (64 * n + k) % 64 == k
  {
  }

  lemma PosAt(nodes: seq<BitNode>, n: nat, k: nat)
    requires n < |nodes| && k < 64
    ensures 64 * n + k < |PosOf(nodes)|
    ensures PosOf(nodes)[64 * n + k] == nodes[n].start + k
    ensures OnOf(nodes)[64 * n + k] == Has(nodes[n].map_, k)
  {
    Places(n, k);
    hide Has;
  }

  lemma Place(t: nat)
    ensures t == 64 * (t / 64) + t % 64 && t % 64 < 64
  {
  }

  lemma PosIncreases(nodes: seq<BitNode>, s: nat, t: nat)
    requires Ordered(nodes) && s < t < 64 * |nodes|
    ensures PosOf(nodes)[s] < PosOf(nodes)[t]
  {
    var a, b := s / 64, t / 64;
    if a < b {
      assert nodes[a].start < nodes[b].start;
      NextAligned(nodes[a].start, nodes[b].start);
    }
  }

  lemma PosHere(nodes: seq<BitNode>, t: nat)
    requires t < 64 * |nodes|
    ensures t / 64 < |nodes| && PosOf(nodes)[t] == nodes[t / 64].start + t % 64
  {
  }

  lemma PrevPlace(t: nat)
    requires t > 0
    ensures (t - 1) / 64 == if t % 64 > 0 then t / 64 else t / 64 - 1
    ensures (t - 1) % 64 == if t % 64 > 0 then t % 64 - 1 else 63
    ensures t % 64 == 0 ==> t >= 64
  {
  }

  lemma NodeEnd(n: nat, t: nat)
    requires t < 64 * n && t % 64 == 0
    ensures t + 63 < 64 * n
  {
  }

  lemma JumpPlace(nodes: seq<BitNode>, t: nat)
    requires Ordered(nodes) && 0 < t < 64 * |nodes| && Jump(PosOf(nodes), t)
    ensures t % 64 == 0 && t >= 64 && t + 63 < 64 * |nodes| && nodes[t / 64].start != nodes[t / 64 - 1].start + 64
    ensures PosOf(nodes)[t] == nodes[t / 64].start
  {
    hide PosOf, Ordered;
    PosHere(nodes, t);
    PosHere(nodes, t - 1);
    PrevPlace(t);
    if t % 64 == 0 { NodeEnd(|nodes|, t); }
  }

  /** The places around a node boundary. */
  lemma Boundary(nodes: seq<BitNode>, n: nat)
    requires 0 < n < |nodes|
    ensures 64 * n >= 64 && 64 * n + 1 < 64 * |nodes|
    ensures PosOf(nodes)[64 * n - 2] == nodes[n - 1].start + 62 && PosOf(nodes)[64 * n - 1] == nodes[n - 1].start + 63
    ensures PosOf(nodes)[64 * n] == nodes[n].start && PosOf(nodes)[64 * n + 1] == nodes[n].start + 1
    ensures OnOf(nodes)[64 * n - 2] == Has(nodes[n - 1].map_, 62) && OnOf(nodes)[64 * n - 1] == Has(nodes[n - 1].map_, 63)
    ensures OnOf(nodes)[64 * n] == Has(nodes[n].map_, 0) && OnOf(nodes)[64 * n + 1] == Has(nodes[n].map_, 1)
  {
    hide PosOf, OnOf, Has;
    PosAt(nodes, n - 1, 62);
    PosAt(nodes, n - 1, 63);
    PosAt(nodes, n, 0);
    PosAt(nodes, n, 1);
  }

  lemma JumpIsolated(nodes: seq<BitNode>, t: nat)
    requires Ordered(nodes) && t < 64 * |nodes| && Jump(PosOf(nodes), t)
    ensures t >= 2 && t + 1 < 64 * |nodes|
    ensures PosOf(nodes)[t - 1] == PosOf(nodes)[t - 2] + 1 && PosOf(nodes)[t + 1] == PosOf(nodes)[t] + 1
  {
    hide PosOf, OnOf, Ordered;
    JumpPlace(nodes, t);
    Place(t);
    Boundary(nodes, t / 64);
  }

  lemma PosVisited(nodes: seq<BitNode>)
    requires Ordered(nodes)
    ensures Visited(PosOf(nodes))
  {
    hide PosOf, Ordered, Jump;
    var pos := PosOf(nodes);
    forall s: nat, t: nat | s < t < |pos| ensures pos[s] < pos[t] { PosIncreases(nodes, s, t); }
    forall t: nat | t < |pos| && Jump(pos, t)
      ensures t >= 2 && t + 1 < |pos| && pos[t - 1] == pos[t - 2] + 1 && pos[t + 1] == pos[t] + 1
    {
      JumpIsolated(nodes, t);
    }
  }

  lemma BitMember(nodes: seq<BitNode>, n: nat, k: nat)
    requires Ordered(nodes) && n < |nodes| && k < 64
    ensures Has(nodes[n].map_, k) <==> nodes[n].start + k in Elements(nodes)
  {
    WordOf(nodes, n);
    MemberAt(nodes, nodes[n].start, k);
  }

  /** The walk is at bit `i` of node `n`, having visited the first `t` positions. */
  ghost predicate Walking(nodes: seq<BitNode>, n: nat, i: nat, t: nat) {
    && n < |nodes| && nodes[n].start <= i <= nodes[n].start + 64 && t == 64 * n + (i - nodes[n].start)
    && (i == nodes[n].start + 64 ==> n == |nodes| - 1)
  }

  lemma WalkFirst(nodes: seq<BitNode>)
    requires nodes != []
    ensures Walking(nodes, 0, nodes[0].start, 0)
  {
  }

  /** The bit the walk is at, and where it goes next. */
  lemma WalkNext(nodes: seq<BitNode>, n: nat, i: nat, t: nat)
    requires Ordered(nodes) && Walking(nodes, n, i, t) && i < HighBit(nodes)
    ensures 0 <= i - nodes[n].start < 64 && t < 64 * |nodes|
    ensures PosOf(nodes)[t] == i && OnOf(nodes)[t] == Has(nodes[n].map_, i - nodes[n].start)
    ensures if i == nodes[n].start + 63 && n + 1 < |nodes|
            then Walking(nodes, n + 1, nodes[n + 1].start, t + 1) && i < nodes[n + 1].start <= HighBit(nodes)
            else Walking(nodes, n, i + 1, t + 1)
  {
    hide PosOf, OnOf, Has, Ordered, HighBit;
    NodeOrder(nodes, n);
    PosAt(nodes, n, i - nodes[n].start);
  }

  lemma NodeOrder(nodes: seq<BitNode>, n: nat)
    requires Ordered(nodes) && n < |nodes|
    ensures n + 1 < |nodes| ==> nodes[n].start + 64 <= nodes[n + 1].start && nodes[n + 1].start + 64 <= HighBit(nodes)
    ensures n == |nodes| - 1 ==> HighBit(nodes) == nodes[n].start + 64
  {
    if n + 1 < |nodes| {
      NextAligned(nodes[n].start, nodes[n + 1].start);
      assert nodes[n + 1].start <= nodes[|nodes| - 1].start;
    }
  }

  lemma WalkLast(nodes: seq<BitNode>, n: nat, i: nat, t: nat)
    requires Ordered(nodes) && Walking(nodes, n, i, t) && i >= HighBit(nodes)
    ensures t == 64 * |nodes| == |PosOf(nodes)| && t > 0 && i == PosOf(nodes)[t - 1] + 1
  {
    hide PosOf, OnOf, Has;
    LastStart(nodes, n);
    PosAt(nodes, |nodes| - 1, 63);
  }

  lemma LastStart(nodes: seq<BitNode>, n: nat)
    requires Ordered(nodes) && n < |nodes|
    ensures n < |nodes| - 1 ==> nodes[n].start + 64 < HighBit(nodes)
  {
  }

  /** The set positions are the members. */
  lemma PosMembers(nodes: seq<BitNode>)
    requires Ordered(nodes)
    ensures SetUpTo(PosOf(nodes), OnOf(nodes), 64 * |nodes|) == Elements(nodes)
  {
    hide Has, Elements, Ordered, PosOf, OnOf;
    var pos, on := PosOf(nodes), OnOf(nodes);
    forall x: nat ensures x in SetUpTo(pos, on, |pos|) <==> x in Elements(nodes) {
      if x in SetUpTo(pos, on, |pos|) {
        var t: nat :| t < |pos| && on[t] && pos[t] == x;
        Place(t);
        PosAt(nodes, t / 64, t % 64);
        BitMember(nodes, t / 64, t % 64);
      }
      if x in Elements(nodes) {
        var n := MemberNode(nodes, x);
        BitMember(nodes, n, x - nodes[n].start);
        PosAt(nodes, n, x - nodes[n].start);
        assert pos[64 * n + (x - nodes[n].start)] == x;
      }
    }
  }

  lemma MemberNode(nodes: seq<BitNode>, x: nat) returns (n: nat)
    requires Ordered(nodes) && x in Elements(nodes)
    ensures n < |nodes| && nodes[n].start <= x < nodes[n].start + 64
  {
    BitOps(0, 0, x % MAPSIZE);
    n := WordNode(nodes, x - x % MAPSIZE);
  }

  lemma JumpAt(nodes: seq<BitNode>, n: nat)
    requires Ordered(nodes) && 0 < n < |nodes|
    ensures BadJump(PosOf(nodes), OnOf(nodes), 64 * n) <==> !GapOk(nodes[n - 1], nodes[n])
  {
    hide PosOf, OnOf, Has, Ordered;
    Boundary(nodes, n);
  }

  lemma GapsExactly(nodes: seq<BitNode>)
    requires Ordered(nodes)
    ensures NoBadJump(PosOf(nodes), OnOf(nodes)) <==> GapsOk(nodes)
  {
    hide Has, PosOf, OnOf, Ordered, GapOk;
    var pos, on := PosOf(nodes), OnOf(nodes);
    if GapsOk(nodes) {
      forall t: nat | t < |pos| ensures !BadJump(pos, on, t) {
        if Jump(pos, t) {
          JumpPlace(nodes, t);
          Place(t);
          JumpAt(nodes, t / 64);
        }
      }
    }
    if NoBadJump(pos, on) {
      forall k | 0 < k < |nodes| ensures GapOk(nodes[k - 1], nodes[k]) { JumpAt(nodes, k); }
    }
  }

  /** The entries printed for a bitmap. */
  function Entries(nodes: seq<BitNode>): seq<Item> {
    ItemsOf(PosOf(nodes), OnOf(nodes))
  }

  /** They name exactly the members if and only if the gaps are harmless. */
  lemma EntriesExactly(nodes: seq<BitNode>)
    requires Ordered(nodes)
    ensures Denote(Entries(nodes)) == Elements(nodes) <==> GapsOk(nodes)
  {
    PosVisited(nodes);
    PosMembers(nodes);
    GapsExactly(nodes);
    ItemsExactly(PosOf(nodes), OnOf(nodes));
    hide Elements, Denote, ItemsOf, PosOf, OnOf, Visited, Ordered;
  }

  /** Categories c62 and c63, then a gap, then c130: the printed list names c127 instead of c63. */
  lemma GapMisprinted()
    ensures
      var nodes := [BitNode(0, Or(Bit(62), Bit(63))), BitNode(128, Bit(2))];
      Ordered(nodes) && Denote(Entries(nodes)) != Elements(nodes)
  {
    hide Elements, Denote, Entries, Has, Bit, Or, Shl, Hot;
    var m, n := BitNode(0, Or(Bit(62), Bit(63))), BitNode(128, Bit(2));
    BitNonzero(62);
    BitNonzero(63);
    BitNonzero(2);
    OrNonzero(Bit(62), Bit(63));
    BitOps(Bit(62), Bit(63), 62);
    BitOps(Bit(62), Bit(63), 63);
    BitIs(62, 62);
    BitIs(63, 63);
    assert !GapOk([m, n][0], [m, n][1]);
    EntriesExactly([m, n]);
  }

  lemma BitNonzero(k: nat)
    requires k < 64
    ensures Bit(k) != 0
  {
    BitHot(k);
  }

  // ---------------------------------------------------------------- what entries look like

  /** Every entry is below `n`, and ranges go up. */
  predicate Proper(items: seq<Item>, n: nat) {
    forall k :: 0 <= k < |items| ==>
      match items[k]
      case One(a) => a < n
      case Range(a, b) => a < b < n
  }

  ghost predicate BelowLimit(pos: seq<nat>, on: seq<bool>, n: nat)
    requires |pos| == |on|
  {
    forall t :: 0 <= t < |pos| ==> (on[t] ==> pos[t] < n) && (Jump(pos, t) ==> pos[t] <= n)
  }

  lemma CloseProper(sc: Scan, last: nat, n: nat)
    requires Proper(sc.items, n) && (sc.range >= 2 ==> last < n)
    requires sc.range > 2 ==> sc.items != [] && sc.items[|sc.items| - 1].One? && sc.items[|sc.items| - 1].a < last
    ensures Proper(Close(sc, last).items, n)
  {
  }

  lemma {:induction false} ScanProper(pos: seq<nat>, on: seq<bool>, k: nat, n: nat)
    requires |pos| == |on| && k <= |pos| && Visited(pos) && BelowLimit(pos, on, n)
    ensures Proper(ScanUpTo(pos, on, k).items, n)
    decreases k
  {
    if k > 0 {
      ScanProper(pos, on, k - 1, n);
      if !on[k - 1] { RunEnds(pos, on, k - 1, n); }
      hide Visited, BelowLimit;
      if !on[k - 1] { CloseProper(ScanUpTo(pos, on, k - 1), if pos[k - 1] > 0 then pos[k - 1] - 1 else 0, n); }
    }
  }

  /** Where a run of two or more ends. */
  lemma RunEnds(pos: seq<nat>, on: seq<bool>, k: nat, n: nat)
    requires |pos| == |on| && k <= |pos| && Visited(pos) && BelowLimit(pos, on, n)
    ensures var sc := ScanUpTo(pos, on, k);
      sc.range >= 2 ==> k >= 2 && sc.items != [] && sc.items[|sc.items| - 1].One?
    ensures ScanUpTo(pos, on, k).range >= 2 && k < |pos| ==> 0 < pos[k] <= n
    ensures ScanUpTo(pos, on, k).range >= 2 && k == |pos| ==> pos[k - 1] < n
    ensures var sc := ScanUpTo(pos, on, k);
      sc.range > 2 ==> sc.items[|sc.items| - 1].a < pos[k - 1] && (k < |pos| ==> sc.items[|sc.items| - 1].a < pos[k] - 1)
  {
    RunHolds(pos, on, k);
    var sc := ScanUpTo(pos, on, k);
    if sc.range >= 2 {
      assert on[k - 1] && pos[k - 1] < n;
      if k < |pos| { assert pos[k - 1] < pos[k]; }
      if sc.range > 2 { assert pos[k - sc.range] < pos[k - 1]; }
      hide ScanUpTo, Visited;
    }
  }

  lemma EntriesProper(nodes: seq<BitNode>, n: nat)
    requires Ordered(nodes) && forall x :: x in Elements(nodes) ==> x < n
    ensures Proper(Entries(nodes), n)
    ensures BelowLimit(PosOf(nodes), OnOf(nodes), n)
  {
    hide PosOf, OnOf, Ordered, Visited, Elements, ScanUpTo, Jump, Proper, Close;
    var pos, on := PosOf(nodes), OnOf(nodes);
    PosVisited(nodes);
    forall t: nat | t < |pos| ensures (on[t] ==> pos[t] < n) && (Jump(pos, t) ==> pos[t] <= n) { PlaceBelow(nodes, n, t); }
    ScanProper(pos, on, |pos|, n);
    RunEnds(pos, on, |pos|, n);
    if pos != [] { CloseProper(ScanUpTo(pos, on, |pos|), pos[|pos| - 1], n); } else { NothingProper(n); }
  }

  lemma NothingProper(n: nat)
    ensures Proper([], n)
  {
  }

  lemma PlaceBelow(nodes: seq<BitNode>, n: nat, t: nat)
    requires Ordered(nodes) && (forall x :: x in Elements(nodes) ==> x < n) && t < 64 * |nodes|
    ensures OnOf(nodes)[t] ==> PosOf(nodes)[t] < n
    ensures Jump(PosOf(nodes), t) ==> PosOf(nodes)[t] <= n
  {
    Place(t);
    PosAt(nodes, t / 64, t % 64);
    BitMember(nodes, t / 64, t % 64);
    if Jump(PosOf(nodes), t) {
      JumpPlace(nodes, t);
      var k := SomeBit(nodes[t / 64].map_);
      BitMember(nodes, t / 64, k);
    }
    hide PosOf, OnOf, Elements;
  }

  // ---------------------------------------------------------------- entries and maximal runs

  /**
     A range is a whole run of at least three members, ends included; a single entry is a member
     of a run of at most two.
   */
  ghost predicate OfRun(all: set<nat>, item: Item) {
    match item
    case One(a) =>
      && a in all && !(a + 1 in all && a + 2 in all)
      && (a > 0 ==> !(a - 1 in all && a + 1 in all)) && (a > 1 ==> !(a - 1 in all && a - 2 in all))
    case Range(a, b) =>
      && a + 2 <= b && (forall x :: a <= x <= b ==> x in all)
      && (a > 0 ==> a - 1 !in all) && b + 1 !in all
  }

  function First(item: Item): nat {
    item.a
  }

  function Last(item: Item): nat {
    if item.One? then item.a else item.b
  }

  /** Entries of runs, in ascending order. */
  ghost predicate RunList(all: set<nat>, items: seq<Item>) {
    && (forall k :: 0 <= k < |items| ==> OfRun(all, items[k]))
    && forall j, k :: 0 <= j < k < |items| ==> Last(items[j]) < First(items[k])
  }

  /** Set positions and their neighbours. */
  lemma Neighbours(pos: seq<nat>, on: seq<bool>, t: nat)
    requires |pos| == |on| && Visited(pos) && t < |pos|
    ensures var all := SetUpTo(pos, on, |pos|);
      && (pos[t] in all <==> on[t])
      && (pos[t] + 1 in all <==> t + 1 < |pos| && on[t + 1] && pos[t + 1] == pos[t] + 1)
      && (pos[t] > 0 ==> (pos[t] - 1 in all <==> t > 0 && on[t - 1] && pos[t - 1] + 1 == pos[t]))
  {
    var all := SetUpTo(pos, on, |pos|);
    forall s: nat | s < |pos| ensures (pos[s] == pos[t] ==> s == t) && (pos[s] == pos[t] + 1 ==> s == t + 1) && (pos[s] + 1 == pos[t] ==> s + 1 == t) {
      OnlyAt(pos, s, t);
    }
    hide Visited;
    if t + 1 < |pos| && on[t + 1] { assert pos[t + 1] in all; }
    if t > 0 && on[t - 1] { assert pos[t - 1] in all; }
    if on[t] { assert pos[t] in all; }
  }

  lemma OnlyAt(pos: seq<nat>, s: nat, t: nat)
    requires Visited(pos) && s < |pos| && t < |pos|
    ensures pos[s] == pos[t] ==> s == t
    ensures pos[s] == pos[t] + 1 ==> s == t + 1
    ensures pos[s] + 1 == pos[t] ==> s + 1 == t
  {
    if s < t {
      if s + 1 < t { assert pos[s] < pos[s + 1] < pos[t]; } else { assert pos[s] < pos[t]; }
    } else if t < s {
      if t + 1 < s { assert pos[t] < pos[t + 1] < pos[s]; } else { assert pos[t] < pos[s]; }
    }
  }

  /** The run of set positions from `lo` up to `k`, which nothing extends. */
  ghost predicate WholeRun(pos: seq<nat>, on: seq<bool>, lo: nat, k: nat)
    requires |pos| == |on|
  {
    && lo < k <= |pos| && (forall t :: lo <= t < k ==> on[t])
    && (lo > 0 ==> !on[lo - 1]) && (k < |pos| ==> !on[k])
  }

  lemma SingleFits(pos: seq<nat>, on: seq<bool>, lo: nat)
    requires |pos| == |on| && Visited(pos) && WholeRun(pos, on, lo, lo + 1)
    ensures OfRun(SetUpTo(pos, on, |pos|), One(pos[lo]))
  {
    hide Visited, SetUpTo;
    Neighbours(pos, on, lo);
  }

  lemma PairFits(pos: seq<nat>, on: seq<bool>, lo: nat)
    requires |pos| == |on| && Visited(pos) && WholeRun(pos, on, lo, lo + 2)
    ensures OfRun(SetUpTo(pos, on, |pos|), One(pos[lo])) && OfRun(SetUpTo(pos, on, |pos|), One(pos[lo + 1]))
  {
    hide Visited, SetUpTo;
    Neighbours(pos, on, lo);
    Neighbours(pos, on, lo + 1);
    if pos[lo + 1] > 1 && pos[lo + 1] - 1 in SetUpTo(pos, on, |pos|) { assert pos[lo] + 1 == pos[lo + 1]; }
  }

  lemma LongFits(pos: seq<nat>, on: seq<bool>, lo: nat, k: nat)
    requires |pos| == |on| && Visited(pos) && WholeRun(pos, on, lo, k) && lo + 2 < k
    requires forall t :: lo < t < k ==> pos[t] == pos[t - 1] + 1
    ensures OfRun(SetUpTo(pos, on, |pos|), Range(pos[lo], pos[k - 1]))
  {
    RunIsMaximal(pos, on, lo, k);
    Stretch(pos, lo, k);
    hide Visited, SetUpTo;
  }

  lemma {:induction false} Stretch(pos: seq<nat>, lo: nat, k: nat)
    requires lo < k <= |pos| && forall t :: lo < t < k ==> pos[t] == pos[t - 1] + 1
    ensures forall t :: lo <= t < k ==> pos[t] == pos[lo] + (t - lo)
    decreases k
  {
    if k > lo + 1 {
      Stretch(pos, lo, k - 1);
      assert pos[k - 1] == pos[k - 2] + 1;
    }
  }

  /** The entries of finished runs. */
  function Finished(sc: Scan): seq<Item> {
    if sc.range > 0 && sc.items != [] then sc.items[..|sc.items| - 1] else sc.items
  }

  /** Finished entries are entries of runs, and end before the open run. */
  ghost predicate FinishedOk(pos: seq<nat>, on: seq<bool>, k: nat)
    requires |pos| == |on| && k <= |pos|
  {
    var sc := ScanUpTo(pos, on, k);
    && sc.range <= k && RunList(SetUpTo(pos, on, |pos|), Finished(sc))
    && EndBefore(pos, Finished(sc), k - sc.range)
  }

  ghost predicate EndBefore(pos: seq<nat>, items: seq<Item>, k: nat)
    requires k <= |pos|
  {
    forall i :: 0 <= i < |items| ==> ComesBefore(pos, Last(items[i]), k)
  }

  /** `x` is one of the first `k` positions. */
  ghost predicate ComesBefore(pos: seq<nat>, x: nat, k: nat)
    requires k <= |pos|
  {
    exists j: nat :: j < k && pos[j] == x
  }

  lemma EndLater(pos: seq<nat>, items: seq<Item>, k: nat, l: nat)
    requires k <= l <= |pos| && EndBefore(pos, items, k)
    ensures EndBefore(pos, items, l)
  {
    forall i | 0 <= i < |items| ensures ComesBefore(pos, Last(items[i]), l) {
      assert ComesBefore(pos, Last(items[i]), k);
    }
  }

  lemma AddEntry(pos: seq<nat>, all: set<nat>, items: seq<Item>, x: Item, lo: nat, k: nat)
    requires lo < k <= |pos| && Visited(pos) && RunList(all, items) && EndBefore(pos, items, lo)
    requires OfRun(all, x) && First(x) == pos[lo] && Last(x) == pos[k - 1]
    ensures RunList(all, items + [x]) && EndBefore(pos, items + [x], k)
  {
    hide OfRun;
    EndLater(pos, items, lo, k);
    forall i | 0 <= i < |items| ensures Last(items[i]) < First(x) {
      assert ComesBefore(pos, Last(items[i]), lo);
    }
    var more := items + [x];
    forall i | 0 <= i < |more| ensures ComesBefore(pos, Last(more[i]), k) {
      if i == |items| { assert pos[k - 1] == Last(more[i]); }
    }
  }

  /** Ending a run adds its entries. */
  lemma CloseFits(pos: seq<nat>, on: seq<bool>, k: nat, last: nat)
    requires |pos| == |on| && Visited(pos) && NoBadJump(pos, on) && 0 < k <= |pos| && RunOk(pos, on, k) && FinishedOk(pos, on, k)
    requires k < |pos| ==> !on[k] && last == pos[k] - 1
    requires k == |pos| ==> last == pos[k - 1]
    ensures var items := Close(ScanUpTo(pos, on, k), last).items;
      RunList(SetUpTo(pos, on, |pos|), items) && EndBefore(pos, items, k)
  {
    var sc := ScanUpTo(pos, on, k);
    var lo, all, done := k - sc.range, SetUpTo(pos, on, |pos|), Finished(sc);
    RunUnbrokenAt(pos, on, lo, k);
    hide ScanUpTo, NoBadJump, Visited, OfRun, RunList, EndBefore, SetUpTo;
    if sc.range == 0 {
      EndLater(pos, sc.items, k, k);
    } else {
      assert sc.items == done + [One(pos[lo])];
      assert WholeRun(pos, on, lo, k);
      BeforeEnd(pos, k);
      if sc.range == 1 {
        SingleFits(pos, on, lo);
        AddEntry(pos, all, done, One(pos[lo]), lo, k);
      } else if sc.range == 2 {
        PairFits(pos, on, lo);
        AddEntry(pos, all, done, One(pos[lo]), lo, lo + 1);
        AddEntry(pos, all, sc.items, One(pos[lo + 1]), lo + 1, k);
      } else {
        LongFits(pos, on, lo, k);
        AddEntry(pos, all, done, Range(pos[lo], pos[k - 1]), lo, k);
      }
    }
  }

  lemma RunUnbrokenAt(pos: seq<nat>, on: seq<bool>, lo: nat, k: nat)
    requires |pos| == |on| && Visited(pos) && NoBadJump(pos, on) && lo <= k <= |pos|
    requires forall t :: lo <= t < k ==> on[t]
    ensures lo + 2 <= k && k < |pos| ==> !Jump(pos, k)
    ensures k - lo > 2 ==> forall t :: lo < t < k ==> pos[t] == pos[t - 1] + 1
  {
    hide Visited, NoBadJump;
    if lo + 2 <= k { RunUnbroken(pos, on, lo, k); }
  }

  lemma StepOnFits(pos: seq<nat>, on: seq<bool>, k: nat)
    requires |pos| == |on| && k < |pos| && on[k] && FinishedOk(pos, on, k) && RunOk(pos, on, k)
    ensures FinishedOk(pos, on, k + 1)
  {
    ScanUnfolds(pos, on, k);
    hide ScanUpTo, RunList, EndBefore, SetUpTo;
    var sc := ScanUpTo(pos, on, k);
    assert (sc.items + [One(pos[k])])[..|sc.items|] == sc.items;
  }

  lemma ScanUnfolds(pos: seq<nat>, on: seq<bool>, k: nat)
    requires |pos| == |on| && k < |pos|
    ensures ScanUpTo(pos, on, k + 1) == Step(ScanUpTo(pos, on, k), pos[k], on[k])
  {
    hide Step;
  }

  lemma StepOffFits(pos: seq<nat>, on: seq<bool>, k: nat)
    requires |pos| == |on| && Visited(pos) && NoBadJump(pos, on) && k < |pos| && !on[k] && FinishedOk(pos, on, k) && RunOk(pos, on, k)
    ensures FinishedOk(pos, on, k + 1)
  {
    var sc := ScanUpTo(pos, on, k);
    ScanUnfolds(pos, on, k);
    if k > 0 {
      Increasing(pos, k);
      CloseFits(pos, on, k, pos[k] - 1);
      EndLater(pos, Close(sc, pos[k] - 1).items, k, k + 1);
      hide ScanUpTo, RunList, EndBefore, SetUpTo, Visited, NoBadJump;
    } else {
      NothingFinished(pos, SetUpTo(pos, on, |pos|));
      EndLater(pos, [], 0, 1);
    }
  }

  lemma {:induction false} ScanFits(pos: seq<nat>, on: seq<bool>, k: nat)
    requires |pos| == |on| && Visited(pos) && NoBadJump(pos, on) && k <= |pos|
    ensures FinishedOk(pos, on, k)
    decreases k
  {
    hide *;
    if k == 0 {
      ScanNothing(pos, on);
    } else {
      ScanFits(pos, on, k - 1);
      RunHolds(pos, on, k - 1);
      if on[k - 1] { StepOnFits(pos, on, k - 1); } else { StepOffFits(pos, on, k - 1); }
    }
  }

  lemma ScanNothing(pos: seq<nat>, on: seq<bool>)
    requires |pos| == |on|
    ensures FinishedOk(pos, on, 0)
  {
    NothingFinished(pos, SetUpTo(pos, on, |pos|));
  }

  lemma NothingFinished(pos: seq<nat>, all: set<nat>)
    ensures RunList(all, []) && EndBefore(pos, [], 0)
  {
  }

  /**
     With harmless gaps the entries are those of the maximal runs: one for a run of one, two for
     a run of two, a range for a longer one, in ascending order.
   */
  lemma {:induction false} EntriesAreRuns(nodes: seq<BitNode>)
    requires Ordered(nodes) && GapsOk(nodes)
    ensures RunList(Elements(nodes), Entries(nodes)) && Denote(Entries(nodes)) == Elements(nodes)
  {
    hide *;
    var pos, on := PosOf(nodes), OnOf(nodes);
    PosVisited(nodes);
    PosMembers(nodes);
    GapsExactly(nodes);
    EntriesExactly(nodes);
    LastFits(pos, on);
    EntriesIs(nodes);
  }

  lemma EntriesIs(nodes: seq<BitNode>)
    ensures Entries(nodes) == ItemsOf(PosOf(nodes), OnOf(nodes)) && |PosOf(nodes)| == |OnOf(nodes)| == 64 * |nodes|
  {
  }

  lemma LastFits(pos: seq<nat>, on: seq<bool>)
    requires |pos| == |on| && Visited(pos) && NoBadJump(pos, on)
    ensures RunList(SetUpTo(pos, on, |pos|), ItemsOf(pos, on))
  {
    hide Visited, NoBadJump, RunList, EndBefore, SetUpTo, ScanUpTo;
    if pos == [] {
      NothingFinished(pos, SetUpTo(pos, on, |pos|));
    } else {
      ScanFits(pos, on, |pos|);
      RunHolds(pos, on, |pos|);
      CloseFits(pos, on, |pos|, pos[|pos| - 1]);
    }
  }

  // ---------------------------------------------------------------- a set that is one run

  lemma {:induction false} DenoteHas(items: seq<Item>, x: nat) returns (k: nat)
    requires x in Denote(items)
    ensures k < |items| && x in Covered(items[k])
    decreases |items|
  {
    var n := |items| - 1;
    if x in Covered(items[n]) { k := n; } else { k := DenoteHas(items[..n], x); }
  }

  /** Membership around the ends of an entry of a set that is a single run. */
  lemma Around(all: set<nat>, x: nat, a: nat, b: nat)
    requires forall y :: y in all <==> a <= y <= b
    ensures (x in all <==> a <= x <= b) && (x + 1 in all <==> a <= x + 1 <= b) && (x + 2 in all <==> a <= x + 2 <= b)
    ensures x > 0 ==> (x - 1 in all <==> a <= x - 1 <= b)
    ensures x > 1 ==> (x - 2 in all <==> a <= x - 2 <= b)
  {
  }

  lemma RunEntry(all: set<nat>, item: Item, a: nat, b: nat)
    requires a <= b && (forall x :: x in all <==> a <= x <= b) && OfRun(all, item)
    ensures if a + 2 <= b then item == Range(a, b) else item == One(a) || item == One(b)
  {
    Around(all, First(item), a, b);
    Around(all, Last(item), a, b);
  }

  /** The entries of a set that is a single run: one, two or a range. */
  lemma {:induction false} SingleRunEntries(all: set<nat>, items: seq<Item>, a: nat, b: nat)
    requires a <= b && (forall x :: x in all <==> a <= x <= b) && RunList(all, items) && Denote(items) == all
    ensures items == if a == b then [One(a)] else if b == a + 1 then [One(a), One(b)] else [Range(a, b)]
  {
    hide OfRun, Denote;
    assert a in all && b in all;
    var i := DenoteHas(items, a);
    var j := DenoteHas(items, b);
    forall k | 0 <= k < |items|
      ensures if a + 2 <= b then items[k] == Range(a, b) else items[k] == One(a) || items[k] == One(b)
    {
      assert OfRun(all, items[k]);
      RunEntry(all, items[k], a, b);
    }
    SpreadOut(all, items, a, b, i, j);
  }

  lemma SpreadOut(all: set<nat>, items: seq<Item>, a: nat, b: nat, i: nat, j: nat)
    requires a <= b && RunList(all, items) && i < |items| && j < |items| && a in Covered(items[i]) && b in Covered(items[j])
    requires forall k :: 0 <= k < |items| ==>
      if a + 2 <= b then items[k] == Range(a, b) else items[k] == One(a) || items[k] == One(b)
    ensures items == if a == b then [One(a)] else if b == a + 1 then [One(a), One(b)] else [Range(a, b)]
  {
    hide OfRun;
    forall k, l | 0 <= k < l < |items| ensures items[k].a < items[l].a { assert Last(items[k]) < First(items[l]); }
    Rising(items, a, |items| - 1);
    if b == a + 1 { assert items[i] == One(a) && items[j] == One(b); }
  }

  lemma {:induction false} Rising(items: seq<Item>, a: nat, n: nat)
    requires n < |items| && items[0].a >= a && forall k, l :: 0 <= k < l < |items| ==> items[k].a < items[l].a
    ensures items[n].a >= a + n
  {
    if n > 0 {
      Rising(items, a, n - 1);
      assert items[n - 1].a < items[n].a;
    }
  }

  /** Between the nodes of a single run there are no gaps. */
  lemma SingleRunGaps(nodes: seq<BitNode>, a: nat, b: nat)
    requires Ordered(nodes) && forall x :: x in Elements(nodes) <==> a <= x <= b
    ensures GapsOk(nodes)
  {
    hide Elements, Has;
    forall k | 0 < k < |nodes| ensures GapOk(nodes[k - 1], nodes[k]) { NoGapInside(nodes, a, b, k); }
  }

  lemma NoGapInside(nodes: seq<BitNode>, a: nat, b: nat, k: nat)
    requires Ordered(nodes) && (forall x :: x in Elements(nodes) <==> a <= x <= b) && 0 < k < |nodes|
    ensures GapOk(nodes[k - 1], nodes[k])
  {
    hide Elements, Has;
    var m, n := nodes[k - 1], nodes[k];
    if n.start != m.start + 64 && Has(m.map_, 63) {
      NodeOrder(nodes, k - 1);
      BitMember(nodes, k - 1, 63);
      var bit := SomeBit(n.map_);
      BitMember(nodes, k, bit);
      assert n.start - 1 in Elements(nodes);
      var j := MemberNode(nodes, n.start - 1);
      assert false;
    }
  }

  /** All of `a` to `b` is in the set, and neither neighbour is. */
  ghost predicate MaximalRun(all: set<nat>, a: nat, b: nat) {
    a <= b && (forall x :: a <= x <= b ==> x in all) && (a > 0 ==> a - 1 !in all) && b + 1 !in all
  }

  lemma RunIsMaximal(pos: seq<nat>, on: seq<bool>, lo: nat, k: nat)
    requires |pos| == |on| && Visited(pos) && WholeRun(pos, on, lo, k)
    requires forall t :: lo < t < k ==> pos[t] == pos[t - 1] + 1
    ensures MaximalRun(SetUpTo(pos, on, |pos|), pos[lo], pos[k - 1])
  {
    hide Visited, SetUpTo;
    Neighbours(pos, on, lo);
    Neighbours(pos, on, k - 1);
    Stretch(pos, lo, k);
    forall x | pos[lo] <= x <= pos[k - 1] ensures x in SetUpTo(pos, on, |pos|) {
      var t: nat := lo + (x - pos[lo]);
      Neighbours(pos, on, t);
    }
  }
}
