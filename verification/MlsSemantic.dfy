/**
 Levels as category ranges and back (src/policydb.c, src/expand.c): converting a bitmap to a
 list of low and high category numbers, and filling the ranges in again.
 */
module MlsSemantic {
  import opened Prelude
  import opened Words
  import opened Ebitmap
  import opened MlsRuns

  /** Category numbers count from 1; both ends are in the range. */
  datatype SemanticCat = SemanticCat(low: nat, high: nat)

  datatype SemanticLevel = SemanticLevel(sens: nat, cats: seq<SemanticCat>)

  function CatCovered(c: SemanticCat): set<nat> {
    if c.low == 0 then {} else Interval(c.low - 1, c.high)
  }

  function CatsDenote(cats: seq<SemanticCat>): set<nat> {
    if cats == [] then {} else CatCovered(cats[0]) + CatsDenote(cats[1..])
  }

  /** The list so far, newest first, and whether its first range is still open. */
  datatype Ranges = Ranges(cats: seq<SemanticCat>, open: bool)

  function Shut(rs: Ranges, high: nat): Ranges {
    if rs.open && rs.cats != [] then Ranges([rs.cats[0].(high := high)] + rs.cats[1..], false) else Ranges(rs.cats, false)
  }

  function Extend(rs: Ranges, at: nat, on: bool): Ranges {
    if on then (if rs.open then rs else Ranges([SemanticCat(at + 1, 0)] + rs.cats, true)) else Shut(rs, at)
  }

  function RangesUpTo(pos: seq<nat>, on: seq<bool>, k: nat): Ranges
    requires |pos| == |on| && k <= |pos|
  {
    if k == 0 then Ranges([], false) else Extend(RangesUpTo(pos, on, k - 1), pos[k - 1], on[k - 1])
  }

  function RangesOf(pos: seq<nat>, on: seq<bool>): seq<SemanticCat>
    requires |pos| == |on|
  {
    if pos == [] then [] else Shut(RangesUpTo(pos, on, |pos|), pos[|pos| - 1] + 1).cats
  }

  /** A set position just before a jump. */
  predicate Torn(pos: seq<nat>, on: seq<bool>, t: nat)
    requires |pos| == |on| && t < |pos|
  {
    t > 0 && Jump(pos, t) && on[t - 1]
  }

  ghost predicate Whole(pos: seq<nat>, on: seq<bool>)
    requires |pos| == |on|
  {
    forall t: nat :: t < |pos| ==> !Torn(pos, on, t)
  }

  /** The open range is the current run. */
  ghost predicate RangesOk(pos: seq<nat>, on: seq<bool>, k: nat)
    requires |pos| == |on| && k <= |pos|
  {
    var rs, run := RangesUpTo(pos, on, k), ScanUpTo(pos, on, k).range;
    && run <= k && (rs.open <==> run > 0)
    && (rs.open ==> rs.cats != [] && rs.cats[0].low == pos[k - run] + 1)
  }

  lemma {:induction false} RangesHold(pos: seq<nat>, on: seq<bool>, k: nat)
    requires |pos| == |on| && k <= |pos|
    ensures RangesOk(pos, on, k)
    decreases k
  {
    if k > 0 {
      RangesHold(pos, on, k - 1);
      RunHolds(pos, on, k - 1);
      hide RunOk;
    }
  }

  lemma DenoteFirst(c: SemanticCat, rest: seq<SemanticCat>)
    ensures CatsDenote([c] + rest) == CatCovered(c) + CatsDenote(rest)
  {
    assert ([c] + rest)[1..] == rest;
  }

  /** Finished ranges and the open run together are `all`. */
  ghost predicate Fills(pos: seq<nat>, k: nat, run: nat, rs: Ranges, all: set<nat>)
    requires k <= |pos|
  {
    && run <= k && (rs.open ==> rs.cats != [])
    && CatsDenote(if rs.open then rs.cats[1..] else rs.cats) + Slice(pos, k - run, k) == all
  }

  lemma WholeRun(pos: seq<nat>, on: seq<bool>, k: nat)
    requires |pos| == |on| && Whole(pos, on) && k <= |pos|
    ensures var run := ScanUpTo(pos, on, k).range;
      run <= k && (run > 0 ==> forall t :: k - run < t < k ==> pos[t] == pos[t - 1] + 1)
    ensures k < |pos| && ScanUpTo(pos, on, k).range > 0 ==> pos[k] == pos[k - 1] + 1
  {
    RunHolds(pos, on, k);
    hide ScanUpTo;
    var run := ScanUpTo(pos, on, k).range;
    forall t: nat | run > 0 && k - run < t < k ensures pos[t] == pos[t - 1] + 1 { assert !Torn(pos, on, t); }
    assert k < |pos| ==> !Torn(pos, on, k);
  }

  /** Shutting the open range completes it. */
  lemma ShutFills(pos: seq<nat>, on: seq<bool>, k: nat, all: set<nat>, high: nat)
    requires |pos| == |on| && Visited(pos) && Whole(pos, on) && k <= |pos| && RangesOk(pos, on, k)
    requires Fills(pos, k, ScanUpTo(pos, on, k).range, RangesUpTo(pos, on, k), all)
    requires k > 0 ==> high == if k < |pos| then pos[k] else pos[k - 1] + 1
    ensures CatsDenote(Shut(RangesUpTo(pos, on, k), high).cats) == all
  {
    WholeRun(pos, on, k);
    hide ScanUpTo, RangesUpTo, Visited, Whole, Slice, CatsDenote;
    var rs, run := RangesUpTo(pos, on, k), ScanUpTo(pos, on, k).range;
    if rs.open {
      SliceInterval(pos, k - run, k);
      DenoteFirst(rs.cats[0].(high := high), rs.cats[1..]);
    } else {
      SliceNone(pos, k);
    }
  }

  lemma FillOn(pos: seq<nat>, on: seq<bool>, k: nat, all: set<nat>)
    requires |pos| == |on| && k < |pos| && RangesOk(pos, on, k) && on[k]
    requires Fills(pos, k, ScanUpTo(pos, on, k).range, RangesUpTo(pos, on, k), all)
    ensures Fills(pos, k + 1, ScanUpTo(pos, on, k + 1).range, RangesUpTo(pos, on, k + 1), all + {pos[k]})
  {
    var rs, run := RangesUpTo(pos, on, k), ScanUpTo(pos, on, k).range;
    assert ScanUpTo(pos, on, k + 1).range == run + 1;
    assert RangesUpTo(pos, on, k + 1) == Extend(rs, pos[k], true);
    hide ScanUpTo, RangesUpTo, Slice, CatsDenote;
    SliceStep(pos, k - run, k);
    if !rs.open { assert ([SemanticCat(pos[k] + 1, 0)] + rs.cats)[1..] == rs.cats; }
  }

  lemma FillOff(pos: seq<nat>, on: seq<bool>, k: nat, all: set<nat>)
    requires |pos| == |on| && Visited(pos) && Whole(pos, on) && k < |pos| && RangesOk(pos, on, k) && !on[k]
    requires Fills(pos, k, ScanUpTo(pos, on, k).range, RangesUpTo(pos, on, k), all)
    ensures Fills(pos, k + 1, ScanUpTo(pos, on, k + 1).range, RangesUpTo(pos, on, k + 1), all)
  {
    ShutFills(pos, on, k, all, pos[k]);
    assert ScanUpTo(pos, on, k + 1).range == 0;
    assert RangesUpTo(pos, on, k + 1) == Shut(RangesUpTo(pos, on, k), pos[k]);
    hide ScanUpTo, RangesUpTo, Slice, CatsDenote, Visited, Whole;
    SliceNone(pos, k + 1);
  }

  lemma {:induction false} RangesFill(pos: seq<nat>, on: seq<bool>, k: nat)
    requires |pos| == |on| && Visited(pos) && Whole(pos, on) && k <= |pos|
    ensures Fills(pos, k, ScanUpTo(pos, on, k).range, RangesUpTo(pos, on, k), SetUpTo(pos, on, k))
    decreases k
  {
    hide *;
    if k > 0 {
      RangesFill(pos, on, k - 1);
      RangesHold(pos, on, k - 1);
      SetStep(pos, on, k - 1);
      if on[k - 1] {
        FillOn(pos, on, k - 1, SetUpTo(pos, on, k - 1));
      } else {
        FillOff(pos, on, k - 1, SetUpTo(pos, on, k - 1));
      }
    } else {
      FillNone(pos, on);
    }
  }

  lemma FillNone(pos: seq<nat>, on: seq<bool>)
    requires |pos| == |on|
    ensures Fills(pos, 0, ScanUpTo(pos, on, 0).range, RangesUpTo(pos, on, 0), SetUpTo(pos, on, 0))
  {
    SliceNone(pos, 0);
    assert SetUpTo(pos, on, 0) == {};
  }

  lemma RangesExact(pos: seq<nat>, on: seq<bool>)
    requires |pos| == |on| && Visited(pos) && Whole(pos, on)
    ensures CatsDenote(RangesOf(pos, on)) == SetUpTo(pos, on, |pos|)
  {
    hide Visited, Whole, SetUpTo, Fills, RangesOk, RangesUpTo, Shut, ScanUpTo;
    RangesFill(pos, on, |pos|);
    RangesHold(pos, on, |pos|);
    if pos != [] { ShutFills(pos, on, |pos|, SetUpTo(pos, on, |pos|), pos[|pos| - 1] + 1); } else { SetNone(pos, on); }
  }

  lemma SetNone(pos: seq<nat>, on: seq<bool>)
    requires |pos| == |on| == 0
    ensures SetUpTo(pos, on, 0) == {}
  {
  }

  // ---------------------------------------------------------------- a torn run shows

  /** The position before the jump is in a finished range, or the open one began before it. */
  ghost predicate Overrun(pos: seq<nat>, on: seq<bool>, t: nat, k: nat)
    requires |pos| == |on| && t < k <= |pos|
  {
    var rs := RangesUpTo(pos, on, k);
    && pos[t] > 0 && t > 0
    && (pos[t] - 1 in CatsDenote(if rs.open && rs.cats != [] then rs.cats[1..] else rs.cats)
        || (rs.open && rs.cats != [] && 0 < rs.cats[0].low <= pos[t - 1] + 1))
  }

  lemma ShutCovers(rs: Ranges, high: nat, x: nat)
    requires rs.open && rs.cats != [] && 0 < rs.cats[0].low <= x + 1 && x < high
    ensures x in CatsDenote(Shut(rs, high).cats)
  {
    DenoteFirst(rs.cats[0].(high := high), rs.cats[1..]);
    hide CatsDenote;
  }

  lemma ShutKeeps(rs: Ranges, high: nat, x: nat)
    requires x in CatsDenote(if rs.open && rs.cats != [] then rs.cats[1..] else rs.cats)
    ensures x in CatsDenote(Shut(rs, high).cats)
  {
    if rs.open && rs.cats != [] { DenoteFirst(rs.cats[0].(high := high), rs.cats[1..]); }
    hide CatsDenote;
  }

  lemma OverrunStart(pos: seq<nat>, on: seq<bool>, t: nat)
    requires |pos| == |on| && Visited(pos) && t < |pos| && Torn(pos, on, t)
    ensures Overrun(pos, on, t, t + 1)
  {
    RangesHold(pos, on, t);
    RunHolds(pos, on, t);
    assert pos[t - 1] < pos[t];
    var rs, run := RangesUpTo(pos, on, t), ScanUpTo(pos, on, t).range;
    assert run > 0 && pos[t - run] <= pos[t - 1];
    assert RangesUpTo(pos, on, t + 1) == Extend(rs, pos[t], on[t]);
    hide RangesUpTo, ScanUpTo, Visited, CatsDenote;
    if !on[t] { ShutCovers(rs, pos[t], pos[t] - 1); }
  }

  lemma OverrunStep(pos: seq<nat>, on: seq<bool>, t: nat, k: nat)
    requires |pos| == |on| && Visited(pos) && t < k < |pos| && Overrun(pos, on, t, k)
    ensures Overrun(pos, on, t, k + 1)
  {
    assert pos[t - 1] < pos[t] < pos[k];
    var rs := RangesUpTo(pos, on, k);
    assert RangesUpTo(pos, on, k + 1) == Extend(rs, pos[k], on[k]);
    hide RangesUpTo, Visited, CatsDenote;
    if on[k] {
      if !rs.open || rs.cats == [] { assert ([SemanticCat(pos[k] + 1, 0)] + rs.cats)[1..] == rs.cats; }
    } else if rs.open && rs.cats != [] && 0 < rs.cats[0].low <= pos[t - 1] + 1 {
      ShutCovers(rs, pos[k], pos[t] - 1);
    } else {
      ShutKeeps(rs, pos[k], pos[t] - 1);
    }
  }

  lemma {:induction false} OverrunLater(pos: seq<nat>, on: seq<bool>, t: nat, k: nat)
    requires |pos| == |on| && Visited(pos) && t < k <= |pos| && Torn(pos, on, t)
    ensures Overrun(pos, on, t, k)
    decreases k
  {
    hide Visited, Overrun;
    if k == t + 1 {
      OverrunStart(pos, on, t);
    } else {
      OverrunLater(pos, on, t, k - 1);
      OverrunStep(pos, on, t, k - 1);
    }
  }

  /** A run torn by a jump makes the ranges cover a position in the gap. */
  lemma TornShows(pos: seq<nat>, on: seq<bool>, t: nat)
    requires |pos| == |on| && Visited(pos) && t < |pos| && Torn(pos, on, t)
    ensures pos[t] > 0 && pos[t] - 1 in CatsDenote(RangesOf(pos, on))
    ensures pos[t] - 1 !in SetUpTo(pos, on, |pos|)
  {
    var k, last := |pos|, pos[|pos| - 1];
    OverrunLater(pos, on, t, k);
    GapUnvisited(pos, on, t);
    assert pos[t - 1] < pos[t] <= last;
    var rs := RangesUpTo(pos, on, k);
    hide RangesUpTo, Visited, CatsDenote;
    if rs.open && rs.cats != [] && 0 < rs.cats[0].low <= pos[t - 1] + 1 {
      ShutCovers(rs, last + 1, pos[t] - 1);
    } else {
      ShutKeeps(rs, last + 1, pos[t] - 1);
    }
  }

  lemma GapUnvisited(pos: seq<nat>, on: seq<bool>, t: nat)
    requires |pos| == |on| && Visited(pos) && 0 < t < |pos| && Jump(pos, t)
    ensures pos[t] > 0 && pos[t] - 1 !in SetUpTo(pos, on, |pos|)
  {
    assert pos[t - 1] < pos[t];
    forall s | 0 <= s < |pos| ensures pos[s] != pos[t] - 1 {
      if s < t - 1 { assert pos[s] < pos[t - 1]; } else if s > t { assert pos[t] < pos[s]; }
    }
  }

  // ---------------------------------------------------------------- bitmaps

  /** No node with its last bit set is followed by a gap. */
  predicate EdgesClear(nodes: seq<BitNode>) {
    forall k :: 0 < k < |nodes| ==> (nodes[k].start != nodes[k - 1].start + 64 ==> !Has(nodes[k - 1].map_, 63))
  }

  lemma TornAt(nodes: seq<BitNode>, n: nat)
    requires Ordered(nodes) && 0 < n < |nodes|
    ensures Torn(PosOf(nodes), OnOf(nodes), 64 * n) <==> nodes[n].start != nodes[n - 1].start + 64 && Has(nodes[n - 1].map_, 63)
  {
    hide PosOf, OnOf, Has, Ordered;
    Boundary(nodes, n);
  }

  lemma EdgesExactly(nodes: seq<BitNode>)
    requires Ordered(nodes)
    ensures Whole(PosOf(nodes), OnOf(nodes)) <==> EdgesClear(nodes)
  {
    hide Has, PosOf, OnOf, Ordered;
    var pos, on := PosOf(nodes), OnOf(nodes);
    if EdgesClear(nodes) {
      forall t: nat | t < |pos| ensures !Torn(pos, on, t) {
        if t > 0 && Jump(pos, t) {
          JumpPlace(nodes, t);
          Place(t);
          TornAt(nodes, t / 64);
        }
      }
    }
    if Whole(pos, on) {
      forall k | 0 < k < |nodes| ensures nodes[k].start != nodes[k - 1].start + 64 ==> !Has(nodes[k - 1].map_, 63) { TornAt(nodes, k); }
    }
  }

  /** The ranges a bitmap is converted to. */
  function SemanticCats(nodes: seq<BitNode>): seq<SemanticCat> {
    RangesOf(PosOf(nodes), OnOf(nodes))
  }

  /** They cover exactly the members if and only if no edge bit is followed by a gap. */
  lemma SemanticExactly(nodes: seq<BitNode>)
    requires Ordered(nodes)
    ensures CatsDenote(SemanticCats(nodes)) == Elements(nodes) <==> EdgesClear(nodes)
    ensures !EdgesClear(nodes) ==> !(CatsDenote(SemanticCats(nodes)) <= Elements(nodes))
  {
    hide Elements, CatsDenote, RangesOf, PosOf, OnOf, Visited, Ordered, Torn, EdgesClear;
    var pos, on := PosOf(nodes), OnOf(nodes);
    PosVisited(nodes);
    PosMembers(nodes);
    EdgesExactly(nodes);
    if Whole(pos, on) {
      RangesExact(pos, on);
    } else {
      var t: nat :| t < |pos| && Torn(pos, on, t);
      TornShows(pos, on, t);
    }
  }

  // ---------------------------------------------------------------- ranges and maximal runs

  /** Every range is a maximal run, counted from 1, and later runs come first. */
  ghost predicate RunsBackwards(all: set<nat>, cats: seq<SemanticCat>) {
    && (forall k :: 0 <= k < |cats| ==> CatOfRun(all, cats[k]))
    && forall j, k :: 0 <= j < k < |cats| ==> cats[k].high < cats[j].low
  }

  ghost predicate CatOfRun(all: set<nat>, c: SemanticCat) {
    c.low > 0 && c.high > 0 && MaximalRun(all, c.low - 1, c.high - 1)
  }

  /** The ranges end at positions before the `k`-th. */
  ghost predicate EndedBefore(pos: seq<nat>, cats: seq<SemanticCat>, k: nat)
    requires k <= |pos|
  {
    forall i :: 0 <= i < |cats| ==> cats[i].high > 0 && ComesBefore(pos, cats[i].high - 1, k)
  }

  function Complete(rs: Ranges): seq<SemanticCat> {
    if rs.open && rs.cats != [] then rs.cats[1..] else rs.cats
  }

  /** Finished ranges are runs and end before the open one. */
  ghost predicate CompleteOk(pos: seq<nat>, on: seq<bool>, k: nat)
    requires |pos| == |on| && k <= |pos|
  {
    var rs, run := RangesUpTo(pos, on, k), ScanUpTo(pos, on, k).range;
    && run <= k && RunsBackwards(SetUpTo(pos, on, |pos|), Complete(rs)) && EndedBefore(pos, Complete(rs), k - run)
  }

  lemma AddRun(pos: seq<nat>, all: set<nat>, cats: seq<SemanticCat>, c: SemanticCat, lo: nat, k: nat)
    requires lo < k <= |pos| && Visited(pos) && RunsBackwards(all, cats) && EndedBefore(pos, cats, lo)
    requires CatOfRun(all, c) && c.low == pos[lo] + 1 && c.high == pos[k - 1] + 1
    ensures RunsBackwards(all, [c] + cats) && EndedBefore(pos, [c] + cats, k)
  {
    hide CatOfRun;
    var more := [c] + cats;
    forall i | 0 <= i < |cats| ensures cats[i].high < c.low { assert ComesBefore(pos, cats[i].high - 1, lo); }
    forall i | 0 <= i < |more| ensures more[i].high > 0 && ComesBefore(pos, more[i].high - 1, k) {
      if i == 0 { assert pos[k - 1] == c.high - 1; } else { assert ComesBefore(pos, cats[i - 1].high - 1, lo); }
    }
  }

  lemma EndedLater(pos: seq<nat>, cats: seq<SemanticCat>, k: nat, l: nat)
    requires k <= l <= |pos| && EndedBefore(pos, cats, k)
    ensures EndedBefore(pos, cats, l)
  {
    forall i | 0 <= i < |cats| ensures cats[i].high > 0 && ComesBefore(pos, cats[i].high - 1, l) {
      assert ComesBefore(pos, cats[i].high - 1, k);
    }
  }

  /** Shutting the open range adds its run. */
  lemma ShutRun(pos: seq<nat>, on: seq<bool>, k: nat, high: nat)
    requires |pos| == |on| && Visited(pos) && Whole(pos, on) && k <= |pos| && RangesOk(pos, on, k) && RunOk(pos, on, k) && CompleteOk(pos, on, k)
    requires k < |pos| ==> !on[k]
    requires k > 0 ==> high == if k < |pos| then pos[k] else pos[k - 1] + 1
    ensures RunsBackwards(SetUpTo(pos, on, |pos|), Shut(RangesUpTo(pos, on, k), high).cats)
    ensures EndedBefore(pos, Shut(RangesUpTo(pos, on, k), high).cats, k)
  {
    WholeRun(pos, on, k);
    hide ScanUpTo, RangesUpTo, Visited, Whole, SetUpTo, RunsBackwards, EndedBefore;
    var rs, run := RangesUpTo(pos, on, k), ScanUpTo(pos, on, k).range;
    if rs.open {
      var lo, c := k - run, rs.cats[0].(high := high);
      assert MlsRuns.WholeRun(pos, on, lo, k);
      RunIsMaximal(pos, on, lo, k);
      assert CatOfRun(SetUpTo(pos, on, |pos|), c);
      AddRun(pos, SetUpTo(pos, on, |pos|), rs.cats[1..], c, lo, k);
    } else {
      EndedLater(pos, rs.cats, k - run, k);
    }
  }

  lemma RangesUnfold(pos: seq<nat>, on: seq<bool>, k: nat)
    requires |pos| == |on| && k < |pos|
    ensures RangesUpTo(pos, on, k + 1) == Extend(RangesUpTo(pos, on, k), pos[k], on[k])
    ensures ScanUpTo(pos, on, k + 1).range == if on[k] then ScanUpTo(pos, on, k).range + 1 else 0
  {
  }

  lemma {:induction false} RangesComplete(pos: seq<nat>, on: seq<bool>, k: nat)
    requires |pos| == |on| && Visited(pos) && Whole(pos, on) && k <= |pos|
    ensures CompleteOk(pos, on, k)
    decreases k
  {
    if k == 0 {
      assert RunsBackwards(SetUpTo(pos, on, |pos|), []) && EndedBefore(pos, [], 0);
    } else {
      RangesComplete(pos, on, k - 1);
      CompleteStep(pos, on, k - 1);
    }
  }

  lemma CompleteStep(pos: seq<nat>, on: seq<bool>, k: nat)
    requires |pos| == |on| && Visited(pos) && Whole(pos, on) && k < |pos| && CompleteOk(pos, on, k)
    ensures CompleteOk(pos, on, k + 1)
  {
    RangesHold(pos, on, k);
    RunHolds(pos, on, k);
    RangesUnfold(pos, on, k);
    hide ScanUpTo, RangesUpTo, Visited, Whole, SetUpTo, RunsBackwards, EndedBefore;
    var rs := RangesUpTo(pos, on, k);
    if on[k] {
      if !rs.open { assert ([SemanticCat(pos[k] + 1, 0)] + rs.cats)[1..] == rs.cats; }
    } else {
      ShutRun(pos, on, k, pos[k]);
      EndedLater(pos, Shut(rs, pos[k]).cats, k, k + 1);
    }
  }

  /** With clear edges the ranges are the maximal runs of the set, the last one first. */
  lemma {:induction false} SemanticAreRuns(nodes: seq<BitNode>)
    requires Ordered(nodes) && EdgesClear(nodes)
    ensures RunsBackwards(Elements(nodes), SemanticCats(nodes)) && CatsDenote(SemanticCats(nodes)) == Elements(nodes)
  {
    hide *;
    var pos, on := PosOf(nodes), OnOf(nodes);
    PosVisited(nodes);
    PosMembers(nodes);
    EdgesExactly(nodes);
    SemanticExactly(nodes);
    EntriesIs(nodes);
    RangesRuns(pos, on);
    SemanticIs(nodes);
  }

  lemma SemanticIs(nodes: seq<BitNode>)
    ensures SemanticCats(nodes) == RangesOf(PosOf(nodes), OnOf(nodes))
  {
  }

  lemma RangesRuns(pos: seq<nat>, on: seq<bool>)
    requires |pos| == |on| && Visited(pos) && Whole(pos, on)
    ensures RunsBackwards(SetUpTo(pos, on, |pos|), RangesOf(pos, on))
  {
    if pos != [] {
      RangesHold(pos, on, |pos|);
      RunHolds(pos, on, |pos|);
      RangesComplete(pos, on, |pos|);
      ShutRun(pos, on, |pos|, pos[|pos| - 1] + 1);
      hide ScanUpTo, RangesUpTo, Visited, Whole, SetUpTo, RunsBackwards, EndedBefore;
    }
  }

  /** Category `x`, counted from 0, is in the range. */
  predicate Includes(c: SemanticCat, x: nat) {
    0 < c.low <= x + 1 <= c.high
  }

  lemma {:induction false} DenoteIncludes(cats: seq<SemanticCat>, x: nat)
    ensures x in CatsDenote(cats) <==> exists k :: 0 <= k < |cats| && Includes(cats[k], x)
    decreases |cats|
  {
    if cats != [] {
      DenoteIncludes(cats[1..], x);
      CoveredIncludes(cats[0], x);
      hide Includes, CatCovered;
      if k :| 0 <= k < |cats| && Includes(cats[k], x) { assert k > 0 ==> Includes(cats[1..][k - 1], x); }
      if k :| 0 <= k < |cats[1..]| && Includes(cats[1..][k], x) { assert Includes(cats[k + 1], x); }
    }
  }

  lemma CoveredIncludes(c: SemanticCat, x: nat)
    ensures x in CatCovered(c) <==> Includes(c, x)
  {
  }

  // ---------------------------------------------------------------- mls_level_to_semantic

  lemma RangesStep(nodes: seq<BitNode>, t: nat)
    requires t < 64 * |nodes|
    ensures RangesUpTo(PosOf(nodes), OnOf(nodes), t + 1) ==
      Extend(RangesUpTo(PosOf(nodes), OnOf(nodes), t), PosOf(nodes)[t], OnOf(nodes)[t])
    ensures RangesUpTo(PosOf(nodes), OnOf(nodes), 0) == Ranges([], false)
    ensures RangesUpTo(PosOf(nodes), OnOf(nodes), t).open ==> RangesUpTo(PosOf(nodes), OnOf(nodes), t).cats != []
  {
    hide PosOf, OnOf, Extend, ScanUpTo;
    RangesHold(PosOf(nodes), OnOf(nodes), t);
  }

  /** The bit walk with its open range, whose high end is filled in when it ends. */
  method MlsLevelToSemantic(sens: nat, cat: Bitmap) returns (sl: SemanticLevel)
    requires cat.Valid()
    ensures sl == SemanticLevel(sens, SemanticCats(cat.nodes))
  {
    hide PosOf, OnOf, RangesUpTo, Ordered, Has, Words.And, HighBit, Walking;
    OrderedOf(cat);
    ghost var pos, on := PosOf(cat.nodes), OnOf(cat.nodes);
    var cats, openCat := [], false;
    if cat.nodes != [] {
      var n, i := 0, cat.nodes[0].start;
      ghost var t := 0;
      WalkFirst(cat.nodes);
      RangesStep(cat.nodes, 0);
      while i < cat.highbit
        invariant n < |cat.nodes| && Walking(cat.nodes, n, i, t) && t <= 64 * |cat.nodes|
        invariant Ranges(cats, openCat) == RangesUpTo(pos, on, t)
        decreases cat.highbit - i
      {
        WalkNext(cat.nodes, n, i, t);
        RangesStep(cat.nodes, t);
        if Has(cat.nodes[n].map_, i - cat.nodes[n].start) {
          if !openCat {
            cats := [SemanticCat(i + 1, 0)] + cats;
            openCat := true;
          }
        } else if openCat {
          cats := [cats[0].(high := i)] + cats[1..];
          openCat := false;
        }
        t := t + 1;
        if i == cat.nodes[n].start + 63 && n + 1 < |cat.nodes| {
          n := n + 1;
          i := cat.nodes[n].start;
        } else {
          i := i + 1;
        }
      }
      WalkLast(cat.nodes, n, i, t);
      RangesStep(cat.nodes, t - 1);
      if openCat {
        OpenHasCat(pos, on, t);
        cats := [cats[0].(high := i)] + cats[1..];
      }
    }
    sl := SemanticLevel(sens, cats);
  }

  lemma OpenHasCat(pos: seq<nat>, on: seq<bool>, t: nat)
    requires |pos| == |on| && t <= |pos| && RangesUpTo(pos, on, t).open
    ensures RangesUpTo(pos, on, t).cats != []
  {
    RangesHold(pos, on, t);
  }

  // ---------------------------------------------------------------- mls_semantic_level_expand

  /** A nonempty range of categories that may go with the level. */
  predicate CatAllowed(c: SemanticCat, allowed: set<nat>) {
    0 < c.low <= c.high && CatCovered(c) <= allowed
  }

  predicate Expandable(cats: seq<SemanticCat>, allowed: set<nat>) {
    forall k :: 0 <= k < |cats| ==> CatAllowed(cats[k], allowed)
  }

  lemma {:induction false} CatsAppend(cats: seq<SemanticCat>, c: SemanticCat)
    ensures CatsDenote(cats + [c]) == CatsDenote(cats) + CatCovered(c)
  {
    if cats == [] {
      assert [c] + [] == [c];
      DenoteFirst(c, []);
      assert cats + [c] == [c];
    } else {
      CatsAppend(cats[1..], c);
      assert cats + [c] == [cats[0]] + (cats[1..] + [c]);
      DenoteFirst(cats[0], cats[1..] + [c]);
    }
  }

  /** Fills one range; stops at a category the level does not have. */
  method FillRange(c: SemanticCat, allowed: Bitmap, cat: Bitmap) returns (ok: bool)
    requires allowed.Valid() && cat.Valid() && cat != allowed && 0 < c.low <= c.high < LIMIT
    modifies cat
    ensures cat.Valid()
    ensures ok <==> CatCovered(c) <= allowed.Contents()
    ensures ok ==> cat.Contents() == old(cat.Contents()) + CatCovered(c)
  {
    ghost var base := cat.Contents();
    hide Elements, Ordered;
    for i := c.low - 1 to c.high
      invariant cat.Valid() && cat.Contents() == base + Interval(c.low - 1, i)
      invariant Interval(c.low - 1, i) <= allowed.Contents()
    {
      var has := allowed.GetBit(i);
      if !has {
        assert i in CatCovered(c);
        return false;
      }
      MemberBound(allowed, i);
      var rc := cat.SetBit(i, true);
      assert Interval(c.low - 1, i + 1) == Interval(c.low - 1, i) + {i};
    }
    ok := true;
  }

  lemma MemberBound(e: Bitmap, x: nat)
    requires e.Valid() && x in e.Contents()
    ensures x < LIMIT - MAPSIZE
  {
    var n := MemberNode(e.nodes, x);
    assert e.nodes[n].start + MAPSIZE < LIMIT && e.nodes[n].start % MAPSIZE == 0;
  }

  /** Expands a level; sensitivity 0 stands for a required level that is not declared, and without MLS there is none. */
  method MlsSemanticLevelExpand(mls: bool, sl: SemanticLevel, levels: seq<Option<Bitmap>>, cat: Bitmap) returns (rc: int, sens: nat)
    requires cat.Valid() && cat.Contents() == {}
    requires forall k :: 0 <= k < |levels| && levels[k].Some? ==> levels[k].value != cat && levels[k].value.Valid()
    requires forall k :: 0 <= k < |sl.cats| ==> sl.cats[k].low < LIMIT && sl.cats[k].high < LIMIT
    modifies cat
    ensures cat.Valid() && (rc == 0 || rc == -1)
    ensures !mls || sl.sens == 0 ==> rc == 0 && sens == 0 && cat.Contents() == {}
    ensures mls && sl.sens > 0 ==> (rc == 0 <==>
      && sl.sens <= |levels| && levels[sl.sens - 1].Some?
      && Expandable(sl.cats, levels[sl.sens - 1].value.Contents()))
    ensures mls && sl.sens > 0 && rc == 0 ==> sens == sl.sens && cat.Contents() == CatsDenote(sl.cats)
    ensures mls && sl.sens > 0 && rc == 0 ==>
      forall x :: x in cat.Contents() <==> exists k :: 0 <= k < |sl.cats| && Includes(sl.cats[k], x)
    ensures mls && sl.sens > 0 && rc == 0 ==> forall k :: 0 <= k < |sl.cats| ==> 0 < sl.cats[k].low <= sl.cats[k].high
    ensures mls && sl.sens > 0 && rc == 0 ==> sl.sens <= |levels| && levels[sl.sens - 1].Some? && cat.Contents() <= levels[sl.sens - 1].value.Contents()
  {
    sens := 0;
    if !mls || sl.sens == 0 { return 0, 0; }
    if sl.sens > |levels| || levels[sl.sens - 1].None? { return -1, 0; }
    sens := sl.sens;
    var allowed := levels[sl.sens - 1].value;
    hide Elements, Ordered, CatCovered, Includes;
    assert CatsDenote([]) == {};
    for k := 0 to |sl.cats|
      invariant cat.Valid() && Expandable(sl.cats[..k], allowed.Contents())
      invariant cat.Contents() == CatsDenote(sl.cats[..k])
    {
      assert sl.cats[..k + 1] == sl.cats[..k] + [sl.cats[k]];
      CatsAppend(sl.cats[..k], sl.cats[k]);
      if sl.cats[k].low == 0 || sl.cats[k].low > sl.cats[k].high { return -1, sens; }
      var ok := FillRange(sl.cats[k], allowed, cat);
      if !ok { return -1, sens; }
    }
    assert sl.cats[..|sl.cats|] == sl.cats;
    forall x: nat ensures x in CatsDenote(sl.cats) <==> exists k :: 0 <= k < |sl.cats| && Includes(sl.cats[k], x) {
      DenoteIncludes(sl.cats, x);
    }
    CatsInside(sl.cats, allowed.Contents());
    rc := 0;
  }

  // ---------------------------------------------------------------- there and back

  /** Finished ranges are not empty. */
  ghost predicate Upward(rs: Ranges, next: nat) {
    && (forall k :: (if rs.open then 1 else 0) <= k < |rs.cats| ==> 0 < rs.cats[k].low <= rs.cats[k].high)
    && (rs.open && rs.cats != [] ==> 0 < rs.cats[0].low <= next)
  }

  lemma {:induction false} RangesUpward(pos: seq<nat>, on: seq<bool>, k: nat)
    requires |pos| == |on| && Visited(pos) && k <= |pos|
    ensures Upward(RangesUpTo(pos, on, k), if k == 0 then 0 else pos[k - 1] + 1)
    decreases k
  {
    if k > 0 {
      RangesUpward(pos, on, k - 1);
      if k > 1 { assert pos[k - 2] < pos[k - 1]; }
      hide Visited;
    }
  }

  lemma SemanticUpward(nodes: seq<BitNode>)
    requires Ordered(nodes)
    ensures forall k :: 0 <= k < |SemanticCats(nodes)| ==> 0 < SemanticCats(nodes)[k].low <= SemanticCats(nodes)[k].high
  {
    hide PosOf, OnOf, RangesUpTo, Ordered, Visited;
    PosVisited(nodes);
    RangesUpward(PosOf(nodes), OnOf(nodes), |PosOf(nodes)|);
  }

  lemma {:induction false} CatsInside(cats: seq<SemanticCat>, allowed: set<nat>)
    requires forall k :: 0 <= k < |cats| ==> 0 < cats[k].low <= cats[k].high
    ensures Expandable(cats, allowed) <==> CatsDenote(cats) <= allowed
  {
    hide CatCovered;
    if cats != [] { CatsInside(cats[1..], allowed); }
  }

  /**
     A level whose categories its sensitivity allows survives conversion to ranges and back
     exactly when no edge bit is followed by a gap.
   */
  lemma LevelRoundTrip(nodes: seq<BitNode>, allowed: set<nat>)
    requires Ordered(nodes) && Elements(nodes) <= allowed
    ensures Expandable(SemanticCats(nodes), allowed) && CatsDenote(SemanticCats(nodes)) == Elements(nodes) <==> EdgesClear(nodes)
  {
    hide *;
    SemanticExactly(nodes);
    SemanticUpward(nodes);
    CatsInside(SemanticCats(nodes), allowed);
  }

  /** Category 63 alone in its node, then category 128: the ranges are not the level. */
  lemma EdgeMisconverted()
    ensures var nodes := [BitNode(0, Bit(63)), BitNode(128, Bit(0))];
      Ordered(nodes) && CatsDenote(SemanticCats(nodes)) != Elements(nodes)
  {
    hide Elements, CatsDenote, SemanticCats, Has, Bit, Shl;
    var nodes := [BitNode(0, Bit(63)), BitNode(128, Bit(0))];
    BitNonzero(63);
    BitNonzero(0);
    BitIs(63, 63);
    assert nodes[1].start != nodes[0].start + 64 && Has(nodes[0].map_, 63);
    SemanticExactly(nodes);
  }
}
