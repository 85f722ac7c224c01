/**
 The conditional half of the optimiser (src/optimize.c): redundant rules leave their branch
 list for a deletion list, and the nodes on it are then unlinked from the conditional table.
 */
module OptimizeCond {
  import opened Prelude
  import opened Avtab
  import opened Masks
  import opened TypeMaps
  import opened AccessDecision
  import opened CondExpr
  import opened PolicyDb
  import opened Optimize
  import opened Conditional

  ghost predicate ListCovered(tm: TypeMaps, pool: seq<Node>, list: seq<nat>, key: Key, a: Access)
    requires tm.InRange()
  {
    exists q: nat :: q in list && q < |pool| && Speaks(tm, pool[q], a) && !SameTriple(pool[q].key, key)
  }

  ghost function ListCovers(tm: TypeMaps, pool: seq<Node>, list: seq<nat>, key: Key): Access -> bool
    requires tm.InRange()
  {
    a => ListCovered(tm, pool, list, key, a)
  }

  predicate WithAttr(tm: TypeMaps, key: Key)
    requires 0 < key.source <= tm.Nprim() && 0 < key.target <= tm.Nprim()
  {
    tm.flavor[key.source - 1] == Attribute || tm.flavor[key.target - 1] == Attribute
  }

  /** Rule `q` of a list has the specifier of `a` and another triple. */
  ghost predicate Listed(a: Node, pool: seq<Node>, list: seq<nat>, q: nat) {
    q in list && q < |pool| && pool[q].key.specified == a.key.specified && !SameTriple(pool[q].key, a.key)
  }

  /** Rule `a` is apart from all of these, extended rules included. */
  ghost predicate ApartFromList(tm: TypeMaps, a: Node, pool: seq<Node>, list: seq<nat>)
    requires tm.InRange()
  {
    forall q: nat :: Listed(a, pool, list, q) ==> Apart(tm, a, pool[q]) && XApart(tm, a, pool[q])
  }

  ghost predicate ApartUpTo(tm: TypeMaps, a: Node, pool: seq<Node>, list: seq<nat>, i: nat)
    requires tm.InRange()
  {
    forall x :: 0 <= x < i && x < |list| && Listed(a, pool, list, list[x]) ==> Apart(tm, a, pool[list[x]]) && XApart(tm, a, pool[list[x]])
  }

  /** How far the walk over the list has got: what is left of `entry`, and what it is apart from. */
  ghost predicate WalkedSoFar(tm: TypeMaps, entry: Node, trimmed: Node, pool: seq<Node>, list: seq<nat>, i: nat)
    requires tm.InRange()
  {
    && Reduced(tm, entry, trimmed, ListCovers(tm, pool, list, entry.key), false)
    && Less(entry, trimmed) && KeepsApart(tm, entry, trimmed)
    && ApartUpTo(tm, trimmed, pool, list, i)
  }

  lemma WalkStart(tm: TypeMaps, entry: Node, pool: seq<Node>, list: seq<nat>) returns (k: Kind)
    requires tm.InRange() && RuleOk(tm, entry)
    ensures OfKind(entry.key.specified, k) && (Has(entry.key.specified, AV | XPERMS) <==> IsAv(k) || IsX(k))
    ensures WalkedSoFar(tm, entry, entry, pool, list, 0)
  {
    k :| OfKind(entry.key.specified, k);
    KindFacts(entry.key.specified, k);
    hide OfKind, Has, Speaks, Apart, XApart;
    LessSame(tm, entry);
  }

  lemma WalkStep(tm: TypeMaps, entry: Node, trimmed: Node, next: Node, pool: seq<Node>, list: seq<nat>, i: nat)
    requires tm.InRange() && WalkedSoFar(tm, entry, trimmed, pool, list, i) && i < |list|
    requires Reduced(tm, entry, next, ListCovers(tm, pool, list, entry.key), false)
    requires Less(trimmed, next) && KeepsApart(tm, trimmed, next)
    requires Listed(next, pool, list, list[i]) ==> Apart(tm, next, pool[list[i]]) && XApart(tm, next, pool[list[i]])
    ensures WalkedSoFar(tm, entry, next, pool, list, i + 1)
  {
    LessKey(trimmed, next);
    hide Reduced, Less, Apart, XApart;
    LessMore(entry, trimmed, next);
  }

  lemma WalkDone(tm: TypeMaps, entry: Node, trimmed: Node, pool: seq<Node>, list: seq<nat>)
    requires tm.InRange() && WalkedSoFar(tm, entry, trimmed, pool, list, |list|)
    ensures ApartFromList(tm, trimmed, pool, list)
  {
    hide Reduced, Less, Apart, XApart, KeepsApart;
    forall q: nat | Listed(trimmed, pool, list, q) ensures Apart(tm, trimmed, pool[q]) && XApart(tm, trimmed, pool[q]) {
      var x :| 0 <= x < |list| && list[x] == q;
    }
  }

  lemma WalkFacts(tm: TypeMaps, entry: Node, trimmed: Node, pool: seq<Node>, list: seq<nat>, i: nat)
    requires tm.InRange() && WalkedSoFar(tm, entry, trimmed, pool, list, i)
    ensures Reduced(tm, entry, trimmed, ListCovers(tm, pool, list, entry.key), false)
    ensures Less(entry, trimmed) && KeepsApart(tm, entry, trimmed) && trimmed.key == entry.key
  {
    LessKey(entry, trimmed);
  }

  lemma OtherKindUnlisted(tm: TypeMaps, a: Node, pool: seq<Node>, list: seq<nat>, k: Kind)
    requires tm.InRange() && OfKind(a.key.specified, k) && !IsAv(k) && !IsX(k)
    ensures ApartFromList(tm, a, pool, list)
  {
    forall l | OfKind(a.key.specified, l) ensures !IsAv(l) && !IsX(l) { KindUnique(a.key.specified, k, l); }
  }

  /** Whether rules later in the same branch list cover `entry`; if not, it repeats none of them. */
  method IsCondRuleRedundant(tm: TypeMaps, entry: Node, list: seq<nat>, pool: seq<Node>, map_: seq<seq<nat>>)
    returns (redundant: bool, trimmed: Node)
    requires tm.Valid() && TypeMapOk(tm, map_) && RuleOk(tm, entry) && RulesOk(tm, pool)
    requires forall i :: 0 <= i < |list| ==> list[i] < |pool|
    ensures Reduced(tm, entry, trimmed, ListCovers(tm, pool, list, entry.key), redundant)
    ensures Less(entry, trimmed)
    ensures !redundant ==> KeepsApart(tm, entry, trimmed) && ApartFromList(tm, trimmed, pool, list)
    ensures !Has(entry.key.specified, AV | XPERMS) ==> !redundant && trimmed == entry
  {
    hide *;
    RowsThere(tm, map_, entry);
    ghost var k := WalkStart(tm, entry, pool, list);
    WalkFacts(tm, entry, entry, pool, list, 0);
    trimmed := entry;
    if !Has(entry.key.specified, AV | XPERMS) {
      OtherKindUnlisted(tm, entry, pool, list, k);
      return false, entry;
    }
    for i := 0 to |list|
      invariant WalkedSoFar(tm, entry, trimmed, pool, list, i)
    {
      WalkFacts(tm, entry, trimmed, pool, list, i);
      var done, next := TryListCover(tm, entry, trimmed, list, list[i], pool, map_, k);
      LessMore(entry, trimmed, next);
      if done { return true, next; }
      WalkStep(tm, entry, trimmed, next, pool, list, i);
      trimmed := next;
    }
    redundant := false;
    WalkFacts(tm, entry, trimmed, pool, list, |list|);
    WalkDone(tm, entry, trimmed, pool, list);
  }

  method TryListCover(tm: TypeMaps, entry: Node, trimmed: Node, ghost list: seq<nat>, q: nat, pool: seq<Node>,
                      map_: seq<seq<nat>>, ghost k: Kind)
    returns (done: bool, next: Node)
    requires tm.Valid() && TypeMapOk(tm, map_) && RuleOk(tm, entry) && RulesOk(tm, pool)
    requires q in list && q < |pool|
    requires OfKind(entry.key.specified, k) && (IsAv(k) || IsX(k))
    requires Reduced(tm, entry, trimmed, ListCovers(tm, pool, list, entry.key), false)
    ensures Reduced(tm, entry, next, ListCovers(tm, pool, list, entry.key), done)
    ensures Less(trimmed, next)
    ensures !done ==> KeepsApart(tm, trimmed, next)
    ensures !done && Listed(next, pool, list, q) ==> Apart(tm, next, pool[q]) && XApart(tm, next, pool[q])
  {
    hide *;
    RowsThere(tm, map_, entry);
    AsItWas(tm, entry, trimmed, pool, list);
    var k1, k2 := entry.key, pool[q].key;
    if k1.specified != k2.specified || k1.tclass != k2.tclass || (k1.source == k2.source && k1.target == k2.target) {
      NotLooked(tm, trimmed, pool, list, q);
      return false, trimmed;
    }
    VectorsAscend(tm, map_, entry, pool, q);
    var inSource := TypeVecContains(map_[k1.source - 1], k2.source - 1);
    if !inSource {
      NotWide(tm, trimmed, pool[q], map_);
      return false, trimmed;
    }
    var inTarget := TypeVecContains(map_[k1.target - 1], k2.target - 1);
    if !inTarget {
      NotWide(tm, trimmed, pool[q], map_);
      return false, trimmed;
    }
    WideCovers(tm, entry, pool, list, q, map_, k);
    done, next := CoverBy(tm, entry, trimmed, pool[q], k, ListCovers(tm, pool, list, entry.key));
    if !done {
      KeptKey(tm, entry, next, ListCovers(tm, pool, list, entry.key), done);
      LeftIsApart(tm, next, pool[q], k);
    }
  }

  lemma AsItWas(tm: TypeMaps, entry: Node, trimmed: Node, pool: seq<Node>, list: seq<nat>)
    requires tm.InRange() && Reduced(tm, entry, trimmed, ListCovers(tm, pool, list, entry.key), false)
    ensures trimmed.key == entry.key && Less(trimmed, trimmed) && KeepsApart(tm, trimmed, trimmed)
  {
    LessSame(tm, trimmed);
  }

  lemma NotLooked(tm: TypeMaps, a: Node, pool: seq<Node>, list: seq<nat>, q: nat)
    requires tm.InRange() && q < |pool|
    requires a.key.specified != pool[q].key.specified || a.key.tclass != pool[q].key.tclass ||
      (a.key.source == pool[q].key.source && a.key.target == pool[q].key.target)
    ensures Listed(a, pool, list, q) ==> Apart(tm, a, pool[q]) && XApart(tm, a, pool[q])
  {
    hide LeftOver, XLeft, IsSuperset, Overlaps;
  }

  lemma NotWide(tm: TypeMaps, a: Node, c: Node, map_: seq<seq<nat>>)
    requires tm.InRange() && TypeMapOk(tm, map_) && 0 < a.key.source <= |map_| && 0 < a.key.target <= |map_|
    requires c.key.source > 0 && c.key.target > 0
    requires c.key.source - 1 !in map_[a.key.source - 1] || c.key.target - 1 !in map_[a.key.target - 1]
    ensures Apart(tm, a, c) && XApart(tm, a, c)
  {
    hide IsSuperset, Overlaps, LeftOver, XLeft;
  }

  lemma VectorsAscend(tm: TypeMaps, map_: seq<seq<nat>>, entry: Node, pool: seq<Node>, q: nat)
    requires tm.InRange() && TypeMapOk(tm, map_) && 0 < entry.key.source <= |map_| && 0 < entry.key.target <= |map_|
    requires RulesOk(tm, pool) && q < |pool|
    ensures Ascending(map_[entry.key.source - 1]) && Ascending(map_[entry.key.target - 1])
    ensures RuleOk(tm, pool[q]) && pool[q].key.source > 0 && pool[q].key.target > 0
  {
    hide IsSuperset, Ascending, OneKind;
  }

  lemma WideCovers(tm: TypeMaps, entry: Node, pool: seq<Node>, list: seq<nat>, q: nat, map_: seq<seq<nat>>, k: Kind)
    requires tm.InRange() && TypeMapOk(tm, map_) && 0 < entry.key.source <= |map_| && 0 < entry.key.target <= |map_|
    requires q in list && q < |pool| && pool[q].key.source > 0 && pool[q].key.target > 0
    requires OfKind(entry.key.specified, k) && entry.key.specified == pool[q].key.specified
    requires pool[q].key.source != entry.key.source || pool[q].key.target != entry.key.target
    requires pool[q].key.source - 1 in map_[entry.key.source - 1] && pool[q].key.target - 1 in map_[entry.key.target - 1]
    ensures IsSuperset(tm, entry.key.source - 1, pool[q].key.source - 1) && IsSuperset(tm, entry.key.target - 1, pool[q].key.target - 1)
    ensures Overlaps(entry.key.specified, pool[q].key.specified)
    ensures forall x :: Speaks(tm, pool[q], x) ==> ListCovers(tm, pool, list, entry.key)(x)
  {
    hide IsSuperset, OfKind, Overlaps, Speaks;
    SelfOverlap(entry.key.specified, k);
  }

  lemma LeftIsApart(tm: TypeMaps, a: Node, c: Node, k: Kind)
    requires tm.InRange() && OfKind(a.key.specified, k) && (IsAv(k) ==> LeftOver(k, a, c))
    ensures Apart(tm, a, c)
  {
    hide LeftOver, IsSuperset, Overlaps, OfKind;
    forall l | IsAv(l) && OfKind(a.key.specified, l) ensures LeftOver(l, a, c) { KindUnique(a.key.specified, k, l); }
  }

  lemma SelfOverlap(x: bv16, k: Kind)
    requires OfKind(x, k)
    ensures Overlaps(x, x)
  {
    OverlapSameKind(x, x, k, k);
  }

  /** What a branch decides together with the unconditional rules. */
  ghost predicate BranchDecides(tm: TypeMaps, tePool: seq<Node>, teTable: seq<seq<nat>>,
                                pool: seq<Node>, list: seq<nat>, a: Access)
    requires tm.InRange()
  {
    TableDecides(tm, tePool, teTable, a) || ListDecides(tm, pool, list, a)
  }

  /** Over closed rows, both lists decide the same together with the unconditional rules. */
  ghost predicate SameBranch(tm: TypeMaps, tePool: seq<Node>, teTable: seq<seq<nat>>,
                             poolA: seq<Node>, listA: seq<nat>, poolB: seq<Node>, listB: seq<nat>)
    requires tm.InRange()
  {
    tm.RowsClosed() ==>
      forall a :: BranchDecides(tm, tePool, teTable, poolA, listA, a) <==> BranchDecides(tm, tePool, teTable, poolB, listB, a)
  }

  lemma ReduceKeepsBranch(tm: TypeMaps, tePool: seq<Node>, teTable: seq<seq<nat>>, pool: seq<Node>,
                          list: seq<nat>, list': seq<nat>, cover: seq<nat>, p: nat, m: Node, b: Node, r1: bool, r2: bool)
    requires tm.InRange() && p in list && p < |pool|
    requires forall q: nat :: q in cover ==> q in list
    requires Reduced(tm, pool[p], m, Covers(tm, tePool, teTable, pool[p].key, false), r1)
    requires if r1 then b == m else Reduced(tm, m, b, ListCovers(tm, pool, cover, m.key), r2)
    requires forall q: nat :: q in list' <==> q in list && !((r1 || r2) && q == p)
    ensures SameBranch(tm, tePool, teTable, pool, list, pool[p := b], list')
  {
    hide Speaks;
    var pool' := pool[p := b];
    forall a | tm.RowsClosed()
      ensures BranchDecides(tm, tePool, teTable, pool, list, a) <==> BranchDecides(tm, tePool, teTable, pool', list', a)
    {
      if Covered(tm, tePool, teTable, pool[p].key, false, a) {
      } else if BranchDecides(tm, tePool, teTable, pool, list, a) && !TableDecides(tm, tePool, teTable, a) {
        var q: nat :| q in list && q < |pool| && Speaks(tm, pool[q], a);
        if q == p && !(!r1 && !r2 && Speaks(tm, b, a)) {
          assert ListCovered(tm, pool, cover, m.key, a);
          var r: nat :| r in cover && r < |pool| && Speaks(tm, pool[r], a) && !SameTriple(pool[r].key, m.key);
          assert r != p && pool'[r] == pool[r];
        } else {
          assert Speaks(tm, pool'[q], a);
        }
      }
      if BranchDecides(tm, tePool, teTable, pool', list', a) && !TableDecides(tm, tePool, teTable, a) {
        var q: nat :| q in list' && q < |pool| && Speaks(tm, pool'[q], a);
        assert Speaks(tm, pool[q], a);
      }
    }
  }

  /** Moves the rules on an attribute behind all others; `pcov` is the moved part. */
  method SeparateCovering(tm: TypeMaps, list: seq<nat>, pool: seq<Node>) returns (head: seq<nat>, pcov: seq<nat>)
    requires RulesOk(tm, pool) && forall i :: 0 <= i < |list| ==> list[i] < |pool|
    ensures multiset(head + pcov) == multiset(list)
    ensures forall q: nat :: q in head ==> q < |pool| && !WithAttr(tm, pool[q].key)
    ensures forall q: nat :: q in pcov ==> q < |pool| && WithAttr(tm, pool[q].key)
  {
    head, pcov := [], [];
    for i := 0 to |list|
      invariant multiset(head) + multiset(pcov) == multiset(list[..i])
      invariant forall q: nat :: q in head ==> q < |pool| && !WithAttr(tm, pool[q].key)
      invariant forall q: nat :: q in pcov ==> q < |pool| && WithAttr(tm, pool[q].key)
    {
      assert RuleOk(tm, pool[list[i]]);
      assert list[..i + 1] == list[..i] + [list[i]];
      if WithAttr(tm, pool[list[i]].key) {
        pcov := [list[i]] + pcov;
      } else {
        head := head + [list[i]];
      }
    }
    assert list[..|list|] == list;
  }

  /**
     Trims the rule at `list[i]` against the table, then against `cover`, and writes it back.
     A rule that stays repeats neither; a type rule stays as it is.
   */
  method ReduceCondRule(tm: TypeMaps, te: Avtab, teCond: Avtab, map_: seq<seq<nat>>, list: seq<nat>, i: nat, cover: seq<nat>)
    returns (redundant: bool)
    requires te != teCond && tm.Valid() && TypeMapOk(tm, map_)
    requires te.Valid() && teCond.Valid() && RulesOk(tm, te.pool) && RulesOk(tm, teCond.pool)
    requires NoDuplicates(list) && i < |list| && forall q: nat :: q in list ==> q < |teCond.pool|
    requires forall q: nat :: q in cover ==> q in list
    modifies teCond`pool
    ensures teCond.Valid() && RulesOk(tm, teCond.pool) && SameKeys(old(teCond.pool), teCond.pool)
    ensures list[i] < |teCond.pool| == |old(teCond.pool)| && teCond.pool == old(teCond.pool)[list[i] := teCond.pool[list[i]]]
    ensures SameBranch(tm, te.pool, te.htable, old(teCond.pool), list, teCond.pool,
              if redundant then RemoveAt(list, i) else list)
    ensures Less(old(teCond.pool)[list[i]], teCond.pool[list[i]])
    ensures !redundant ==> (UniqueKeys(te.pool, te.htable) ==>
      ApartFromTable(tm, teCond.pool[list[i]], te.pool, te.htable, false, SingleKeys(te.pool, te.htable)))
    ensures !redundant ==> ApartFromList(tm, teCond.pool[list[i]], old(teCond.pool), cover)
    ensures !Has(old(teCond.pool)[list[i]].key.specified, AV | XPERMS) ==> !redundant && teCond.pool == old(teCond.pool)
  {
    hide *;
    var p, pool := list[i], teCond.pool;
    assert p in list;
    NodeRuleOk(tm, pool, p);
    var r1, m := IsAvruleRedundant(tm, pool[p], te, map_, false);
    KeptKey(tm, pool[p], m, Covers(tm, te.pool, te.htable, pool[p].key, false), r1);
    var r2, b := false, m;
    if !r1 {
      forall j | 0 <= j < |cover| ensures cover[j] < |pool| { assert cover[j] in cover; }
      r2, b := IsCondRuleRedundant(tm, m, cover, pool, map_);
      KeptKey(tm, m, b, ListCovers(tm, pool, cover, m.key), r2);
      LessMore(pool[p], m, b);
      if !r2 && UniqueKeys(te.pool, te.htable) { StillApart(tm, m, b, te.pool, te.htable, SingleKeys(te.pool, te.htable)); }
    }
    teCond.SetDatum(p, b.datum);
    assert teCond.pool == pool[p := b];
    redundant := r1 || r2;
    ghost var rest := if redundant then RemoveAt(list, i) else list;
    DropsOne(list, i);
    ReduceKeepsBranch(tm, te.pool, te.htable, pool, list, rest, cover, p, m, b, r1, r2);
    TrimmedKeys(tm, te, pool, cover, p, m, b, r1, r2);
  }

  lemma NodeRuleOk(tm: TypeMaps, pool: seq<Node>, p: nat)
    requires tm.Valid() && RulesOk(tm, pool) && p < |pool|
    ensures tm.InRange() && RuleOk(tm, pool[p])
  {
  }

  lemma TrimmedKeys(tm: TypeMaps, te: Avtab, pool: seq<Node>, cover: seq<nat>, p: nat, m: Node, b: Node, r1: bool, r2: bool)
    requires tm.InRange() && RulesOk(tm, pool) && p < |pool|
    requires Reduced(tm, pool[p], m, Covers(tm, te.pool, te.htable, pool[p].key, false), r1)
    requires if r1 then b == m else Reduced(tm, m, b, ListCovers(tm, pool, cover, m.key), r2)
    ensures SameKeys(pool, pool[p := b]) && RulesOk(tm, pool[p := b])
  {
    hide Speaks, OneKind;
    SameKeysOk(tm, pool, pool[p := b]);
  }

  lemma StillApart(tm: TypeMaps, m: Node, b: Node, pool: seq<Node>, htable: seq<seq<nat>>, x: bool)
    requires tm.InRange() && KeepsApart(tm, m, b) && m.key == b.key && ApartFromTable(tm, m, pool, htable, false, x)
    ensures ApartFromTable(tm, b, pool, htable, false, x)
  {
    hide Apart, XApart, Linked;
    forall q: nat | LookedUp(b, pool, htable, false, q) ensures ApartBoth(tm, b, pool[q], x) {
      assert LookedUp(m, pool, htable, false, q);
    }
  }

  lemma DropsOne(list: seq<nat>, i: nat)
    requires NoDuplicates(list) && i < |list|
    ensures NoDuplicates(RemoveAt(list, i))
    ensures forall q: nat :: q in RemoveAt(list, i) <==> q in list && q != list[i]
    ensures multiset(RemoveAt(list, i)) + multiset{list[i]} == multiset(list)
  {
    var r := RemoveAt(list, i);
    assert forall k :: 0 <= k < |r| ==> r[k] == if k < i then list[k] else list[k + 1];
    assert list == list[..i] + [list[i]] + list[i + 1..];
    assert r == list[..i] + list[i + 1..];
  }

  /** The part of the list behind the cursor cell, or all of the moved rules before it is set. */
  function Covering(list: seq<nat>, pcov: seq<nat>, cell: Option<nat>): seq<nat> {
    if cell.Some? && cell.value <= |list| then list[cell.value..] else pcov
  }

  /**
     At cursor `i`, the rules reached through the saved cursor are exactly the rules on an
     attribute that are still in the list.
   */
  ghost predicate CoverInvariant(tm: TypeMaps, pool: seq<Node>, list: seq<nat>, pcov: seq<nat>, cell: Option<nat>, i: nat)
    requires RulesOk(tm, pool)
  {
    && i <= |list| && NoDuplicates(list)
    && (forall q: nat :: q in list ==> q < |pool|)
    && (forall q: nat :: q in list ==> (q in Covering(list, pcov, cell) <==> WithAttrAt(tm, pool, q)))
    && (forall q: nat :: q in Covering(list, pcov, cell) ==> q in list)
    && (cell.Some? ==> cell.value <= i)
    && (cell.None? ==> i + |pcov| <= |list| && list[|list| - |pcov|..] == pcov)
  }

  /** `*cond == pcov` is not going to hold a second time once the cursor has been saved. */
  ghost predicate SavedOnce(list: seq<nat>, pcov: seq<nat>, cell: Option<nat>, i: nat) {
    cell.Some? ==> pcov != [] && forall j :: i <= j < |list| ==> list[j] != pcov[0]
  }

  lemma SeparatedStart(tm: TypeMaps, pool: seq<Node>, cond: seq<nat>, head: seq<nat>, pcov: seq<nat>)
    requires RulesOk(tm, pool) && NoDuplicates(cond) && multiset(head + pcov) == multiset(cond)
    requires forall q: nat :: q in head ==> q < |pool| && !WithAttr(tm, pool[q].key)
    requires forall q: nat :: q in pcov ==> q < |pool| && WithAttr(tm, pool[q].key)
    ensures CoverInvariant(tm, pool, head + pcov, pcov, None, 0)
  {
    var list := head + pcov;
    assert forall q: nat :: q in list <==> q in head || q in pcov;
    forall i, j | 0 <= i < j < |list| ensures list[i] != list[j] {
      if list[i] == list[j] { Repeated(list, i, j); OccursOnce(cond, list[i]); }
    }
  }

  lemma {:induction false} OccursOnce(list: seq<nat>, q: nat)
    requires NoDuplicates(list)
    ensures multiset(list)[q] <= 1
  {
    if list != [] {
      var n := |list| - 1;
      assert list == list[..n] + [list[n]];
      OccursOnce(list[..n], q);
    }
  }

  lemma CoverFacts(tm: TypeMaps, pool: seq<Node>, list: seq<nat>, pcov: seq<nat>, cell: Option<nat>, i: nat)
    requires RulesOk(tm, pool) && CoverInvariant(tm, pool, list, pcov, cell, i)
    ensures i <= |list| && NoDuplicates(list)
    ensures forall q: nat :: q in list ==> q < |pool|
    ensures forall q: nat :: q in Covering(list, pcov, cell) ==> q in list
    ensures forall q: nat :: q in list && WithAttrAt(tm, pool, q) ==> q in Covering(list, pcov, cell)
  {
  }

  /** The cursor stands on the first moved rule: from here on it is saved. */
  lemma CursorReached(tm: TypeMaps, pool: seq<Node>, list: seq<nat>, pcov: seq<nat>, cell: Option<nat>, i: nat)
    requires RulesOk(tm, pool) && CoverInvariant(tm, pool, list, pcov, cell, i) && SavedOnce(list, pcov, cell, i)
    requires i < |list| && pcov != [] && list[i] == pcov[0]
    ensures CoverInvariant(tm, pool, list, pcov, Some(i), i) && SavedOnce(list, pcov, Some(i), i + 1)
  {
    assert list[|list| - |pcov|] == list[|list| - |pcov|..][0];
  }

  lemma CursorPassed(tm: TypeMaps, pool: seq<Node>, list: seq<nat>, pcov: seq<nat>, cell: Option<nat>, i: nat)
    requires RulesOk(tm, pool) && CoverInvariant(tm, pool, list, pcov, cell, i) && SavedOnce(list, pcov, cell, i)
    requires i < |list| && !(pcov != [] && list[i] == pcov[0])
    ensures cell.None? ==> i + |pcov| < |list|
    ensures SavedOnce(list, pcov, cell, i + 1)
  {
    if cell.None? && pcov != [] {
      assert list[|list| - |pcov|] == list[|list| - |pcov|..][0];
    }
  }

  lemma CoverSameKeys(tm: TypeMaps, a: seq<Node>, b: seq<Node>, list: seq<nat>, pcov: seq<nat>, cell: Option<nat>, i: nat)
    requires RulesOk(tm, a) && RulesOk(tm, b) && SameKeys(a, b) && CoverInvariant(tm, a, list, pcov, cell, i)
    ensures CoverInvariant(tm, b, list, pcov, cell, i)
  {
  }

  lemma DropsBehind(list: seq<nat>, c: nat, i: nat)
    requires NoDuplicates(list) && c <= i < |list|
    ensures c <= |RemoveAt(list, i)| && forall q: nat :: q in RemoveAt(list, i)[c..] <==> q in list[c..] && q != list[i]
  {
    var r := RemoveAt(list, i);
    DropsOne(list[c..], i - c);
    assert r[c..] == RemoveAt(list[c..], i - c);
  }

  lemma DropsBefore(list: seq<nat>, n: nat, i: nat)
    requires NoDuplicates(list) && i + n < |list|
    ensures n <= |RemoveAt(list, i)| && RemoveAt(list, i)[|list| - 1 - n..] == list[|list| - n..]
    ensures list[i] !in list[|list| - n..]
  {
  }

  lemma CoverAfterRemoval(tm: TypeMaps, pool: seq<Node>, list: seq<nat>, pcov: seq<nat>, cell: Option<nat>, i: nat)
    requires RulesOk(tm, pool) && CoverInvariant(tm, pool, list, pcov, cell, i) && SavedOnce(list, pcov, cell, i + 1)
    requires i < |list| && (cell.None? ==> i + |pcov| < |list|)
    ensures CoverInvariant(tm, pool, RemoveAt(list, i), pcov, cell, i)
    ensures SavedOnce(RemoveAt(list, i), pcov, cell, i)
  {
    hide RulesOk, WithAttrAt, NoDuplicates;
    DropsOne(list, i);
    if cell.Some? {
      DropsBehind(list, cell.value, i);
      StillSaved(list, pcov, cell, i);
    } else {
      DropsBefore(list, |pcov|, i);
    }
  }

  lemma StillSaved(list: seq<nat>, pcov: seq<nat>, cell: Option<nat>, i: nat)
    requires i < |list| && SavedOnce(list, pcov, cell, i + 1)
    ensures SavedOnce(RemoveAt(list, i), pcov, cell, i)
  {
  }

  lemma CoverAfterKeep(tm: TypeMaps, pool: seq<Node>, list: seq<nat>, pcov: seq<nat>, cell: Option<nat>, i: nat)
    requires RulesOk(tm, pool) && CoverInvariant(tm, pool, list, pcov, cell, i)
    requires i < |list| && (cell.None? ==> i + |pcov| < |list|)
    ensures CoverInvariant(tm, pool, list, pcov, cell, i + 1)
  {
  }

  ghost predicate WithAttrAt(tm: TypeMaps, pool: seq<Node>, q: nat)
    requires RulesOk(tm, pool)
  {
    q < |pool| && WithAttr(tm, pool[q].key)
  }

  /**
     Rule `p` of a branch repeats no unconditional rule as wide, and no rule as wide of the
     branch that names an attribute. (A rule between plain types covers nothing in a branch.)
   */
  ghost predicate SettledRule(tm: TypeMaps, tePool: seq<Node>, teTable: seq<seq<nat>>, pool: seq<Node>, list: seq<nat>, p: nat)
    requires tm.InRange() && RulesOk(tm, pool)
  {
    && p < |pool|
    && (UniqueKeys(tePool, teTable) ==> ApartFromTable(tm, pool[p], tePool, teTable, false, SingleKeys(tePool, teTable)))
    && forall q: nat :: Listed(pool[p], pool, list, q) && WithAttrAt(tm, pool, q) ==> ApartBoth(tm, pool[p], pool[q], true)
  }

  ghost predicate SettledBefore(tm: TypeMaps, tePool: seq<Node>, teTable: seq<seq<nat>>, pool: seq<Node>, list: seq<nat>, i: nat)
    requires tm.InRange() && RulesOk(tm, pool)
  {
    forall x :: 0 <= x < i && x < |list| ==> SettledRule(tm, tePool, teTable, pool, list, list[x])
  }

  ghost predicate SettledBranch(tm: TypeMaps, tePool: seq<Node>, teTable: seq<seq<nat>>, pool: seq<Node>, list: seq<nat>)
    requires tm.InRange() && RulesOk(tm, pool)
  {
    forall p: nat :: p in list ==> SettledRule(tm, tePool, teTable, pool, list, p)
  }

  lemma SettledElsewhere(tm: TypeMaps, tePool: seq<Node>, teTable: seq<seq<nat>>, pool: seq<Node>, list: seq<nat>,
                         p: nat, b: Node, list': seq<nat>, x: nat)
    requires tm.InRange() && RulesOk(tm, pool) && p < |pool| && Less(pool[p], b) && RulesOk(tm, pool[p := b])
    requires x != p && SettledRule(tm, tePool, teTable, pool, list, x)
    requires forall q: nat :: q in list' ==> q in list
    ensures SettledRule(tm, tePool, teTable, pool[p := b], list', x)
  {
    LessKey(pool[p], b);
    assert RuleOk(tm, pool[p]);
    hide ApartBoth, Less, RulesOk, OneKind, UniqueKeys, SingleKeys, ApartFromTable, WithAttr;
    var pool' := pool[p := b];
    forall q: nat | Listed(pool'[x], pool', list', q) && WithAttrAt(tm, pool', q) ensures ApartBoth(tm, pool'[x], pool'[q], true) {
      assert Listed(pool[x], pool, list, q) && WithAttrAt(tm, pool, q);
      if q == p { BothFromLess(tm, pool[x], pool[p], b, true); }
    }
  }

  lemma SettledHere(tm: TypeMaps, tePool: seq<Node>, teTable: seq<seq<nat>>, pool: seq<Node>, list: seq<nat>, p: nat, b: Node, cover: seq<nat>)
    requires tm.InRange() && RulesOk(tm, pool) && p < |pool| && b.key == pool[p].key && RulesOk(tm, pool[p := b])
    requires UniqueKeys(tePool, teTable) ==> ApartFromTable(tm, b, tePool, teTable, false, SingleKeys(tePool, teTable))
    requires ApartFromList(tm, b, pool, cover) && forall q: nat :: q in list && WithAttrAt(tm, pool, q) ==> q in cover
    ensures SettledRule(tm, tePool, teTable, pool[p := b], list, p)
  {
    hide Apart, XApart, RulesOk, UniqueKeys, SingleKeys, ApartFromTable, WithAttr;
    var pool' := pool[p := b];
    forall q: nat | Listed(b, pool', list, q) && WithAttrAt(tm, pool', q) ensures ApartBoth(tm, b, pool'[q], true) {
      assert q != p;
      assert Listed(b, pool, cover, q);
    }
  }

  lemma SettledListStep(tm: TypeMaps, tePool: seq<Node>, teTable: seq<seq<nat>>, pool: seq<Node>, list: seq<nat>,
                        i: nat, b: Node, cover: seq<nat>, redundant: bool)
    requires tm.InRange() && RulesOk(tm, pool) && NoDuplicates(list) && i < |list| && list[i] < |pool|
    requires Less(pool[list[i]], b) && RulesOk(tm, pool[list[i] := b])
    requires SettledBefore(tm, tePool, teTable, pool, list, i)
    requires !redundant ==> (UniqueKeys(tePool, teTable) ==> ApartFromTable(tm, b, tePool, teTable, false, SingleKeys(tePool, teTable)))
    requires !redundant ==> ApartFromList(tm, b, pool, cover)
    requires forall q: nat :: q in list && WithAttrAt(tm, pool, q) ==> q in cover
    ensures SettledBefore(tm, tePool, teTable, pool[list[i] := b], if redundant then RemoveAt(list, i) else list,
              if redundant then i else i + 1)
  {
    var list' := if redundant then RemoveAt(list, i) else list;
    LessKey(pool[list[i]], b);
    DropsOne(list, i);
    hide Less, RulesOk, UniqueKeys, SingleKeys, ApartFromTable, ApartFromList, SettledRule, WithAttrAt;
    forall x | 0 <= x < (if redundant then i else i + 1) && x < |list'|
      ensures SettledRule(tm, tePool, teTable, pool[list[i] := b], list', list'[x])
    {
      assert list'[x] == list[x];
      if x == i {
        SettledHere(tm, tePool, teTable, pool, list, list[i], b, cover);
      } else {
        SettledElsewhere(tm, tePool, teTable, pool, list, list[i], b, list', list[x]);
      }
    }
  }

  lemma SettledWhole(tm: TypeMaps, tePool: seq<Node>, teTable: seq<seq<nat>>, pool: seq<Node>, list: seq<nat>)
    requires tm.InRange() && RulesOk(tm, pool) && SettledBefore(tm, tePool, teTable, pool, list, |list|)
    ensures SettledBranch(tm, tePool, teTable, pool, list)
  {
    hide SettledRule, RulesOk;
    forall p: nat | p in list ensures SettledRule(tm, tePool, teTable, pool, list, p) {
      var x :| 0 <= x < |list| && list[x] == p;
    }
  }

  lemma NothingSettled(tm: TypeMaps, tePool: seq<Node>, teTable: seq<seq<nat>>, pool: seq<Node>, list: seq<nat>)
    requires tm.InRange() && RulesOk(tm, pool)
    ensures SettledBefore(tm, tePool, teTable, pool, list, 0)
  {
  }

  lemma SameMembersSameBranch(tm: TypeMaps, tePool: seq<Node>, teTable: seq<seq<nat>>, pool: seq<Node>, a: seq<nat>, b: seq<nat>)
    requires tm.InRange() && multiset(a) == multiset(b)
    ensures forall p: nat :: p in a <==> p in b
    ensures SameBranch(tm, tePool, teTable, pool, a, pool, b)
  {
    hide Speaks;
    assert forall p: nat :: (p in a <==> p in multiset(a)) && (p in b <==> p in multiset(b));
  }

  /** What a pass over one list has done so far. */
  ghost predicate Progress(tm: TypeMaps, tePool: seq<Node>, teTable: seq<seq<nat>>,
                           pool0: seq<Node>, cond: seq<nat>, del0: seq<nat>,
                           pool: seq<Node>, list: seq<nat>, del: seq<nat>)
    requires tm.InRange()
  {
    && SameKeys(pool0, pool)
    && (forall p: nat :: p < |pool| && p !in cond ==> pool[p] == pool0[p])
    && multiset(list) + multiset(del) == multiset(cond) + multiset(del0)
    && (forall p: nat :: p in list ==> p in cond)
    && SameBranch(tm, tePool, teTable, pool0, cond, pool, list)
    && OnlyAv(pool0, del0, pool, del)
  }

  /** Only access-vector and extended-permission rules are trimmed or put on the deletion list. */
  ghost predicate OnlyAv(pool0: seq<Node>, del0: seq<nat>, pool: seq<Node>, del: seq<nat>) {
    && (forall q: nat :: q in del ==> q in del0 || (q < |pool0| && Has(pool0[q].key.specified, AV | XPERMS)))
    && (forall p: nat :: p < |pool0| && p < |pool| && !Has(pool0[p].key.specified, AV | XPERMS) ==> pool[p] == pool0[p])
  }

  lemma ProgressFacts(tm: TypeMaps, tePool: seq<Node>, teTable: seq<seq<nat>>,
                      pool0: seq<Node>, cond: seq<nat>, del0: seq<nat>,
                      pool: seq<Node>, list: seq<nat>, del: seq<nat>)
    requires tm.InRange() && Progress(tm, tePool, teTable, pool0, cond, del0, pool, list, del)
    ensures SameKeys(pool0, pool) && |pool| == |pool0|
    ensures forall p: nat :: p < |pool| && p !in cond ==> pool[p] == pool0[p]
    ensures multiset(list) + multiset(del) == multiset(cond) + multiset(del0)
    ensures forall p: nat :: p in list ==> p in cond
    ensures SameBranch(tm, tePool, teTable, pool0, cond, pool, list)
    ensures OnlyAv(pool0, del0, pool, del)
  {
  }

  lemma ProgressStep(tm: TypeMaps, tePool: seq<Node>, teTable: seq<seq<nat>>,
                     pool0: seq<Node>, cond: seq<nat>, del0: seq<nat>,
                     pool: seq<Node>, list: seq<nat>, del: seq<nat>, pool': seq<Node>, i: nat, redundant: bool)
    requires tm.InRange() && Progress(tm, tePool, teTable, pool0, cond, del0, pool, list, del)
    requires NoDuplicates(list) && i < |list| && SameKeys(pool, pool') && list[i] < |pool|
    requires pool' == pool[list[i] := pool'[list[i]]]
    requires !Has(pool[list[i]].key.specified, AV | XPERMS) ==> !redundant && pool' == pool
    requires SameBranch(tm, tePool, teTable, pool, list, pool', if redundant then RemoveAt(list, i) else list)
    ensures Progress(tm, tePool, teTable, pool0, cond, del0, pool',
              if redundant then RemoveAt(list, i) else list, if redundant then [list[i]] + del else del)
  {
    hide BranchDecides, Has;
    DropsOne(list, i);
    assert list[i] in list;
  }

  method OptimizeCondAvList(tm: TypeMaps, te: Avtab, teCond: Avtab, map_: seq<seq<nat>>, cond: seq<nat>, del: seq<nat>)
    returns (list: seq<nat>, del': seq<nat>)
    requires te != teCond && tm.Valid() && TypeMapOk(tm, map_)
    requires te.Valid() && teCond.Valid() && RulesOk(tm, te.pool) && RulesOk(tm, teCond.pool)
    requires NoDuplicates(cond) && forall q: nat :: q in cond ==> q < |teCond.pool|
    modifies teCond`pool
    ensures teCond.Valid() && RulesOk(tm, teCond.pool) && SameKeys(old(teCond.pool), teCond.pool)
    ensures forall p: nat :: p < |teCond.pool| && p !in cond ==> teCond.pool[p] == old(teCond.pool)[p]
    ensures multiset(list) + multiset(del') == multiset(cond) + multiset(del)
    ensures forall p: nat :: p in list ==> p in cond
    ensures SameBranch(tm, te.pool, te.htable, old(teCond.pool), cond, teCond.pool, list)
    ensures OnlyAv(old(teCond.pool), del, teCond.pool, del')
    ensures tm.InRange() && SettledBranch(tm, te.pool, te.htable, teCond.pool, list)
  {
    hide *;
    ListStart(tm, te.pool, te.htable, teCond.pool, cond);
    var head, pcov := SeparateCovering(tm, cond, teCond.pool);
    list, del' := head + pcov, del;
    var cell: Option<nat> := None;
    var i := 0;
    SeparatedStart(tm, teCond.pool, cond, head, pcov);
    ProgressStart(tm, te.pool, te.htable, teCond.pool, cond, list, del, pcov);
    NothingSettled(tm, te.pool, te.htable, teCond.pool, list);
    while i < |list|
      invariant teCond.Valid() && RulesOk(tm, teCond.pool)
      invariant Progress(tm, te.pool, te.htable, old(teCond.pool), cond, del, teCond.pool, list, del')
      invariant CoverInvariant(tm, teCond.pool, list, pcov, cell, i) && SavedOnce(list, pcov, cell, i)
      invariant SettledBefore(tm, te.pool, te.htable, teCond.pool, list, i)
      decreases |list| - i
    {
      ghost var pool := teCond.pool;
      if pcov != [] && list[i] == pcov[0] {
        CursorReached(tm, teCond.pool, list, pcov, cell, i);
        cell := Some(i);
      } else {
        CursorPassed(tm, teCond.pool, list, pcov, cell, i);
      }
      CoverFacts(tm, teCond.pool, list, pcov, cell, i);
      ghost var cover := Covering(list, pcov, cell);
      var redundant := ReduceCondRule(tm, te, teCond, map_, list, i, Covering(list, pcov, cell));
      SettledListStep(tm, te.pool, te.htable, pool, list, i, teCond.pool[list[i]], cover, redundant);
      CoverSameKeys(tm, pool, teCond.pool, list, pcov, cell, i);
      ProgressStep(tm, te.pool, te.htable, old(teCond.pool), cond, del, pool, list, del', teCond.pool, i, redundant);
      if redundant {
        CoverAfterRemoval(tm, teCond.pool, list, pcov, cell, i);
        del' := [list[i]] + del';
        list := RemoveAt(list, i);
      } else {
        CoverAfterKeep(tm, teCond.pool, list, pcov, cell, i);
        i := i + 1;
      }
    }
    ProgressFacts(tm, te.pool, te.htable, old(teCond.pool), cond, del, teCond.pool, list, del');
    CoverFacts(tm, teCond.pool, list, pcov, cell, i);
    SettledWhole(tm, te.pool, te.htable, teCond.pool, list);
  }

  lemma ListStart(tm: TypeMaps, tePool: seq<Node>, teTable: seq<seq<nat>>, pool: seq<Node>, cond: seq<nat>)
    requires tm.Valid() && forall q: nat :: q in cond ==> q < |pool|
    ensures tm.InRange() && forall j :: 0 <= j < |cond| ==> cond[j] < |pool|
  {
    forall j | 0 <= j < |cond| ensures cond[j] < |pool| { assert cond[j] in cond; }
  }

  lemma ProgressStart(tm: TypeMaps, tePool: seq<Node>, teTable: seq<seq<nat>>, pool: seq<Node>,
                      cond: seq<nat>, list: seq<nat>, del: seq<nat>, pcov: seq<nat>)
    requires tm.InRange() && multiset(list) == multiset(cond)
    ensures Progress(tm, tePool, teTable, pool, cond, del, pool, list, del)
    ensures SavedOnce(list, pcov, None, 0)
  {
    hide SameBranch, Has;
    SameMembersSameBranch(tm, tePool, teTable, pool, cond, list);
  }

  // ---------------------------------------------------------------- all conditionals

  /** Over closed rows, the same decisions under every assignment. */
  ghost predicate SameDecisions(tm: TypeMaps, tePool: seq<Node>, teTable: seq<seq<nat>>, n: nat,
                                poolA: seq<Node>, condsA: seq<CondNode>, poolB: seq<Node>, condsB: seq<CondNode>)
    requires tm.InRange() && ExprsInScope(condsA, n) && ExprsInScope(condsB, n)
  {
    tm.RowsClosed() ==> forall asg: seq<bool>, a: Access :: |asg| == n ==>
      (DecidesIn(tm, tePool, teTable, poolA, condsA, asg, a) <==> DecidesIn(tm, tePool, teTable, poolB, condsB, asg, a))
  }

  lemma ListUntouched(tm: TypeMaps, a: seq<Node>, b: seq<Node>, touched: seq<nat>, list: seq<nat>, x: Access)
    requires tm.InRange() && |a| == |b|
    requires forall p: nat :: p < |b| && p !in touched ==> b[p] == a[p]
    requires forall p: nat :: p in list ==> p !in touched
    ensures ListDecides(tm, a, list, x) <==> ListDecides(tm, b, list, x)
  {
    hide Speaks;
    if ListDecides(tm, a, list, x) {
      var p: nat :| p in list && p < |a| && Speaks(tm, a[p], x);
      assert Speaks(tm, b[p], x);
    }
    if ListDecides(tm, b, list, x) {
      var p: nat :| p in list && p < |b| && Speaks(tm, b[p], x);
      assert Speaks(tm, a[p], x);
    }
  }

  /** Optimising one branch list changes no decision, whatever the booleans. */
  lemma BranchKeepsDecision(tm: TypeMaps, tePool: seq<Node>, teTable: seq<seq<nat>>,
                            poolA: seq<Node>, conds: seq<CondNode>, k: nat, side: bool,
                            poolB: seq<Node>, list: seq<nat>, asg: seq<bool>, x: Access, forward: bool)
    requires tm.InRange() && tm.RowsClosed()
    requires ExprsInScope(conds, |asg|) && k < |conds| && Unshared(conds) && |poolA| == |poolB|
    requires forall p: nat :: p < |poolB| && p !in ListOf(conds[k], side) ==> poolB[p] == poolA[p]
    requires SameBranch(tm, tePool, teTable, poolA, ListOf(conds[k], side), poolB, list)
    ensures ExprsInScope(conds[k := WithList(conds[k], side, list)], |asg|)
    ensures
      var conds' := conds[k := WithList(conds[k], side, list)];
      if forward then
        DecidesIn(tm, tePool, teTable, poolA, conds, asg, x) ==> DecidesIn(tm, tePool, teTable, poolB, conds', asg, x)
      else
        DecidesIn(tm, tePool, teTable, poolB, conds', asg, x) ==> DecidesIn(tm, tePool, teTable, poolA, conds, asg, x)
  {
    hide Speaks, Unshared, ListDecides, TableDecides;
    var conds' := conds[k := WithList(conds[k], side, list)];
    var touched := ListOf(conds[k], side);
    assert BranchDecides(tm, tePool, teTable, poolA, touched, x) <==> BranchDecides(tm, tePool, teTable, poolB, list, x);
    var from := if forward then conds else conds';
    var pool := if forward then poolA else poolB;
    if CondDecides(tm, pool, from, asg, x) {
      var i :| 0 <= i < |from| && ListDecides(tm, pool, Branch(from[i], Evaluate(from[i].expr, asg)), x);
      var o := Evaluate(conds[i].expr, asg);
      assert Evaluate(conds'[i].expr, asg) == o;
      if i == k && o == Defined(side) {
      } else {
        forall p: nat | p in Branch(conds[i], o) ensures p !in touched { ListsDisjoint(conds, k, i, p); }
        assert Branch(conds'[i], o) == Branch(conds[i], o);
        ListUntouched(tm, poolA, poolB, touched, Branch(conds[i], o), x);
      }
    }
  }

  lemma BranchKeepsDecisions(tm: TypeMaps, tePool: seq<Node>, teTable: seq<seq<nat>>, n: nat,
                             poolA: seq<Node>, conds: seq<CondNode>, k: nat, side: bool, poolB: seq<Node>, list: seq<nat>)
    requires tm.InRange() && ExprsInScope(conds, n) && k < |conds| && Unshared(conds) && |poolA| == |poolB|
    requires forall p: nat :: p < |poolB| && p !in ListOf(conds[k], side) ==> poolB[p] == poolA[p]
    requires SameBranch(tm, tePool, teTable, poolA, ListOf(conds[k], side), poolB, list)
    ensures ExprsInScope(conds[k := WithList(conds[k], side, list)], n)
    ensures SameDecisions(tm, tePool, teTable, n, poolA, conds, poolB, conds[k := WithList(conds[k], side, list)])
  {
    hide DecidesIn, SameBranch, Unshared;
    forall asg: seq<bool>, a: Access | |asg| == n && tm.RowsClosed()
      ensures DecidesIn(tm, tePool, teTable, poolA, conds, asg, a) <==>
        DecidesIn(tm, tePool, teTable, poolB, conds[k := WithList(conds[k], side, list)], asg, a)
    {
      BranchKeepsDecision(tm, tePool, teTable, poolA, conds, k, side, poolB, list, asg, a, true);
      BranchKeepsDecision(tm, tePool, teTable, poolA, conds, k, side, poolB, list, asg, a, false);
    }
  }

  /** A conditional with two empty lists decides nothing. */
  lemma EmptyCondKeeps(tm: TypeMaps, pool: seq<Node>, conds: seq<CondNode>, k: nat, conds': seq<CondNode>, asg: seq<bool>, a: Access)
    requires tm.InRange() && ExprsInScope(conds, |asg|) && ExprsInScope(conds', |asg|)
    requires k < |conds| && conds' == RemoveAt(conds, k)
    requires conds[k].trueList == [] && conds[k].falseList == []
    ensures CondDecides(tm, pool, conds, asg, a) <==> CondDecides(tm, pool, conds', asg, a)
  {
    hide Speaks, Evaluate;
    if CondDecides(tm, pool, conds, asg, a) {
      var i :| 0 <= i < |conds| && ListDecides(tm, pool, Branch(conds[i], Evaluate(conds[i].expr, asg)), a);
      assert i != k;
      assert conds'[if i < k then i else i - 1] == conds[i];
    }
    if CondDecides(tm, pool, conds', asg, a) {
      var i :| 0 <= i < |conds'| && ListDecides(tm, pool, Branch(conds'[i], Evaluate(conds'[i].expr, asg)), a);
      assert conds[if i < k then i else i + 1] == conds'[i];
    }
  }

  lemma EmptyCondDropped(tm: TypeMaps, tePool: seq<Node>, teTable: seq<seq<nat>>, n: nat, pool: seq<Node>, conds: seq<CondNode>, k: nat)
    requires tm.InRange() && ExprsInScope(conds, n) && k < |conds|
    requires conds[k].trueList == [] && conds[k].falseList == []
    ensures ExprsInScope(RemoveAt(conds, k), n)
    ensures SameDecisions(tm, tePool, teTable, n, pool, conds, pool, RemoveAt(conds, k))
    ensures forall p: nat :: Uses(RemoveAt(conds, k), p) == Uses(conds, p)
  {
    hide Uses, CondDecides, TableDecides, Occurs, InScope;
    var conds' := RemoveAt(conds, k);
    forall i | 0 <= i < |conds'| ensures InScope(conds'[i].expr, n) {
      assert conds'[i] == conds[if i < k then i else i + 1];
    }
    forall asg: seq<bool>, a: Access | |asg| == n
      ensures DecidesIn(tm, tePool, teTable, pool, conds, asg, a) <==> DecidesIn(tm, tePool, teTable, pool, conds', asg, a)
    {
      EmptyCondKeeps(tm, pool, conds, k, conds', asg, a);
    }
    forall p: nat ensures Uses(conds', p) == Uses(conds, p) {
      UsesSplit(conds, k, p);
      UsesConcat(conds[..k], conds[k + 1..], p);
      assert conds' == conds[..k] + conds[k + 1..];
      NoOccurrence(p);
    }
  }

  lemma NoOccurrence(p: nat)
    ensures Occurs([], p) == 0
  {
  }

  lemma {:induction false} UsesConcat(a: seq<CondNode>, b: seq<CondNode>, p: nat)
    ensures Uses(a + b, p) == Uses(a, p) + Uses(b, p)
    decreases |b|
  {
    hide Occurs;
    if b == [] {
      assert a + b == a;
    } else {
      var n := |b| - 1;
      UsesConcat(a, b[..n], p);
      assert (a + b)[..|a + b| - 1] == a + b[..n];
    }
  }

  /** Every surviving conditional is an old one with rules taken out of its lists. */
  ghost predicate Shrunk(before: seq<CondNode>, now: seq<CondNode>) {
    forall i :: 0 <= i < |now| ==> ShrunkFrom(before, now[i])
  }

  ghost predicate ShrunkFrom(before: seq<CondNode>, cn: CondNode) {
    exists j :: 0 <= j < |before| &&
      before[j].expr == cn.expr && before[j].curState == cn.curState &&
      (forall p: nat :: p in cn.trueList ==> p in before[j].trueList) &&
      (forall p: nat :: p in cn.falseList ==> p in before[j].falseList)
  }

  lemma ShrunkMore(before: seq<CondNode>, cn: CondNode, side: bool, list: seq<nat>)
    requires ShrunkFrom(before, cn) && forall p: nat :: p in list ==> p in ListOf(cn, side)
    ensures ShrunkFrom(before, WithList(cn, side, list))
  {
  }

  /** Enabled flags keep agreeing with recorded states and booleans. */
  lemma ShrunkKeepsFlags(poolA: seq<Node>, condsA: seq<CondNode>, poolB: seq<Node>, condsB: seq<CondNode>, bools: seq<bool>)
    requires SameKeys(poolA, poolB) && Shrunk(condsA, condsB) && AllFlagged(poolA, condsA)
    requires ExprsInScope(condsA, |bools|) && ExprsInScope(condsB, |bools|)
    ensures AllFlagged(poolB, condsB)
    ensures AllCurrent(condsA, bools) ==> AllCurrent(condsB, bools)
  {
    hide IsEnabled;
    forall i | 0 <= i < |condsB|
      ensures NodeFlagged(poolB, condsB[i])
      ensures AllCurrent(condsA, bools) ==> condsB[i].curState == Evaluate(condsB[i].expr, bools)
    {
      assert ShrunkFrom(condsA, condsB[i]);
      var cn := condsB[i];
      var j :| 0 <= j < |condsA| &&
        condsA[j].expr == cn.expr && condsA[j].curState == cn.curState &&
        (forall p: nat :: p in cn.trueList ==> p in condsA[j].trueList) &&
        (forall p: nat :: p in cn.falseList ==> p in condsA[j].falseList);
      assert NodeFlagged(poolA, condsA[j]);
    }
  }

  /** The bookkeeping of one pass over the conditionals, against the state it started from. */
  ghost predicate PassInvariant(tm: TypeMaps, tePool: seq<Node>, teTable: seq<seq<nat>>, n: nat,
                                pool0: seq<Node>, conds0: seq<CondNode>, pool: seq<Node>, conds: seq<CondNode>, del: seq<nat>)
    requires tm.InRange()
  {
    && ExprsInScope(conds0, n) && ExprsInScope(conds, n)
    && Unshared(conds0) && Unshared(conds)
    && SameKeys(pool0, pool) && Shrunk(conds0, conds)
    && (forall p: nat :: Uses(conds, p) + Occurs(del, p) == Uses(conds0, p))
    && SameDecisions(tm, tePool, teTable, n, pool0, conds0, pool, conds)
    && OnlyAv(pool0, [], pool, del)
  }

  /** The rules of a list are where they were and as they were. */
  ghost predicate SameRules(poolA: seq<Node>, poolB: seq<Node>, list: seq<nat>) {
    |poolA| == |poolB| && forall p: nat :: p in list && p < |poolA| ==> poolB[p] == poolA[p]
  }

  /** Both branches of the first `k` conditionals hold only rules that repeat nothing. */
  ghost predicate SettledConds(tm: TypeMaps, tePool: seq<Node>, teTable: seq<seq<nat>>, pool: seq<Node>, conds: seq<CondNode>, k: nat)
    requires tm.InRange() && RulesOk(tm, pool)
  {
    forall i, side :: 0 <= i < k && i < |conds| ==> SettledBranch(tm, tePool, teTable, pool, ListOf(conds[i], side))
  }

  lemma BranchStays(tm: TypeMaps, tePool: seq<Node>, teTable: seq<seq<nat>>, poolA: seq<Node>, poolB: seq<Node>, list: seq<nat>)
    requires tm.InRange() && RulesOk(tm, poolA) && RulesOk(tm, poolB) && SameRules(poolA, poolB, list)
    requires SettledBranch(tm, tePool, teTable, poolA, list)
    ensures SettledBranch(tm, tePool, teTable, poolB, list)
  {
    hide ApartBoth, UniqueKeys, SingleKeys, ApartFromTable, RulesOk, WithAttr;
    forall p: nat | p in list ensures SettledRule(tm, tePool, teTable, poolB, list, p) {
      assert SettledRule(tm, tePool, teTable, poolA, list, p);
      forall q: nat | Listed(poolB[p], poolB, list, q) && WithAttrAt(tm, poolB, q) ensures ApartBoth(tm, poolB[p], poolB[q], true) {
        assert Listed(poolA[p], poolA, list, q) && WithAttrAt(tm, poolA, q);
      }
    }
  }

  /** Optimising one branch leaves the rules of the others alone. */
  lemma OthersSame(conds: seq<CondNode>, k: nat, side: bool, i: nat, other: bool, poolA: seq<Node>, poolB: seq<Node>)
    requires Unshared(conds) && k < |conds| && i < |conds| && (i != k || other != side) && |poolA| == |poolB|
    requires forall p: nat :: p < |poolB| && p !in ListOf(conds[k], side) ==> poolB[p] == poolA[p]
    ensures SameRules(poolA, poolB, ListOf(conds[i], other))
  {
    hide Unshared;
    forall p: nat | p in ListOf(conds[i], other) ensures p !in ListOf(conds[k], side) {
      ListsDisjoint(conds, k, i, p);
    }
  }

  lemma SettledAfterList(tm: TypeMaps, tePool: seq<Node>, teTable: seq<seq<nat>>, poolA: seq<Node>, poolB: seq<Node>,
                         conds: seq<CondNode>, k: nat, side: bool, list: seq<nat>)
    requires tm.InRange() && RulesOk(tm, poolA) && RulesOk(tm, poolB) && Unshared(conds) && k < |conds| && |poolA| == |poolB|
    requires forall p: nat :: p < |poolB| && p !in ListOf(conds[k], side) ==> poolB[p] == poolA[p]
    requires SettledConds(tm, tePool, teTable, poolA, conds, k) && SettledBranch(tm, tePool, teTable, poolB, list)
    requires !side ==> SettledBranch(tm, tePool, teTable, poolA, ListOf(conds[k], true))
    ensures SettledConds(tm, tePool, teTable, poolB, conds[k := WithList(conds[k], side, list)], if side then k else k + 1)
    ensures SettledBranch(tm, tePool, teTable, poolB, ListOf(conds[k := WithList(conds[k], side, list)][k], side))
  {
    hide SettledBranch, Unshared, RulesOk, SameRules;
    var conds' := conds[k := WithList(conds[k], side, list)];
    forall i, other | 0 <= i < (if side then k else k + 1) ensures SettledBranch(tm, tePool, teTable, poolB, ListOf(conds'[i], other)) {
      if i == k && other == side {
        assert ListOf(conds'[i], other) == list;
      } else {
        assert ListOf(conds'[i], other) == ListOf(conds[i], other);
        OthersSame(conds, k, side, i, other, poolA, poolB);
        BranchStays(tm, tePool, teTable, poolA, poolB, ListOf(conds[i], other));
      }
    }
  }

  lemma SettledDropped(tm: TypeMaps, tePool: seq<Node>, teTable: seq<seq<nat>>, pool: seq<Node>, conds: seq<CondNode>, k: nat)
    requires tm.InRange() && RulesOk(tm, pool) && k < |conds| && SettledConds(tm, tePool, teTable, pool, conds, k + 1)
    ensures SettledConds(tm, tePool, teTable, pool, RemoveAt(conds, k), k)
  {
    hide SettledBranch, RulesOk;
    forall i, side | 0 <= i < k ensures SettledBranch(tm, tePool, teTable, pool, ListOf(RemoveAt(conds, k)[i], side)) {
      assert RemoveAt(conds, k)[i] == conds[i];
    }
  }

  lemma PassList(tm: TypeMaps, tePool: seq<Node>, teTable: seq<seq<nat>>, n: nat,
                 pool0: seq<Node>, conds0: seq<CondNode>, pool: seq<Node>, conds: seq<CondNode>, del: seq<nat>,
                 k: nat, side: bool, pool': seq<Node>, list: seq<nat>, del': seq<nat>)
    requires tm.InRange() && PassInvariant(tm, tePool, teTable, n, pool0, conds0, pool, conds, del) && k < |conds|
    requires SameKeys(pool, pool')
    requires forall p: nat :: p < |pool'| && p !in ListOf(conds[k], side) ==> pool'[p] == pool[p]
    requires multiset(list) + multiset(del') == multiset(ListOf(conds[k], side)) + multiset(del)
    requires forall p: nat :: p in list ==> p in ListOf(conds[k], side)
    requires SameBranch(tm, tePool, teTable, pool, ListOf(conds[k], side), pool', list)
    requires OnlyAv(pool, del, pool', del')
    ensures PassInvariant(tm, tePool, teTable, n, pool0, conds0, pool', conds[k := WithList(conds[k], side, list)], del')
  {
    hide DecidesIn, SameBranch, Uses, ShrunkFrom, Has;
    OnlyAvMore(pool0, pool, del, pool', del');
    ShrunkMore(conds0, conds[k], side, list);
    var cn := WithList(conds[k], side, list);
    var conds' := conds[k := cn];
    BranchKeepsDecisions(tm, tePool, teTable, n, pool, conds, k, side, pool', list);
    forall p: nat ensures Uses(conds', p) + Occurs(del', p) == Uses(conds0, p) {
      UsesUpdate(conds, k, cn, p);
      OccursBalance(list, del', ListOf(conds[k], side), del, p);
    }
    assert forall p: nat :: Uses(conds', p) <= Uses(conds0, p) <= 1;
  }

  lemma OnlyAvMore(pool0: seq<Node>, pool: seq<Node>, del: seq<nat>, pool': seq<Node>, del': seq<nat>)
    requires SameKeys(pool0, pool) && SameKeys(pool, pool') && OnlyAv(pool0, [], pool, del) && OnlyAv(pool, del, pool', del')
    ensures OnlyAv(pool0, [], pool', del')
  {
    hide Has;
  }

  lemma OccursBalance(a: seq<nat>, b: seq<nat>, c: seq<nat>, d: seq<nat>, p: nat)
    requires multiset(a) + multiset(b) == multiset(c) + multiset(d)
    ensures Occurs(a, p) + Occurs(b, p) == Occurs(c, p) + Occurs(d, p)
  {
    assert (multiset(a) + multiset(b))[p] == (multiset(c) + multiset(d))[p];
  }

  /** First pass: every branch list is optimised, emptied conditionals are dropped. */
  method CollectRedundant(db: PolicyDb, map_: seq<seq<nat>>) returns (del: seq<nat>)
    requires db.Valid() && TypeMapOk(db.tm, map_)
    modifies db`condList, db.teCond`pool
    ensures db.teCond.Valid() && RulesOk(db.tm, db.teCond.pool)
    ensures db.tm.InRange() && PassInvariant(db.tm, db.te.pool, db.te.htable, |db.bools|,
              old(db.teCond.pool), old(db.condList), db.teCond.pool, db.condList, del)
    ensures SettledConds(db.tm, db.te.pool, db.te.htable, db.teCond.pool, db.condList, |db.condList|)
  {
    hide *;
    ghost var tm, n, pool0, conds0 := db.tm, |db.bools|, db.teCond.pool, db.condList;
    ghost var tePool, teTable := db.te.pool, db.te.htable;
    del := [];
    var k := 0;
    DbStart(db);
    while k < |db.condList|
      invariant k <= |db.condList|
      invariant db.teCond.Valid() && RulesOk(tm, db.teCond.pool)
      invariant PassInvariant(tm, tePool, teTable, n, pool0, conds0, db.teCond.pool, db.condList, del)
      invariant SettledConds(tm, tePool, teTable, db.teCond.pool, db.condList, k)
      decreases |db.condList| - k
    {
      del := OptimizeBranch(db, map_, k, true, del, pool0, conds0);
      del := OptimizeBranch(db, map_, k, false, del, pool0, conds0);
      if db.condList[k].trueList == [] && db.condList[k].falseList == [] {
        PassDropped(tm, tePool, teTable, n, pool0, conds0, db.teCond.pool, db.condList, del, k);
        SettledDropped(tm, tePool, teTable, db.teCond.pool, db.condList, k);
        RemovedCond(db.condList, k);
        db.condList := RemoveAt(db.condList, k);
      } else {
        k := k + 1;
      }
    }
  }

  lemma PassStart(tm: TypeMaps, tePool: seq<Node>, teTable: seq<seq<nat>>, n: nat, pool: seq<Node>, conds: seq<CondNode>)
    requires tm.InRange() && ExprsInScope(conds, n) && Unshared(conds)
    ensures PassInvariant(tm, tePool, teTable, n, pool, conds, pool, conds, [])
  {
    hide DecidesIn, Uses;
    forall i | 0 <= i < |conds| ensures ShrunkFrom(conds, conds[i]) { }
    forall p: nat ensures Occurs([], p) == 0 { NoOccurrence(p); }
  }

  lemma RemovedCond(conds: seq<CondNode>, k: nat)
    requires k < |conds|
    ensures |RemoveAt(conds, k)| == |conds| - 1
  {
  }

  lemma DbStart(db: PolicyDb)
    requires db.Valid()
    ensures db.te != db.teCond && db.te.Valid() && db.teCond.Valid() && db.tm.Valid() && db.tm.InRange()
    ensures RulesOk(db.tm, db.te.pool) && RulesOk(db.tm, db.teCond.pool)
    ensures PassInvariant(db.tm, db.te.pool, db.te.htable, |db.bools|, db.teCond.pool, db.condList, db.teCond.pool, db.condList, [])
    ensures SettledConds(db.tm, db.te.pool, db.te.htable, db.teCond.pool, db.condList, 0)
    ensures forall p: nat :: Uses(db.condList, p) > 0 ==> p < |db.teCond.pool|
  {
    hide RuleOk, Uses, Linked;
    PassStart(db.tm, db.te.pool, db.te.htable, |db.bools|, db.teCond.pool, db.condList);
    ListedInPool(db);
  }

  lemma ListedInPool(db: PolicyDb)
    requires db.Valid()
    ensures forall p: nat :: Uses(db.condList, p) > 0 ==> p < |db.teCond.pool|
  {
    hide Uses, RulesOk;
    forall p: nat | Uses(db.condList, p) > 0 ensures p < |db.teCond.pool| {
      LinkedSlot(db.teCond.hash, db.teCond.pool, db.teCond.htable, p);
    }
  }

  lemma PassDropped(tm: TypeMaps, tePool: seq<Node>, teTable: seq<seq<nat>>, n: nat,
                    pool0: seq<Node>, conds0: seq<CondNode>, pool: seq<Node>, conds: seq<CondNode>, del: seq<nat>, k: nat)
    requires tm.InRange() && PassInvariant(tm, tePool, teTable, n, pool0, conds0, pool, conds, del) && k < |conds|
    requires conds[k].trueList == [] && conds[k].falseList == []
    ensures PassInvariant(tm, tePool, teTable, n, pool0, conds0, pool, RemoveAt(conds, k), del)
  {
    hide DecidesIn, ShrunkFrom;
    EmptyCondDropped(tm, tePool, teTable, n, pool, conds, k);
  }

  method OptimizeBranch(db: PolicyDb, map_: seq<seq<nat>>, k: nat, side: bool, del: seq<nat>,
                        ghost pool0: seq<Node>, ghost conds0: seq<CondNode>)
    returns (del': seq<nat>)
    requires db.te != db.teCond && db.tm.Valid() && TypeMapOk(db.tm, map_)
    requires db.te.Valid() && RulesOk(db.tm, db.te.pool)
    requires db.teCond.Valid() && RulesOk(db.tm, db.teCond.pool)
    requires forall p: nat :: Uses(conds0, p) > 0 ==> p < |pool0|
    requires PassInvariant(db.tm, db.te.pool, db.te.htable, |db.bools|, pool0, conds0, db.teCond.pool, db.condList, del)
    requires k < |db.condList|
    requires SettledConds(db.tm, db.te.pool, db.te.htable, db.teCond.pool, db.condList, k)
    requires !side ==> SettledBranch(db.tm, db.te.pool, db.te.htable, db.teCond.pool, ListOf(db.condList[k], true))
    modifies db`condList, db.teCond`pool
    ensures db.teCond.Valid() && RulesOk(db.tm, db.teCond.pool)
    ensures |db.condList| == |old(db.condList)|
    ensures db.tm.InRange() && PassInvariant(db.tm, db.te.pool, db.te.htable, |db.bools|, pool0, conds0, db.teCond.pool, db.condList, del')
    ensures SettledConds(db.tm, db.te.pool, db.te.htable, db.teCond.pool, db.condList, if side then k else k + 1)
    ensures SettledBranch(db.tm, db.te.pool, db.te.htable, db.teCond.pool, ListOf(db.condList[k], side))
  {
    hide *;
    ghost var pool, conds := db.teCond.pool, db.condList;
    var list := ListOf(db.condList[k], side);
    BranchReady(db.tm, db.te.pool, db.te.htable, |db.bools|, pool0, conds0, pool, conds, del, k, side);
    var list';
    list', del' := OptimizeCondAvList(db.tm, db.te, db.teCond, map_, list, del);
    SameLength(pool, db.teCond.pool);
    PassList(db.tm, db.te.pool, db.te.htable, |db.bools|, pool0, conds0, pool, conds, del, k, side, db.teCond.pool, list', del');
    SettledAfterList(db.tm, db.te.pool, db.te.htable, pool, db.teCond.pool, conds, k, side, list');
    db.condList := db.condList[k := WithList(db.condList[k], side, list')];
  }

  lemma SameLength(a: seq<Node>, b: seq<Node>)
    requires SameKeys(a, b)
    ensures |a| == |b|
  {
  }

  lemma BranchReady(tm: TypeMaps, tePool: seq<Node>, teTable: seq<seq<nat>>, n: nat,
                    pool0: seq<Node>, conds0: seq<CondNode>, pool: seq<Node>, conds: seq<CondNode>, del: seq<nat>, k: nat, side: bool)
    requires tm.Valid() && PassInvariant(tm, tePool, teTable, n, pool0, conds0, pool, conds, del) && k < |conds|
    requires forall p: nat :: Uses(conds0, p) > 0 ==> p < |pool0|
    ensures tm.InRange() && Unshared(conds) && NoDuplicates(ListOf(conds[k], side))
    ensures forall q: nat :: q in ListOf(conds[k], side) ==> q < |pool|
  {
    hide DecidesIn, Uses, Occurs, ShrunkFrom, OnlyAv;
    ListReady(conds, k, side, 0);
    forall p: nat | p in ListOf(conds[k], side) ensures p < |pool| {
      ListReady(conds, k, side, p);
      assert Uses(conds, p) + Occurs(del, p) == Uses(conds0, p);
    }
  }

  method FindPointer(list: seq<nat>, p: nat) returns (pos: nat)
    ensures pos <= |list|
    ensures pos < |list| ==> list[pos] == p
    ensures pos == |list| ==> p !in list
  {
    pos := 0;
    while pos < |list|
      invariant pos <= |list| && forall i :: 0 <= i < pos ==> list[i] != p
    {
      if list[pos] == p { return; }
      pos := pos + 1;
    }
  }

  /** Second pass: unlinks from the table exactly the nodes on the deletion list. */
  method RemoveDeleted(tab: Avtab, del: seq<nat>)
    requires tab.Valid() && NoDuplicates(del)
    modifies tab`htable, tab`nel
    ensures tab.Valid()
    ensures forall q: nat :: Linked(tab.htable, q) <==> Linked(old(tab.htable), q) && q !in del
  {
    var rest := del;
    for i := 0 to |tab.htable|
      invariant |tab.htable| == |old(tab.htable)| && tab.Valid()
      invariant RemovalInvariant(old(tab.htable), tab.htable, del, rest)
      invariant forall a, b :: 0 <= a < i && 0 <= b < |tab.htable[a]| ==> tab.htable[a][b] !in del
    {
      var j := 0;
      while j < |tab.htable[i]|
        invariant |tab.htable| == |old(tab.htable)| && tab.Valid() && j <= |tab.htable[i]|
        invariant RemovalInvariant(old(tab.htable), tab.htable, del, rest)
        invariant forall a, b :: 0 <= a < i && 0 <= b < |tab.htable[a]| ==> tab.htable[a][b] !in del
        invariant forall b :: 0 <= b < j ==> tab.htable[i][b] !in del
        decreases |tab.htable[i]| - j
      {
        hide ChainOk, WellChained, NoDuplicates;
        var p := tab.htable[i][j];
        assert Linked(tab.htable, p);
        var pos := FindPointer(rest, p);
        if pos < |rest| {
          ghost var was, wasRest := tab.htable, rest;
          rest := RemoveAt(rest, pos);
          tab.Unlink(i, j);
          RemovalStep(old(tab.htable), was, tab.htable, del, wasRest, pos);
        } else {
          j := j + 1;
        }
      }
    }
  }

  ghost predicate RemovalInvariant(before: seq<seq<nat>>, now: seq<seq<nat>>, del: seq<nat>, rest: seq<nat>) {
    && NoDuplicates(rest)
    && (forall q: nat :: q in rest ==> q in del)
    && (forall q: nat :: q in del && Linked(now, q) ==> q in rest)
    && (forall q: nat :: Linked(now, q) ==> Linked(before, q))
    && (forall q: nat :: Linked(before, q) && q !in del ==> Linked(now, q))
  }

  lemma RemovalStep(before: seq<seq<nat>>, was: seq<seq<nat>>, now: seq<seq<nat>>, del: seq<nat>, rest: seq<nat>, pos: nat)
    requires RemovalInvariant(before, was, del, rest) && pos < |rest|
    requires forall q: nat :: Linked(now, q) <==> Linked(was, q) && q != rest[pos]
    ensures RemovalInvariant(before, now, del, RemoveAt(rest, pos))
  {
    hide Linked;
    DropsOne(rest, pos);
  }

  lemma SingleOccurrences(list: seq<nat>)
    requires forall p: nat :: Occurs(list, p) <= 1
    ensures NoDuplicates(list)
  {
    forall i, j | 0 <= i < j < |list| ensures list[i] != list[j] {
      var once := Occurs(list, list[i]);
      if list[i] == list[j] { Repeated(list, i, j); }
    }
  }

  method OptimizeCondAvtab(db: PolicyDb, map_: seq<seq<nat>>)
    requires db.Valid() && TypeMapOk(db.tm, map_)
    modifies db`condList, db.teCond
    ensures db.Valid()
    ensures SameDecisions(db.tm, db.te.pool, db.te.htable, |db.bools|,
              old(db.teCond.pool), old(db.condList), db.teCond.pool, db.condList)
    ensures AllFlagged(old(db.teCond.pool), old(db.condList)) ==> AllFlagged(db.teCond.pool, db.condList)
    ensures AllFlagged(old(db.teCond.pool), old(db.condList)) && AllCurrent(old(db.condList), db.bools) ==>
      AllCurrent(db.condList, db.bools)
    ensures SettledConds(db.tm, db.te.pool, db.te.htable, db.teCond.pool, db.condList, |db.condList|)
    ensures OthersKept(old(db.teCond.pool), old(db.teCond.htable), db.teCond.pool, db.teCond.htable)
  {
    hide PassInvariant, SameDecisions, Unshared, RulesOk, AllFlagged, AllCurrent, Uses, Linked, NoDuplicates, SettledConds, OnlyAv, OthersKept;
    ghost var pool0, conds0 := db.teCond.pool, db.condList;
    var del := CollectRedundant(db, map_);
    ghost var htable0 := db.teCond.htable;
    PassDone(db.tm, db.te.pool, db.te.htable, |db.bools|, pool0, conds0, db.teCond.pool, db.condList, del, db.bools);
    if del != [] {
      RemoveDeleted(db.teCond, del);
    }
    PassUnlinked(db.condList, conds0, del, htable0, db.teCond.htable);
    OthersLeft(pool0, db.teCond.pool, del, htable0, db.teCond.htable);
  }

  lemma OthersLeft(pool0: seq<Node>, pool: seq<Node>, del: seq<nat>, before: seq<seq<nat>>, now: seq<seq<nat>>)
    requires OnlyAv(pool0, [], pool, del) && |pool0| == |pool|
    requires forall q: nat :: Linked(now, q) <==> Linked(before, q) && q !in del
    ensures OthersKept(pool0, before, pool, now)
  {
    hide Linked, Has;
  }

  lemma PassDone(tm: TypeMaps, tePool: seq<Node>, teTable: seq<seq<nat>>, n: nat,
                 pool0: seq<Node>, conds0: seq<CondNode>, pool: seq<Node>, conds: seq<CondNode>, del: seq<nat>, bools: seq<bool>)
    requires tm.InRange() && |bools| == n && PassInvariant(tm, tePool, teTable, n, pool0, conds0, pool, conds, del)
    ensures ExprsInScope(conds, n) && Unshared(conds) && NoDuplicates(del)
    ensures SameDecisions(tm, tePool, teTable, n, pool0, conds0, pool, conds)
    ensures forall p: nat :: Uses(conds, p) + Occurs(del, p) == Uses(conds0, p) <= 1
    ensures AllFlagged(pool0, conds0) ==> AllFlagged(pool, conds)
    ensures AllFlagged(pool0, conds0) && AllCurrent(conds0, bools) ==> AllCurrent(conds, bools)
    ensures OnlyAv(pool0, [], pool, del) && |pool0| == |pool|
  {
    hide DecidesIn, Uses, Has;
    forall p: nat ensures Occurs(del, p) <= 1 {
      assert Uses(conds, p) + Occurs(del, p) == Uses(conds0, p);
    }
    SingleOccurrences(del);
    if AllFlagged(pool0, conds0) {
      ShrunkKeepsFlags(pool0, conds0, pool, conds, bools);
    }
  }

  /** Unlinking the deleted nodes leaves exactly the nodes still on a list. */
  lemma PassUnlinked(conds: seq<CondNode>, conds0: seq<CondNode>, del: seq<nat>, before: seq<seq<nat>>, now: seq<seq<nat>>)
    requires forall p: nat :: Uses(conds, p) + Occurs(del, p) == Uses(conds0, p) <= 1
    requires forall p: nat :: Uses(conds0, p) > 0 <==> Linked(before, p)
    requires forall p: nat :: Linked(now, p) <==> Linked(before, p) && p !in del
    ensures forall p: nat :: Uses(conds, p) > 0 <==> Linked(now, p)
  {
    hide Uses, Linked;
    forall p: nat ensures Uses(conds, p) > 0 <==> Linked(now, p) {
      assert Uses(conds, p) + Occurs(del, p) == Uses(conds0, p) <= 1;
    }
  }

  /** Rule `a` says something, and nothing that the wider rule `c` says. */
  ghost predicate SaysOther(tm: TypeMaps, a: Node, c: Node, x: bool)
    requires tm.InRange()
  {
    Wider(tm, a.key, c.key) ==> NothingShared(a, c) && (x ==> NoListShared(a, c))
  }

  /** A wider rule of the branch with the specifier of `a`, of another source or target, that names an attribute. */
  ghost predicate WiderInBranch(tm: TypeMaps, a: Node, c: Node)
    requires tm.InRange()
  {
    && c.key.specified == a.key.specified
    && (c.key.source != a.key.source || c.key.target != a.key.target)
    && Wider(tm, a.key, c.key)
    && (tm.flavor[c.key.source - 1] == Attribute || tm.flavor[c.key.target - 1] == Attribute)
  }

  /**
     No rule of the list repeats a wider unconditional rule or a wider rule of the list that
     names an attribute; `x` says whether unconditional extended rules count.
   */
  ghost predicate BranchRepeatsNothing(tm: TypeMaps, tePool: seq<Node>, teTable: seq<seq<nat>>, pool: seq<Node>, list: seq<nat>, x: bool)
    requires tm.InRange()
  {
    && (forall p: nat, q: nat :: p in list && p < |pool| && Linked(teTable, q) && q < |tePool| ==> SaysOther(tm, pool[p], tePool[q], x))
    && (forall p: nat, q: nat :: p in list && p < |pool| && q in list && q < |pool| && WiderInBranch(tm, pool[p], pool[q]) ==>
         NothingShared(pool[p], pool[q]) && NoListShared(pool[p], pool[q]))
  }

  /** Every list of every conditional. */
  ghost predicate BranchesRepeatNothing(tm: TypeMaps, tePool: seq<Node>, teTable: seq<seq<nat>>, pool: seq<Node>, conds: seq<CondNode>, x: bool)
    requires tm.InRange()
  {
    forall k :: 0 <= k < |conds| ==>
      && BranchRepeatsNothing(tm, tePool, teTable, pool, conds[k].trueList, x)
      && BranchRepeatsNothing(tm, tePool, teTable, pool, conds[k].falseList, x)
  }

  lemma SettledSaysOther(tm: TypeMaps, tePool: seq<Node>, teTable: seq<seq<nat>>, pool: seq<Node>, list: seq<nat>, p: nat, q: nat)
    requires tm.InRange() && RulesOk(tm, pool) && SettledRule(tm, tePool, teTable, pool, list, p)
    requires UniqueKeys(tePool, teTable) && Linked(teTable, q) && q < |tePool|
    ensures SaysOther(tm, pool[p], tePool[q], SingleKeys(tePool, teTable))
  {
    hide ApartBoth, UniqueKeys, SingleKeys, Linked, Wider, NothingShared, NoListShared, RulesOk;
    assert LookedUp(pool[p], tePool, teTable, false, q);
    if Wider(tm, pool[p].key, tePool[q].key) { ApartSharesNothing(tm, pool[p], tePool[q], SingleKeys(tePool, teTable)); }
  }

  lemma SettledInBranch(tm: TypeMaps, tePool: seq<Node>, teTable: seq<seq<nat>>, pool: seq<Node>, list: seq<nat>, p: nat, q: nat)
    requires tm.InRange() && RulesOk(tm, pool) && SettledRule(tm, tePool, teTable, pool, list, p)
    requires q in list && q < |pool| && WiderInBranch(tm, pool[p], pool[q])
    ensures NothingShared(pool[p], pool[q]) && NoListShared(pool[p], pool[q])
  {
    assert RuleOk(tm, pool[q]);
    hide ApartBoth, UniqueKeys, SingleKeys, Wider, NothingShared, NoListShared, RulesOk, OneKind;
    assert Listed(pool[p], pool, list, q) && WithAttrAt(tm, pool, q);
    ApartSharesNothing(tm, pool[p], pool[q], true);
  }

  /** What is left of a branch, said of the words of the rules. */
  lemma {:induction false} SettledRepeatsNothing(tm: TypeMaps, tePool: seq<Node>, teTable: seq<seq<nat>>, pool: seq<Node>, list: seq<nat>)
    requires tm.InRange() && RulesOk(tm, pool) && SettledBranch(tm, tePool, teTable, pool, list) && UniqueKeys(tePool, teTable)
    ensures BranchRepeatsNothing(tm, tePool, teTable, pool, list, SingleKeys(tePool, teTable))
  {
    hide UniqueKeys, SingleKeys, Linked, SaysOther, WiderInBranch, NothingShared, NoListShared, RulesOk, SettledRule;
    forall p: nat, q: nat | p in list && p < |pool| && Linked(teTable, q) && q < |tePool|
      ensures SaysOther(tm, pool[p], tePool[q], SingleKeys(tePool, teTable))
    {
      SettledSaysOther(tm, tePool, teTable, pool, list, p, q);
    }
    forall p: nat, q: nat | p in list && p < |pool| && q in list && q < |pool| && WiderInBranch(tm, pool[p], pool[q])
      ensures NothingShared(pool[p], pool[q]) && NoListShared(pool[p], pool[q])
    {
      SettledInBranch(tm, tePool, teTable, pool, list, p, q);
    }
  }

  /** Nothing is left to take away, in the table and in the branches. */
  lemma {:induction false} OptimalRepeatsNothing(db: PolicyDb, single: bool)
    requires db.Valid() && Optimal(db, single) && UniqueKeys(db.te.pool, db.te.htable) && (single ==> SingleKeys(db.te.pool, db.te.htable))
    ensures db.tm.InRange() && NoneRepeats(db.tm, db.te.pool, db.te.htable, single)
    ensures BranchesRepeatNothing(db.tm, db.te.pool, db.te.htable, db.teCond.pool, db.condList, single)
  {
    hide UniqueKeys, SingleKeys, Irredundant, SettledBranch, RulesOk, NoneRepeats, BranchRepeatsNothing, Linked, Uses;
    IrredundantRepeatsNothing(db.tm, db.te.pool, db.te.htable, single);
    var tm, tePool, teTable, pool := db.tm, db.te.pool, db.te.htable, db.teCond.pool;
    forall k | 0 <= k < |db.condList|
      ensures BranchRepeatsNothing(tm, tePool, teTable, pool, db.condList[k].trueList, single)
      ensures BranchRepeatsNothing(tm, tePool, teTable, pool, db.condList[k].falseList, single)
    {
      assert SettledBranch(tm, tePool, teTable, pool, ListOf(db.condList[k], true));
      assert SettledBranch(tm, tePool, teTable, pool, ListOf(db.condList[k], false));
      SettledRepeatsNothing(tm, tePool, teTable, pool, db.condList[k].trueList);
      SettledRepeatsNothing(tm, tePool, teTable, pool, db.condList[k].falseList);
      RepeatsNothingLess(tm, tePool, teTable, pool, db.condList[k].trueList, SingleKeys(tePool, teTable), single);
      RepeatsNothingLess(tm, tePool, teTable, pool, db.condList[k].falseList, SingleKeys(tePool, teTable), single);
    }
  }

  lemma RepeatsNothingLess(tm: TypeMaps, tePool: seq<Node>, teTable: seq<seq<nat>>, pool: seq<Node>, list: seq<nat>, x: bool, y: bool)
    requires tm.InRange() && BranchRepeatsNothing(tm, tePool, teTable, pool, list, x) && (y ==> x)
    ensures BranchRepeatsNothing(tm, tePool, teTable, pool, list, y)
  {
    hide Wider, NothingShared, NoListShared, Linked, WiderInBranch;
  }

  datatype PolicyType = Kern | Base | Mod

  /** Nothing that the optimiser could still take away; of extended rules of the table, if `single`. */
  ghost predicate Optimal(db: PolicyDb, single: bool)
    requires db.Valid()
    reads db, db.te, db.teCond
  {
    && Irredundant(db.tm, db.te.pool, db.te.htable, single)
    && SettledConds(db.tm, db.te.pool, db.te.htable, db.teCond.pool, db.condList, |db.condList|)
  }

  /**
     The optimiser. Every access decision about every concrete pair is what it was, for every
     assignment of the booleans, if the rows of the type map are closed; type rules stay as
     they were. If it succeeds on a table with
     unique keys, no surviving access-vector rule repeats a bit that another rule as wide says,
     and, if extended rules have keys of their own too, no extended rule what another one lists.
   */
  method PolicydbOptimize(db: PolicyDb, policyType: PolicyType, policyVers: nat) returns (ok: bool)
    requires db.Valid()
    modifies db`condList, db.te, db.teCond
    ensures db.Valid()
    ensures ok <==> policyType == Kern && !(20 <= policyVers <= 23)
    ensures db.tm.RowsClosed() ==> forall asg: seq<bool>, a: Access :: |asg| == |db.bools| ==>
      (db.Decides(asg, a) <==> old(db.Decides(asg, a)))
    ensures old(Synced(db)) ==> Synced(db)
    ensures SameKeys(old(db.te.pool), db.te.pool)
    ensures OthersKept(old(db.te.pool), old(db.te.htable), db.te.pool, db.te.htable)
    ensures OthersKept(old(db.teCond.pool), old(db.teCond.htable), db.teCond.pool, db.teCond.htable)
    ensures ok && UniqueKeys(old(db.te.pool), old(db.te.htable)) ==>
      UniqueKeys(db.te.pool, db.te.htable) && Optimal(db, SingleKeys(old(db.te.pool), old(db.te.htable)))
    ensures ok && UniqueKeys(old(db.te.pool), old(db.te.htable)) ==>
      && NoneRepeats(db.tm, db.te.pool, db.te.htable, SingleKeys(old(db.te.pool), old(db.te.htable)))
      && BranchesRepeatNothing(db.tm, db.te.pool, db.te.htable, db.teCond.pool, db.condList, SingleKeys(old(db.te.pool), old(db.te.htable)))
  {
    hide RulesOk, Unshared, Uses, Linked, TypeMapOk, NoneRepeats, BranchesRepeatNothing, HoldsConcrete, CarriesToo;
    if policyType != Kern || 20 <= policyVers <= 23 {
      ValidKept(db);
      return false;
    }
    var map_ := BuildTypeMap(db.tm);
    ghost var pool0, table0 := db.te.pool, db.te.htable;
    OptimizeAvtab(db.tm, db.te, map_);
    ghost var pool1, table1 := db.te.pool, db.te.htable;
    TableKeptFacts(db.tm, pool0, table0, pool1, table1);
    hide UniqueKeys, SingleKeys, Irredundant, SettledConds, OthersKept, TableKept;
    OptimizeCondAvtab(db, map_);
    hide TableDecides, CondDecides, AllFlagged, AllCurrent;
    if UniqueKeys(pool0, table0) { OptimalRepeatsNothing(db, SingleKeys(pool0, table0)); }
    ok := true;
  }

  lemma ValidKept(db: PolicyDb)
    requires db.Valid()
    ensures SameKeys(db.te.pool, db.te.pool)
    ensures OthersKept(db.te.pool, db.te.htable, db.te.pool, db.te.htable)
    ensures OthersKept(db.teCond.pool, db.teCond.htable, db.teCond.pool, db.teCond.htable)
  {
    hide Linked, Has, RulesOk, Uses;
  }

  lemma TableKeptFacts(tm: TypeMaps, poolA: seq<Node>, htA: seq<seq<nat>>, poolB: seq<Node>, htB: seq<seq<nat>>)
    requires tm.InRange() && TableKept(tm, poolA, htA, poolB, htB)
    ensures SameKeys(poolA, poolB) && OthersKept(poolA, htA, poolB, htB)
    ensures tm.RowsClosed() ==> forall a :: TableDecides(tm, poolA, htA, a) <==> TableDecides(tm, poolB, htB, a)
    ensures UniqueKeys(poolA, htA) ==> UniqueKeys(poolB, htB)
    ensures SingleKeys(poolA, htA) ==> SingleKeys(poolB, htB)
  {
    hide UniqueKeys, SingleKeys, TableDecides, OthersKept, Has;
    if UniqueKeys(poolA, htA) { KeptUnique(tm, poolA, htA, poolB, htB); }
    if SingleKeys(poolA, htA) { KeptSingle(tm, poolA, htA, poolB, htB); }
  }
}
