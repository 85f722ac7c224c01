/**
 Moving type rules to the front of the conditional lists (src/conditional.c).
 */
module CondOrder {
  import opened Prelude
  import opened Avtab
  import opened TypeMaps
  import opened AccessDecision
  import opened CondExpr
  import opened PolicyDb

  predicate TypeAt(pool: seq<Node>, p: nat) {
    p < |pool| && Has(pool[p].key.specified, TYPE_RULES)
  }

  /** The type rules of a list, last first. */
  function TypesReversed(pool: seq<Node>, list: seq<nat>): seq<nat> {
    if list == [] then []
    else
      var n := |list| - 1;
      if TypeAt(pool, list[n]) then [list[n]] + TypesReversed(pool, list[..n]) else TypesReversed(pool, list[..n])
  }

  /** The other rules, in order. */
  function Others(pool: seq<Node>, list: seq<nat>): seq<nat> {
    if list == [] then []
    else
      var n := |list| - 1;
      if TypeAt(pool, list[n]) then Others(pool, list[..n]) else Others(pool, list[..n]) + [list[n]]
  }

  function Ordered(pool: seq<Node>, list: seq<nat>): seq<nat> {
    TypesReversed(pool, list) + Others(pool, list)
  }

  lemma OrderedStep(pool: seq<Node>, list: seq<nat>, k: nat)
    requires k < |list|
    ensures Ordered(pool, list[..k + 1]) ==
      if TypeAt(pool, list[k]) then [list[k]] + Ordered(pool, list[..k]) else Ordered(pool, list[..k]) + [list[k]]
  {
    hide TypeAt;
    assert list[..k + 1][..k] == list[..k];
    assert [list[k]] + TypesReversed(pool, list[..k]) + Others(pool, list[..k]) == [list[k]] + (TypesReversed(pool, list[..k]) + Others(pool, list[..k]));
    assert TypesReversed(pool, list[..k]) + (Others(pool, list[..k]) + [list[k]]) == TypesReversed(pool, list[..k]) + Others(pool, list[..k]) + [list[k]];
  }

  /** A transition, member or change rule. */
  predicate TypeRule(pool: seq<Node>, p: nat) {
    p < |pool| && pool[p].key.specified & 0x70 != 0
  }

  /** In the list an occurrence of `p` precedes one of `q`. */
  ghost predicate StoodBefore(list: seq<nat>, p: nat, q: nat) {
    exists i, j :: 0 <= i < j < |list| && list[i] == p && list[j] == q
  }

  lemma StoodBeforeLonger(list: seq<nat>, n: nat, p: nat, q: nat)
    requires n <= |list| && StoodBefore(list[..n], p, q)
    ensures StoodBefore(list, p, q)
  {
    var i, j :| 0 <= i < j < n && list[..n][i] == p && list[..n][j] == q;
    assert list[i] == p && list[j] == q;
  }

  lemma StoodBeforeLast(list: seq<nat>, p: nat, q: nat)
    requires list != [] && q == list[|list| - 1] && p in list[..|list| - 1]
    ensures StoodBefore(list, p, q)
  {
    var n := |list| - 1;
    var i :| 0 <= i < n && list[..n][i] == p;
    assert list[i] == p && list[n] == q;
  }

  lemma {:induction false} PartsMembers(pool: seq<Node>, list: seq<nat>)
    ensures forall p :: p in TypesReversed(pool, list) <==> p in list && TypeAt(pool, p)
    ensures forall p :: p in Others(pool, list) <==> p in list && !TypeAt(pool, p)
    decreases |list|
  {
    hide TypeAt;
    if list != [] {
      PartsMembers(pool, list[..|list| - 1]);
      assert list == list[..|list| - 1] + [list[|list| - 1]];
    }
  }

  lemma {:induction false} OthersStand(pool: seq<Node>, list: seq<nat>, a: nat, b: nat)
    requires a < b < |Others(pool, list)|
    ensures StoodBefore(list, Others(pool, list)[a], Others(pool, list)[b])
    decreases |list|
  {
    hide TypeAt, StoodBefore;
    var n := |list| - 1;
    var before := Others(pool, list[..n]);
    if b < |before| {
      OthersStand(pool, list[..n], a, b);
      StoodBeforeLonger(list, n, before[a], before[b]);
    } else {
      PartsMembers(pool, list[..n]);
      assert before[a] in before;
      StoodBeforeLast(list, before[a], list[n]);
    }
  }

  lemma {:induction false} TypesStand(pool: seq<Node>, list: seq<nat>, a: nat, b: nat)
    requires a < b < |TypesReversed(pool, list)|
    ensures StoodBefore(list, TypesReversed(pool, list)[b], TypesReversed(pool, list)[a])
    decreases |list|
  {
    hide TypeAt, StoodBefore;
    var n := |list| - 1;
    var before := TypesReversed(pool, list[..n]);
    if !TypeAt(pool, list[n]) {
      TypesStand(pool, list[..n], a, b);
      StoodBeforeLonger(list, n, before[b], before[a]);
    } else if a > 0 {
      TypesStand(pool, list[..n], a - 1, b - 1);
      StoodBeforeLonger(list, n, before[b - 1], before[a - 1]);
    } else {
      PartsMembers(pool, list[..n]);
      assert before[b - 1] in before;
      StoodBeforeLast(list, before[b - 1], list[n]);
    }
  }

  lemma TypeAtIs(pool: seq<Node>, list: seq<nat>)
    requires forall p :: p in list ==> p < |pool|
    ensures forall p :: p in list ==> (TypeAt(pool, p) <==> TypeRule(pool, p))
  {
  }

  lemma OrderedParts(pool: seq<Node>, list: seq<nat>)
    ensures Ordered(pool, list) == TypesReversed(pool, list) + Others(pool, list)
  {
  }

  /** The new order: type rules first, in reverse, then the others as they stood. */
  lemma OrderedWell(pool: seq<Node>, list: seq<nat>)
    requires forall p :: p in list ==> p < |pool|
    ensures var l := Ordered(pool, list);
      && multiset(l) == multiset(list) && (forall p :: p in l ==> p < |pool|)
      && (forall i, j :: 0 <= i < j < |l| && TypeRule(pool, l[j]) ==> TypeRule(pool, l[i]))
      && (forall i, j :: 0 <= i < j < |l| && TypeRule(pool, l[i]) && TypeRule(pool, l[j]) ==> StoodBefore(list, l[j], l[i]))
      && (forall i, j :: 0 <= i < j < |l| && !TypeRule(pool, l[i]) && !TypeRule(pool, l[j]) ==> StoodBefore(list, l[i], l[j]))
  {
    hide *;
    var l, t, o := Ordered(pool, list), TypesReversed(pool, list), Others(pool, list);
    OrderedSame(pool, list);
    OrderedParts(pool, list);
    TypeAtIs(pool, list);
    PartsMembers(pool, list);
    forall i | 0 <= i < |l| ensures l[i] in list && (TypeRule(pool, l[i]) <==> i < |t|) {
      if i < |t| { assert l[i] == t[i]; } else { assert l[i] == o[i - |t|]; }
    }
    forall i, j | 0 <= i < j < |l|
      ensures TypeRule(pool, l[i]) && TypeRule(pool, l[j]) ==> StoodBefore(list, l[j], l[i])
      ensures !TypeRule(pool, l[i]) && !TypeRule(pool, l[j]) ==> StoodBefore(list, l[i], l[j])
    {
      if j < |t| { TypesStand(pool, list, i, j); }
      if i >= |t| { OthersStand(pool, list, i - |t|, j - |t|); }
    }
  }

  /** Relinks every type rule but a leading one before the head as the list is walked. */
  method CondOptimize(pool: seq<Node>, list: seq<nat>) returns (l: seq<nat>)
    requires forall p :: p in list ==> p < |pool|
    ensures l == Ordered(pool, list)
    ensures multiset(l) == multiset(list) && forall p :: p in l ==> p < |pool|
    ensures forall i, j :: 0 <= i < j < |l| && TypeRule(pool, l[j]) ==> TypeRule(pool, l[i])
    ensures forall i, j :: 0 <= i < j < |l| && TypeRule(pool, l[i]) && TypeRule(pool, l[j]) ==> StoodBefore(list, l[j], l[i])
    ensures forall i, j :: 0 <= i < j < |l| && !TypeRule(pool, l[i]) && !TypeRule(pool, l[j]) ==> StoodBefore(list, l[i], l[j])
  {
    hide *;
    OrderedWell(pool, list);
    l := list;
    OrderedNone(pool, list);
    var cur := 0;
    while cur < |l|
      invariant cur <= |l| == |list|
      invariant l == Ordered(pool, list[..cur]) + list[cur..]
      invariant |Ordered(pool, list[..cur])| == cur
    {
      OrderedStep(pool, list, cur);
      SplitAt(Ordered(pool, list[..cur]), list, cur);
      TypeAtHas(pool, list, cur);
      if Has(pool[l[cur]].key.specified, TYPE_RULES) && cur != 0 {
        l := [l[cur]] + l[..cur] + l[cur + 1..];
      } else if cur == 0 {
        EmptyFront(pool, list, list[0]);
      }
      cur := cur + 1;
    }
    assert list[..|list|] == list && list[|list|..] == [];
  }

  lemma SplitAt(head: seq<nat>, list: seq<nat>, cur: nat)
    requires |head| == cur < |list|
    ensures var l := head + list[cur..];
      l[cur] == list[cur] && l[..cur] == head && l[cur + 1..] == list[cur + 1..] && l == head + [list[cur]] + list[cur + 1..]
  {
  }

  lemma TypeAtHas(pool: seq<Node>, list: seq<nat>, cur: nat)
    requires cur < |list| && forall p :: p in list ==> p < |pool|
    ensures list[cur] < |pool| && (TypeAt(pool, list[cur]) <==> Has(pool[list[cur]].key.specified, TYPE_RULES))
  {
    assert list[cur] in list;
  }

  lemma OrderedNone(pool: seq<Node>, list: seq<nat>)
    ensures Ordered(pool, list[..0]) == [] && list == [] + list[0..]
  {
  }

  lemma EmptyFront(pool: seq<Node>, list: seq<nat>, p: nat)
    requires |list| > 0 && p == list[0]
    ensures [p] + Ordered(pool, list[..0]) == Ordered(pool, list[..0]) + [p]
  {
  }

  /** The reordered list has the same nodes, each as often. */
  lemma {:induction false} OrderedSame(pool: seq<Node>, list: seq<nat>)
    ensures multiset(Ordered(pool, list)) == multiset(list)
    decreases |list|
  {
    hide Ordered;
    if list == [] {
      OrderedNone(pool, list);
    } else {
      var n := |list| - 1;
      OrderedSame(pool, list[..n]);
      OrderedStep(pool, list, n);
      assert list == list[..n] + [list[n]];
      assert list[..n + 1] == list;
    }
  }

  /** No rule of another kind precedes a type rule. */
  lemma {:induction false} TypesLead(pool: seq<Node>, list: seq<nat>)
    ensures forall i, j :: 0 <= i < j < |Ordered(pool, list)| && TypeAt(pool, Ordered(pool, list)[j]) ==>
      TypeAt(pool, Ordered(pool, list)[i])
    decreases |list|
  {
    hide TypeAt;
    TypesOnly(pool, list);
    OthersOnly(pool, list);
  }

  lemma {:induction false} TypesOnly(pool: seq<Node>, list: seq<nat>)
    ensures forall i :: 0 <= i < |TypesReversed(pool, list)| ==> TypeAt(pool, TypesReversed(pool, list)[i])
    decreases |list|
  {
    hide TypeAt;
    if list != [] { TypesOnly(pool, list[..|list| - 1]); }
  }

  lemma {:induction false} OthersOnly(pool: seq<Node>, list: seq<nat>)
    ensures forall i :: 0 <= i < |Others(pool, list)| ==> !TypeAt(pool, Others(pool, list)[i])
    decreases |list|
  {
    hide TypeAt;
    if list != [] { OthersOnly(pool, list[..|list| - 1]); }
  }

  function Reordered(pool: seq<Node>, cn: CondNode): CondNode {
    cn.(trueList := Ordered(pool, cn.trueList), falseList := Ordered(pool, cn.falseList))
  }

  ghost predicate AllReordered(pool: seq<Node>, a: seq<CondNode>, b: seq<CondNode>) {
    |a| == |b| && forall i :: 0 <= i < |a| ==> b[i] == Reordered(pool, a[i])
  }

  lemma {:induction false} SameUses(pool: seq<Node>, a: seq<CondNode>, b: seq<CondNode>, p: nat)
    requires AllReordered(pool, a, b)
    ensures Uses(b, p) == Uses(a, p)
    decreases |a|
  {
    hide Ordered;
    if a != [] {
      var k := |a| - 1;
      SameUses(pool, a[..k], b[..k], p);
      OrderedSame(pool, a[k].trueList);
      OrderedSame(pool, a[k].falseList);
    }
  }

  lemma SameMembers(pool: seq<Node>, list: seq<nat>)
    ensures forall p :: p in Ordered(pool, list) <==> p in list
  {
    OrderedSame(pool, list);
    hide Ordered;
    forall p ensures p in Ordered(pool, list) <==> p in list {
      assert p in multiset(Ordered(pool, list)) <==> p in multiset(list);
    }
  }

  lemma SameBranch(tm: TypeMaps, pool: seq<Node>, cn: CondNode, o: Outcome, a: Access)
    requires tm.InRange()
    ensures ListDecides(tm, pool, Branch(Reordered(pool, cn), o), a) <==> ListDecides(tm, pool, Branch(cn, o), a)
  {
    SameMembers(pool, cn.trueList);
    SameMembers(pool, cn.falseList);
    hide Ordered, Speaks;
  }

  lemma SameDecisions(tm: TypeMaps, pool: seq<Node>, x: seq<CondNode>, y: seq<CondNode>, asg: seq<bool>, a: Access)
    requires tm.InRange() && AllReordered(pool, x, y) && ExprsInScope(x, |asg|)
    ensures ExprsInScope(y, |asg|) && (CondDecides(tm, pool, y, asg, a) <==> CondDecides(tm, pool, x, asg, a))
  {
    hide Ordered, ListDecides, Evaluate, InScope, Branch;
    forall i | 0 <= i < |x|
      ensures InScope(y[i].expr, |asg|)
      ensures ListDecides(tm, pool, Branch(y[i], Evaluate(y[i].expr, asg)), a) <==> ListDecides(tm, pool, Branch(x[i], Evaluate(x[i].expr, asg)), a)
    {
      SameBranch(tm, pool, x[i], Evaluate(x[i].expr, asg), a);
    }
  }

  /** Reorders both branches of every conditional; the policy stays in order and decides as before. */
  method CondOptimizeLists(db: PolicyDb)
    requires db.Valid()
    modifies db`condList
    ensures db.Valid() && AllReordered(db.teCond.pool, old(db.condList), db.condList)
    ensures forall asg: seq<bool>, a: Access :: |asg| == |db.bools| ==> (db.Decides(asg, a) <==> old(db.Decides(asg, a)))
  {
    ghost var conds0, pool := db.condList, db.teCond.pool;
    forall k | 0 <= k < |conds0|
      ensures forall p: nat :: p in conds0[k].trueList || p in conds0[k].falseList ==> p < |pool|
    {
      ListsInPool(db, k);
    }
    ReorderAll(db);
    forall p: nat ensures Uses(db.condList, p) == Uses(conds0, p) { SameUses(pool, conds0, db.condList, p); }
    hide Uses, Linked, AllReordered, CondDecides;
    forall asg: seq<bool>, a: Access | |asg| == |db.bools|
      ensures ExprsInScope(db.condList, |asg|)
      ensures CondDecides(db.tm, pool, db.condList, asg, a) <==> CondDecides(db.tm, pool, conds0, asg, a)
    {
      SameDecisions(db.tm, pool, conds0, db.condList, asg, a);
    }
    ghost var any := seq(|db.bools|, i => false);
    assert ExprsInScope(db.condList, |any|);
  }

  method ReorderAll(db: PolicyDb)
    requires forall k, p: nat :: 0 <= k < |db.condList| && (p in db.condList[k].trueList || p in db.condList[k].falseList) ==> p < |db.teCond.pool|
    modifies db`condList
    ensures AllReordered(db.teCond.pool, old(db.condList), db.condList)
  {
    hide Ordered;
    ghost var conds0 := db.condList;
    for k := 0 to |db.condList|
      invariant |db.condList| == |conds0|
      invariant forall i :: 0 <= i < |conds0| ==> db.condList[i] == if i < k then Reordered(db.teCond.pool, conds0[i]) else conds0[i]
    {
      var t := CondOptimize(db.teCond.pool, db.condList[k].trueList);
      var f := CondOptimize(db.teCond.pool, db.condList[k].falseList);
      db.condList := db.condList[k := db.condList[k].(trueList := t, falseList := f)];
    }
  }
}
