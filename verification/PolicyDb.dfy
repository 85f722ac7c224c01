/**
 A kernel policy: the unconditional table, the conditional table, and the conditionals whose
 branch lists point into the latter; and the access decision it yields.
 */
module PolicyDb {
  import opened Prelude
  import opened Avtab
  import opened Masks
  import opened TypeMaps
  import opened AccessDecision
  import opened CondExpr

  /** One question about a concrete source type, target type and class. */
  datatype Access = Access(s: nat, t: nat, c: nat, q: Query)

  ghost predicate Speaks(tm: TypeMaps, n: Node, a: Access)
    requires tm.InRange()
  {
    tm.Concrete(a.s) && tm.Concrete(a.t) && tm.Applies(n.key, a.s, a.t, a.c) && Answers(n, a.q)
  }

  ghost predicate TableDecides(tm: TypeMaps, pool: seq<Node>, htable: seq<seq<nat>>, a: Access)
    requires tm.InRange()
  {
    exists p: nat :: Linked(htable, p) && p < |pool| && Speaks(tm, pool[p], a)
  }

  ghost predicate ListDecides(tm: TypeMaps, pool: seq<Node>, list: seq<nat>, a: Access)
    requires tm.InRange()
  {
    exists p: nat :: p in list && p < |pool| && Speaks(tm, pool[p], a)
  }

  /** A conditional: its expression, last computed state and branch lists of node pointers. */
  datatype CondNode = CondNode(
    curState: Outcome, expr: seq<Op>, trueList: seq<nat>, falseList: seq<nat>,
    avtrueList: seq<nat>, avfalseList: seq<nat>,
    nbools: nat, boolIds: seq<nat>, preComp: bv32)

  /** The rules a conditional contributes when its expression evaluates to `o`. */
  function Branch(cn: CondNode, o: Outcome): seq<nat> {
    match o
    case Defined(true) => cn.trueList
    case Defined(false) => cn.falseList
    case Undefined => []
  }

  /** A conditional with one of its branch lists replaced. */
  function WithList(cn: CondNode, side: bool, list: seq<nat>): CondNode {
    if side then cn.(trueList := list) else cn.(falseList := list)
  }

  function ListOf(cn: CondNode, side: bool): seq<nat> {
    if side then cn.trueList else cn.falseList
  }

  ghost predicate ExprsInScope(conds: seq<CondNode>, n: nat) {
    forall i :: 0 <= i < |conds| ==> InScope(conds[i].expr, n)
  }

  /** Every condition has a value. */
  ghost predicate AllDefined(conds: seq<CondNode>, asg: seq<bool>)
    requires ExprsInScope(conds, |asg|)
  {
    forall k :: 0 <= k < |conds| ==> Evaluate(conds[k].expr, asg) != Undefined
  }

  /** The branches an assignment takes. */
  ghost function Taken(conds: seq<CondNode>, asg: seq<bool>): (choice: seq<bool>)
    requires ExprsInScope(conds, |asg|)
    ensures |choice| == |conds|
    ensures forall k :: 0 <= k < |conds| ==> choice[k] == (Evaluate(conds[k].expr, asg) == Defined(true))
  {
    seq(|conds|, k requires 0 <= k < |conds| => Evaluate(conds[k].expr, asg) == Defined(true))
  }

  ghost predicate CondDecides(tm: TypeMaps, pool: seq<Node>, conds: seq<CondNode>, bools: seq<bool>, a: Access)
    requires tm.InRange() && ExprsInScope(conds, |bools|)
  {
    exists i :: 0 <= i < |conds| && ListDecides(tm, pool, Branch(conds[i], Evaluate(conds[i].expr, bools)), a)
  }

  /** The whole decision: unconditional rules and the active branch of every conditional. */
  ghost predicate DecidesIn(tm: TypeMaps, tePool: seq<Node>, teTable: seq<seq<nat>>,
                            pool: seq<Node>, conds: seq<CondNode>, bools: seq<bool>, a: Access)
    requires tm.InRange() && ExprsInScope(conds, |bools|)
  {
    TableDecides(tm, tePool, teTable, a) || CondDecides(tm, pool, conds, bools, a)
  }

  /** How often node `p` occurs in a list. */
  ghost function Occurs(list: seq<nat>, p: nat): (n: nat)
    ensures n > 0 <==> p in list
  {
    multiset(list)[p]
  }

  /** How often the conditional lists point at node `p`. */
  ghost function Uses(conds: seq<CondNode>, p: nat): nat {
    if conds == [] then 0
    else
      var k := |conds| - 1;
      Uses(conds[..k], p) + Occurs(conds[k].trueList, p) + Occurs(conds[k].falseList, p)
  }

  lemma {:induction false} UsesSplit(conds: seq<CondNode>, k: nat, p: nat)
    requires k < |conds|
    ensures Uses(conds, p) ==
      Uses(conds[..k], p) + Occurs(conds[k].trueList, p) + Occurs(conds[k].falseList, p) + Uses(conds[k + 1..], p)
    decreases |conds|
  {
    hide Occurs;
    var n := |conds| - 1;
    if k == n {
      assert conds[k + 1..] == [];
    } else {
      UsesSplit(conds[..n], k, p);
      assert conds[..n][..k] == conds[..k];
      assert conds[..n][k + 1..] == conds[k + 1..n];
      assert conds[k + 1..][..|conds| - k - 2] == conds[k + 1..n];
    }
  }

  lemma UsesUpdate(conds: seq<CondNode>, k: nat, cn: CondNode, p: nat)
    requires k < |conds|
    ensures Uses(conds[k := cn], p) == Uses(conds, p)
      - Occurs(conds[k].trueList, p) - Occurs(conds[k].falseList, p)
      + Occurs(cn.trueList, p) + Occurs(cn.falseList, p)
  {
    UsesSplit(conds, k, p);
    UsesSplit(conds[k := cn], k, p);
    assert conds[k := cn][..k] == conds[..k] && conds[k := cn][k + 1..] == conds[k + 1..];
  }

  lemma {:induction false} UsesOf(conds: seq<CondNode>, k: nat, p: nat)
    requires k < |conds| && (p in conds[k].trueList || p in conds[k].falseList)
    ensures Uses(conds, p) > 0
  {
    UsesSplit(conds, k, p);
  }

  lemma {:induction false} UsesOwner(conds: seq<CondNode>, p: nat) returns (k: nat)
    requires Uses(conds, p) > 0
    ensures k < |conds| && (p in conds[k].trueList || p in conds[k].falseList)
  {
    var n := |conds| - 1;
    if p in conds[n].trueList || p in conds[n].falseList {
      k := n;
    } else {
      k := UsesOwner(conds[..n], p);
    }
  }

  /** No node is on two lists, or twice on one. */
  ghost predicate Unshared(conds: seq<CondNode>) {
    forall p: nat :: Uses(conds, p) <= 1
  }

  lemma ListsDisjoint(conds: seq<CondNode>, k: nat, i: nat, p: nat)
    requires Unshared(conds) && k < |conds| && i < |conds|
    ensures p in conds[k].trueList ==> p !in conds[k].falseList
    ensures i != k && (p in conds[k].trueList || p in conds[k].falseList) ==>
      p !in conds[i].trueList && p !in conds[i].falseList
  {
    hide Occurs;
    UsesSplit(conds, k, p);
    if i < k {
      if p in conds[i].trueList || p in conds[i].falseList { UsesOf(conds[..k], i, p); }
    } else if i > k {
      if p in conds[i].trueList || p in conds[i].falseList { UsesOf(conds[k + 1..], i - k - 1, p); }
    }
  }

  lemma Repeated(list: seq<nat>, i: nat, j: nat)
    requires i < j < |list| && list[i] == list[j]
    ensures multiset(list)[list[i]] >= 2
  {
    assert list == list[..j] + list[j..];
    assert list[i] in list[..j] && list[j] in list[j..];
  }

  lemma ListReady(conds: seq<CondNode>, k: nat, side: bool, p: nat)
    requires Unshared(conds) && k < |conds|
    ensures NoDuplicates(ListOf(conds[k], side))
    ensures p in ListOf(conds[k], side) ==> Uses(conds, p) > 0
  {
    if p in ListOf(conds[k], side) { UsesOf(conds, k, p); }
    var l := ListOf(conds[k], side);
    forall i, j | 0 <= i < j < |l| ensures l[i] != l[j] {
      if l[i] == l[j] {
        Repeated(l, i, j);
        UsesSplit(conds, k, l[i]);
      }
    }
  }

  /** Rule keys name declared types and carry one specifier; extended rules own their words. */
  ghost predicate RuleOk(tm: TypeMaps, n: Node) {
    && OneKind(n.key.specified)
    && 0 < n.key.source <= tm.Nprim() && tm.flavor[n.key.source - 1] != Gap
    && 0 < n.key.target <= tm.Nprim() && tm.flavor[n.key.target - 1] != Gap
    && (IsXperms(n.key.specified) ==> n.datum.xperms.Some?)
  }

  ghost predicate RulesOk(tm: TypeMaps, pool: seq<Node>) {
    forall p :: 0 <= p < |pool| ==> RuleOk(tm, pool[p])
  }

  ghost predicate KeyInRange(tm: TypeMaps, n: Node) {
    tm.InRange() && 0 < n.key.source <= tm.Nprim() && 0 < n.key.target <= tm.Nprim()
  }

  ghost predicate AllInRange(tm: TypeMaps, pool: seq<Node>) {
    forall p :: 0 <= p < |pool| ==> KeyInRange(tm, pool[p])
  }

  ghost predicate ChainsInPool(tab: Avtab)
    reads tab
  {
    forall i :: 0 <= i < |tab.htable| ==> InPool(tab.pool, tab.htable[i])
  }

  lemma ValidChains(tab: Avtab)
    requires tab.Valid()
    ensures ChainsInPool(tab)
  {
    forall i | 0 <= i < |tab.htable| ensures InPool(tab.pool, tab.htable[i]) {
      assert ChainOk(tab.hash, |tab.htable|, tab.pool, i, tab.htable[i]);
    }
  }

  class PolicyDb {
    const tm: TypeMaps
    const te: Avtab
    const teCond: Avtab
    var bools: seq<bool>
    var condList: seq<CondNode>

    ghost predicate Valid()
      reads this, te, teCond
    {
      && te != teCond
      && te.Valid() && teCond.Valid()
      && tm.Valid()
      && RulesOk(tm, te.pool) && RulesOk(tm, teCond.pool)
      && ExprsInScope(condList, |bools|)
      && Unshared(condList)
      && forall p: nat :: Uses(condList, p) > 0 <==> Linked(teCond.htable, p)
    }

    /** A policy whose unconditional part has been read; conditionals follow. */
    constructor (tm: TypeMaps, te: Avtab, teCond: Avtab, bools: seq<bool>)
      requires te != teCond && te.Valid() && teCond.Valid() && tm.Valid()
      requires RulesOk(tm, te.pool) && teCond.pool == [] && forall i :: 0 <= i < |teCond.htable| ==> teCond.htable[i] == []
      ensures Valid() && this.tm == tm && this.te == te && this.teCond == teCond && this.bools == bools && condList == []
    {
      this.tm, this.te, this.teCond, this.bools := tm, te, teCond, bools;
      condList := [];
    }

    /** The decision with the booleans set to `asg`. */
    ghost predicate Decides(asg: seq<bool>, a: Access)
      requires Valid() && |asg| == |bools|
      reads this, te, teCond
    {
      DecidesIn(tm, te.pool, te.htable, teCond.pool, condList, asg, a)
    }
  }

  ghost predicate ListsInRange(pool: seq<Node>, cn: CondNode) {
    InPool(pool, cn.trueList) && InPool(pool, cn.falseList)
  }

  ghost predicate AllLists(pool: seq<Node>, conds: seq<CondNode>) {
    forall k :: 0 <= k < |conds| ==> ListsInRange(pool, conds[k])
  }

  lemma ListsInPool(db: PolicyDb, k: nat)
    requires db.Valid() && k < |db.condList|
    ensures forall p: nat :: p in db.condList[k].trueList || p in db.condList[k].falseList ==> p < |db.teCond.pool|
  {
    forall p: nat | p in db.condList[k].trueList || p in db.condList[k].falseList ensures p < |db.teCond.pool| {
      UsesOf(db.condList, k, p);
      LinkedSlot(db.teCond.hash, db.teCond.pool, db.teCond.htable, p);
    }
  }

  lemma MembersInPool(pool: seq<Node>, list: seq<nat>)
    requires forall p: nat :: p in list ==> p < |pool|
    ensures InPool(pool, list)
  {
    forall j | 0 <= j < |list| ensures list[j] < |pool| { assert list[j] in list; }
  }

  lemma PolicyInRange(db: PolicyDb)
    requires db.Valid()
    ensures AllInRange(db.tm, db.te.pool) && AllInRange(db.tm, db.teCond.pool)
    ensures db.te.Valid() && ChainsInPool(db.te) && AllLists(db.teCond.pool, db.condList)
  {
    ValidChains(db.te);
    forall p | 0 <= p < |db.te.pool| ensures KeyInRange(db.tm, db.te.pool[p]) { assert RuleOk(db.tm, db.te.pool[p]); }
    forall p | 0 <= p < |db.teCond.pool| ensures KeyInRange(db.tm, db.teCond.pool[p]) { assert RuleOk(db.tm, db.teCond.pool[p]); }
    forall k | 0 <= k < |db.condList| ensures ListsInRange(db.teCond.pool, db.condList[k]) {
      ListsInPool(db, k);
      MembersInPool(db.teCond.pool, db.condList[k].trueList);
      MembersInPool(db.teCond.pool, db.condList[k].falseList);
    }
  }

  // ---------------------------------------------------------------- the decision on a permission, written out

  /** An allow rule whose source is in the row of `s` and whose target in that of `t`, with a permission of `mask`. */
  ghost predicate AllowRule(tm: TypeMaps, n: Node, s: nat, t: nat, c: nat, mask: bv32)
    requires tm.InRange() && tm.Concrete(s) && tm.Concrete(t)
  {
    && Specifier(n.key.specified) == 1 && n.key.tclass == c
    && n.key.source > 0 && n.key.source - 1 in tm.typeAttr[s]
    && n.key.target > 0 && n.key.target - 1 in tm.typeAttr[t]
    && Meets(n.datum.data, mask)
  }

  lemma AllowRuleExactly(tm: TypeMaps, n: Node, s: nat, t: nat, c: nat, mask: bv32)
    requires tm.InRange() && tm.Concrete(s) && tm.Concrete(t)
    ensures Speaks(tm, n, Access(s, t, c, Bits(Allow, mask))) <==> AllowRule(tm, n, s, t, c, mask)
  {
    hide Answers, Specifier, Meets;
    AllowSays(n, mask);
  }

  /** Rule `p` is in force in the `k`-th conditional: on its true list if that is true, on its false list if false. */
  ghost predicate InForce(conds: seq<CondNode>, bools: seq<bool>, k: nat, p: nat)
    requires ExprsInScope(conds, |bools|) && k < |conds|
  {
    || (Evaluate(conds[k].expr, bools) == Defined(true) && p in conds[k].trueList)
    || (Evaluate(conds[k].expr, bools) == Defined(false) && p in conds[k].falseList)
  }

  lemma TableAllows(tm: TypeMaps, pool: seq<Node>, htable: seq<seq<nat>>, s: nat, t: nat, c: nat, mask: bv32)
    requires tm.InRange() && tm.Concrete(s) && tm.Concrete(t)
    ensures TableDecides(tm, pool, htable, Access(s, t, c, Bits(Allow, mask))) <==>
      exists i, p: nat :: 0 <= i < |htable| && p in htable[i] && p < |pool| && AllowRule(tm, pool[p], s, t, c, mask)
  {
    var a := Access(s, t, c, Bits(Allow, mask));
    forall n: Node ensures Speaks(tm, n, a) <==> AllowRule(tm, n, s, t, c, mask) { AllowRuleExactly(tm, n, s, t, c, mask); }
    hide Speaks, AllowRule;
    if i, p: nat :| 0 <= i < |htable| && p in htable[i] && p < |pool| && AllowRule(tm, pool[p], s, t, c, mask) {
      assert Linked(htable, p);
    }
  }

  lemma CondsAllow(tm: TypeMaps, pool: seq<Node>, conds: seq<CondNode>, asg: seq<bool>, s: nat, t: nat, c: nat, mask: bv32)
    requires tm.InRange() && tm.Concrete(s) && tm.Concrete(t) && ExprsInScope(conds, |asg|)
    ensures CondDecides(tm, pool, conds, asg, Access(s, t, c, Bits(Allow, mask))) <==>
      exists k, p: nat :: 0 <= k < |conds| && InForce(conds, asg, k, p) && p < |pool| && AllowRule(tm, pool[p], s, t, c, mask)
  {
    var a := Access(s, t, c, Bits(Allow, mask));
    forall n: Node ensures Speaks(tm, n, a) <==> AllowRule(tm, n, s, t, c, mask) { AllowRuleExactly(tm, n, s, t, c, mask); }
    hide Speaks, AllowRule, Evaluate, InScope;
    if k, p: nat :| 0 <= k < |conds| && InForce(conds, asg, k, p) && p < |pool| && AllowRule(tm, pool[p], s, t, c, mask) {
      assert ListDecides(tm, pool, Branch(conds[k], Evaluate(conds[k].expr, asg)), a);
    }
    if CondDecides(tm, pool, conds, asg, a) {
      var k :| 0 <= k < |conds| && ListDecides(tm, pool, Branch(conds[k], Evaluate(conds[k].expr, asg)), a);
      var p: nat :| p in Branch(conds[k], Evaluate(conds[k].expr, asg)) && p < |pool| && Speaks(tm, pool[p], a);
      assert InForce(conds, asg, k, p);
    }
  }

  lemma DecidesParts(db: PolicyDb, asg: seq<bool>, a: Access)
    requires db.Valid() && |asg| == |db.bools|
    ensures db.tm.InRange() && ExprsInScope(db.condList, |asg|)
    ensures db.Decides(asg, a) <==>
      TableDecides(db.tm, db.te.pool, db.te.htable, a) || CondDecides(db.tm, db.teCond.pool, db.condList, asg, a)
  {
    hide TableDecides, CondDecides, RulesOk, Unshared, Uses;
  }

  /** A permission is allowed by some unconditional allow rule or by one in force in some conditional. */
  lemma {:induction false} AllowedExactly(db: PolicyDb, asg: seq<bool>, s: nat, t: nat, c: nat, mask: bv32)
    requires db.Valid() && |asg| == |db.bools| && db.tm.Concrete(s) && db.tm.Concrete(t)
    ensures db.Decides(asg, Access(s, t, c, Bits(Allow, mask))) <==>
      || (exists i, p: nat :: 0 <= i < |db.te.htable| && p in db.te.htable[i] && p < |db.te.pool| &&
            AllowRule(db.tm, db.te.pool[p], s, t, c, mask))
      || (exists k, p: nat :: 0 <= k < |db.condList| && InForce(db.condList, asg, k, p) && p < |db.teCond.pool| &&
            AllowRule(db.tm, db.teCond.pool[p], s, t, c, mask))
  {
    hide *;
    DecidesParts(db, asg, Access(s, t, c, Bits(Allow, mask)));
    TableAllows(db.tm, db.te.pool, db.te.htable, s, t, c, mask);
    CondsAllow(db.tm, db.teCond.pool, db.condList, asg, s, t, c, mask);
  }
}
