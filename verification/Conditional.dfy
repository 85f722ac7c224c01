/**
 Keeping the conditional rules in step with the booleans (src/conditional.c,
 src/booleans.c): a node's rules are re-flagged only when its expression changes value.
 */
module Conditional {
  import opened Prelude
  import opened Avtab
  import opened TypeMaps
  import opened AccessDecision
  import opened CondExpr
  import opened PolicyDb

  // ---------------------------------------------------------------- incremental evaluation

  /** Two pools that differ in enabled flags only. */
  ghost predicate FlagsOnly(a: seq<Node>, b: seq<Node>) {
    && |a| == |b|
    && forall p :: 0 <= p < |a| ==>
         && SameTriple(a[p].key, b[p].key) && a[p].datum == b[p].datum
         && a[p].key.specified & !ENABLED == b[p].key.specified & !ENABLED
  }

  ghost predicate ListFlagged(pool: seq<Node>, list: seq<nat>, on: bool) {
    forall p: nat :: p in list ==> p < |pool| && IsEnabled(pool[p].key.specified) == on
  }

  /** A conditional's rules carry the flags its recorded state calls for. */
  ghost predicate NodeFlagged(pool: seq<Node>, cn: CondNode) {
    && ListFlagged(pool, cn.trueList, cn.curState == Defined(true))
    && ListFlagged(pool, cn.falseList, cn.curState == Defined(false))
  }

  ghost predicate AllFlagged(pool: seq<Node>, conds: seq<CondNode>) {
    forall i :: 0 <= i < |conds| ==> NodeFlagged(pool, conds[i])
  }

  /** Recorded states are those the expressions evaluate to now. */
  ghost predicate AllCurrent(conds: seq<CondNode>, bools: seq<bool>)
    requires ExprsInScope(conds, |bools|)
  {
    forall i :: 0 <= i < |conds| ==> conds[i].curState == Evaluate(conds[i].expr, bools)
  }

  lemma FlagsOnlyKeepsRules(tm: TypeMaps, a: seq<Node>, b: seq<Node>)
    requires FlagsOnly(a, b) && RulesOk(tm, a)
    ensures RulesOk(tm, b)
  {
    forall p | 0 <= p < |b| ensures RuleOk(tm, b[p]) {
      assert RuleOk(tm, a[p]);
      SameSpecifier(a[p].key.specified, b[p].key.specified);
      hide OneKind, IsXperms;
    }
  }

  lemma SameKinds(x: bv16, y: bv16)
    requires x & !ENABLED == y & !ENABLED
    ensures forall k :: OfKind(x, k) <==> OfKind(y, k)
    ensures IsXperms(x) <==> IsXperms(y)
  {
    hide KindBit;
  }

  lemma SameSpecifier(x: bv16, y: bv16)
    requires x & !ENABLED == y & !ENABLED
    ensures forall k :: OfKind(x, k) <==> OfKind(y, k)
    ensures IsXperms(x) <==> IsXperms(y)
    ensures OneKind(x) <==> OneKind(y)
  {
    SameKinds(x, y);
    hide OfKind;
  }

  method SetListEnabled(tab: Avtab, list: seq<nat>, on: bool)
    requires tab.Valid() && forall p: nat :: p in list ==> p < |tab.pool|
    modifies tab`pool
    ensures tab.Valid() && FlagsOnly(old(tab.pool), tab.pool)
    ensures ListFlagged(tab.pool, list, on)
    ensures forall p: nat :: p < |tab.pool| && p !in list ==> tab.pool[p] == old(tab.pool)[p]
  {
    forall j | 0 <= j < |list| ensures list[j] < |tab.pool| { assert list[j] in list; }
    for i := 0 to |list|
      invariant tab.Valid() && FlagsOnly(old(tab.pool), tab.pool)
      invariant forall j :: 0 <= j < i ==> list[j] < |tab.pool| && IsEnabled(tab.pool[list[j]].key.specified) == on
      invariant forall p: nat :: p < |tab.pool| && p !in list ==> tab.pool[p] == old(tab.pool)[p]
    {
      hide WithEnabled, IsEnabled;
      assert list[i] in list;
      tab.SetEnabled(list[i], on);
    }
  }

  /** The enabled flag of a rule, the top bit of its specifier. */
  predicate FlagSet(n: Node) {
    n.key.specified & 0x8000 != 0
  }

  /** True-list rules are flagged exactly if the expression is true, false-list rules if it is false. */
  ghost predicate RulesFollow(pool: seq<Node>, cn: CondNode, bools: seq<bool>)
    requires InScope(cn.expr, |bools|)
  {
    && (forall p: nat :: p in cn.trueList ==> p < |pool| && (FlagSet(pool[p]) <==> Evaluate(cn.expr, bools) == Defined(true)))
    && (forall p: nat :: p in cn.falseList ==> p < |pool| && (FlagSet(pool[p]) <==> Evaluate(cn.expr, bools) == Defined(false)))
  }

  lemma FlagIs(n: Node)
    ensures IsEnabled(n.key.specified) <==> FlagSet(n)
  {
  }

  /** Flags and states that agree with the booleans put every rule in or out of force as its expression says. */
  lemma AllFollow(pool: seq<Node>, conds: seq<CondNode>, bools: seq<bool>)
    requires ExprsInScope(conds, |bools|) && AllFlagged(pool, conds) && AllCurrent(conds, bools)
    ensures forall k :: 0 <= k < |conds| ==> RulesFollow(pool, conds[k], bools)
  {
    forall n: Node ensures IsEnabled(n.key.specified) <==> FlagSet(n) { FlagIs(n); }
    hide IsEnabled, FlagSet, Evaluate, InScope;
    forall k | 0 <= k < |conds| ensures RulesFollow(pool, conds[k], bools) { assert NodeFlagged(pool, conds[k]); }
  }

  /** Rules as they were, but for the top bit of their specifiers. */
  ghost predicate OnlyFlagsMove(was: seq<Node>, now: seq<Node>) {
    |now| == |was| && forall p :: 0 <= p < |was| ==>
      && now[p].datum == was[p].datum && now[p].key == was[p].key.(specified := now[p].key.specified)
      && Specifier(now[p].key.specified) == Specifier(was[p].key.specified)
  }

  lemma FlagsMove(was: seq<Node>, now: seq<Node>)
    requires FlagsOnly(was, now)
    ensures OnlyFlagsMove(was, now)
  {
    forall x: bv16 ensures Specifier(x) == x & !ENABLED { SpecifierIs(x); }
    hide Specifier;
  }

  /** Conditionals as they were, but for the recorded states, which are the present values. */
  ghost predicate StatesRenewed(was: seq<CondNode>, now: seq<CondNode>, bools: seq<bool>)
    requires ExprsInScope(was, |bools|)
  {
    |now| == |was| && forall k :: 0 <= k < |was| ==> now[k] == was[k].(curState := Evaluate(was[k].expr, bools))
  }

  /** Re-evaluates one conditional and, if its state changed, flips its rules. */
  method EvaluateCondNode(db: PolicyDb, k: nat)
    requires db.Valid() && k < |db.condList| && AllFlagged(db.teCond.pool, db.condList)
    modifies db`condList, db.teCond`pool
    ensures db.Valid() && AllFlagged(db.teCond.pool, db.condList)
    ensures FlagsOnly(old(db.teCond.pool), db.teCond.pool)
    ensures db.condList ==
      old(db.condList)[k := old(db.condList)[k].(curState := Evaluate(old(db.condList)[k].expr, db.bools))]
  {
    var cn := db.condList[k];
    ghost var pool0, conds0 := db.teCond.pool, db.condList;
    ListsInPool(db, k);
    var newState := CondEvaluateExpr(cn.expr, db.bools);
    if newState != cn.curState {
      var cn' := cn.(curState := newState);
      SetListEnabled(db.teCond, cn.trueList, newState == Defined(true));
      ghost var pool1 := db.teCond.pool;
      SetListEnabled(db.teCond, cn.falseList, newState == Defined(false));
      FlagsOnlyTrans(pool0, pool1, db.teCond.pool);
      FlagsOnlyKeepsRules(db.tm, pool0, db.teCond.pool);
      db.condList := db.condList[k := cn'];
      FlagsAfterUpdate(pool0, pool1, db.teCond.pool, conds0, k, cn');
      forall p: nat ensures Uses(db.condList, p) == Uses(conds0, p) { UsesUpdate(conds0, k, cn', p); }
    } else {
      assert db.condList == conds0[k := cn.(curState := newState)];
    }
  }

  lemma FlagsOnlyTrans(a: seq<Node>, b: seq<Node>, c: seq<Node>)
    requires FlagsOnly(a, b) && FlagsOnly(b, c)
    ensures FlagsOnly(a, c)
  {
  }

  /** Flipping one conditional's rules leaves every other conditional's rules alone. */
  lemma FlagsAfterUpdate(a: seq<Node>, b: seq<Node>, c: seq<Node>, conds: seq<CondNode>, k: nat, cn: CondNode)
    requires Unshared(conds) && k < |conds| && AllFlagged(a, conds) && |a| == |b| == |c|
    requires cn == conds[k].(curState := cn.curState)
    requires ListFlagged(b, cn.trueList, cn.curState == Defined(true))
    requires forall p: nat :: p < |b| && p !in cn.trueList ==> b[p] == a[p]
    requires ListFlagged(c, cn.falseList, cn.curState == Defined(false))
    requires forall p: nat :: p < |c| && p !in cn.falseList ==> c[p] == b[p]
    ensures AllFlagged(c, conds[k := cn])
  {
    hide Unshared;
    var conds' := conds[k := cn];
    forall i | 0 <= i < |conds'| ensures NodeFlagged(c, conds'[i]) {
      assert NodeFlagged(a, conds[i]);
      forall p: nat
        ensures i == k && p in cn.trueList ==> p !in cn.falseList
        ensures i != k && (p in conds[i].trueList || p in conds[i].falseList) ==> p !in cn.trueList && p !in cn.falseList
      {
        ListsDisjoint(conds, k, k, p);
        ListsDisjoint(conds, k, i, p);
      }
    }
  }

  /** The loop over all conditionals; those whose state is unchanged are skipped. */
  method EvaluateConds(db: PolicyDb)
    requires db.Valid() && AllFlagged(db.teCond.pool, db.condList)
    modifies db`condList, db.teCond`pool
    ensures db.Valid() && AllFlagged(db.teCond.pool, db.condList) && AllCurrent(db.condList, db.bools)
    ensures FlagsOnly(old(db.teCond.pool), db.teCond.pool)
    ensures SameLists(old(db.condList), db.condList)
    ensures StatesRenewed(old(db.condList), db.condList, db.bools) && OnlyFlagsMove(old(db.teCond.pool), db.teCond.pool)
    ensures forall k :: 0 <= k < |db.condList| ==> RulesFollow(db.teCond.pool, db.condList[k], db.bools)
  {
    for k := 0 to |db.condList|
      invariant |db.condList| == |old(db.condList)|
      invariant db.Valid() && AllFlagged(db.teCond.pool, db.condList)
      invariant FlagsOnly(old(db.teCond.pool), db.teCond.pool)
      invariant SameLists(old(db.condList), db.condList)
      invariant forall i :: 0 <= i < k ==> db.condList[i].curState == Evaluate(db.condList[i].expr, db.bools)
    {
      hide FlagsOnly, AllFlagged, Unshared;
      ghost var pool := db.teCond.pool;
      EvaluateCondNode(db, k);
      FlagsOnlyTrans(old(db.teCond.pool), pool, db.teCond.pool);
    }
    AllFollow(db.teCond.pool, db.condList, db.bools);
    FlagsMove(old(db.teCond.pool), db.teCond.pool);
  }

  ghost predicate SameLists(a: seq<CondNode>, b: seq<CondNode>) {
    && |a| == |b|
    && forall i :: 0 <= i < |a| ==> b[i] == a[i].(curState := b[i].curState)
  }

  /** Flags, recorded states and booleans all agree. */
  ghost predicate Synced(db: PolicyDb)
    reads db, db.te, db.teCond
  {
    db.Valid() && AllFlagged(db.teCond.pool, db.condList) && AllCurrent(db.condList, db.bools)
  }

  /** The boolean symbol table: names to positions. */
  type BoolTable = map<string, nat>

  method BoolUpdate(db: PolicyDb, table: BoolTable, name: string, value: int) returns (ok: bool)
    requires db.Valid() && forall n <- table :: table[n] < |db.bools|
    modifies db`bools
    ensures db.Valid()
    ensures ok <==> name in table && (value == 0 || value == 1)
    ensures db.bools == if ok then old(db.bools)[table[name] := value == 1] else old(db.bools)
  {
    if name !in table { return false; }
    if value != 0 && value != 1 { return false; }
    db.bools := db.bools[table[name] := value == 1];
    ok := true;
  }

  /**
     Setting one boolean re-establishes full agreement from flags that merely agree with the
     recorded states. That they do to begin with is a hypothesis: a loaded policy carries both
     as they were written.
   */
  method SepolBoolSet(db: PolicyDb, table: BoolTable, name: string, value: int) returns (ok: bool)
    requires db.Valid() && AllFlagged(db.teCond.pool, db.condList) && forall n <- table :: table[n] < |db.bools|
    modifies db`bools, db`condList, db.teCond`pool
    ensures db.Valid() && AllFlagged(db.teCond.pool, db.condList)
    ensures ok <==> name in table && (value == 0 || value == 1)
    ensures db.bools == if ok then old(db.bools)[table[name] := value == 1] else old(db.bools)
    ensures if ok then Synced(db) else db.condList == old(db.condList) && db.teCond.pool == old(db.teCond.pool)
    ensures SameLists(old(db.condList), db.condList)
    ensures ok ==> StatesRenewed(old(db.condList), db.condList, db.bools) && OnlyFlagsMove(old(db.teCond.pool), db.teCond.pool)
    ensures ok ==> forall k :: 0 <= k < |db.condList| ==> RulesFollow(db.teCond.pool, db.condList[k], db.bools)
  {
    ok := BoolUpdate(db, table, name, value);
    if !ok { return; }
    EvaluateConds(db);
  }

  /** Any run of boolean changes, failing ones included, keeps flags, states and booleans in step. */
  method SepolBoolSetRun(db: PolicyDb, table: BoolTable, commands: seq<(string, int)>)
    requires Synced(db) && forall n <- table :: table[n] < |db.bools|
    modifies db`bools, db`condList, db.teCond`pool
    ensures Synced(db) && |db.bools| == |old(db.bools)|
    ensures SameLists(old(db.condList), db.condList)
  {
    for i := 0 to |commands|
      invariant Synced(db) && |db.bools| == |old(db.bools)|
      invariant SameLists(old(db.condList), db.condList)
    {
      var _ := SepolBoolSet(db, table, commands[i].0, commands[i].1);
    }
  }
}
