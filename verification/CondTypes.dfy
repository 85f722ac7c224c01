/**
 Reading the conditional part of a kernel policy (src/conditional.c): every rule is checked
 against the rules read before it, so that a type decision never has two answers.
 */
module CondTypes {
  import opened Prelude
  import opened Avtab
  import opened AccessDecision
  import opened CondExpr
  import opened PolicyDb

  predicate ShareTypeKey(a: Key, b: Key) {
    Matches(a, b) && Has(a.specified, TYPE_RULES) && Has(b.specified, TYPE_RULES)
  }

  /** The two nodes are on opposite branches of one conditional. */
  ghost predicate Opposite(conds: seq<CondNode>, p: nat, q: nat) {
    exists i :: 0 <= i < |conds| && (
      || (p in conds[i].trueList && q in conds[i].falseList)
      || (q in conds[i].trueList && p in conds[i].falseList))
  }

  /** No type rule outside a conditional competes with one inside. */
  ghost predicate BaseApart(tePool: seq<Node>, teTable: seq<seq<nat>>, pool: seq<Node>) {
    forall p: nat, q: nat :: p < |pool| && Has(pool[p].key.specified, TYPE_RULES) ==> !Hit(tePool, teTable, pool[p].key, q)
  }

  /** Competing type rules are opposite branches of one conditional. */
  ghost predicate BranchesApart(pool: seq<Node>, htable: seq<seq<nat>>, conds: seq<CondNode>) {
    forall p: nat, q: nat ::
      (Linked(htable, p) && Linked(htable, q) && p != q && p < |pool| && q < |pool| && ShareTypeKey(pool[p].key, pool[q].key))
      ==> Opposite(conds, p, q)
  }

  ghost predicate ListsMatchTable(htable: seq<seq<nat>>, conds: seq<CondNode>) {
    && Unshared(conds)
    && forall p: nat :: Uses(conds, p) > 0 <==> Linked(htable, p)
  }

  /** What holds of a partly read policy, `conds` being the conditionals read so far. */
  ghost predicate ReadOk(db: PolicyDb, conds: seq<CondNode>)
    reads db.te, db.teCond
  {
    && db.te != db.teCond
    && db.te.Valid() && db.teCond.Valid()
    && BaseApart(db.te.pool, db.te.htable, db.teCond.pool)
    && BranchesApart(db.teCond.pool, db.teCond.htable, conds)
    && ListsMatchTable(db.teCond.htable, conds)
  }

  ghost predicate AtMostOneHit(pool: seq<Node>, htable: seq<seq<nat>>, key: Key, within: seq<nat>) {
    && (forall p: nat :: Hit(pool, htable, key, p) ==> p in within)
    && (forall p: nat, q: nat :: Hit(pool, htable, key, p) && Hit(pool, htable, key, q) ==> p == q)
  }

  /**
     A type rule is admitted when no rule outside a conditional and no conditional rule
     competes with it, save a single one on the opposite branch. An empty opposite branch
     admits none.
   */
  ghost predicate Admitted(db: PolicyDb, key: Key, other: seq<nat>)
    reads db.te, db.teCond
  {
    Has(key.specified, TYPE_RULES) ==>
      && (forall q: nat :: !Hit(db.te.pool, db.te.htable, key, q))
      && AtMostOneHit(db.teCond.pool, db.teCond.htable, key, other)
  }

  /** The searches on the conditional table, for a rule of the branch opposite to `other`. */
  method OppositeAllows(tab: Avtab, key: Key, other: seq<nat>) returns (ok: bool)
    requires tab.Valid()
    ensures ok <==> AtMostOneHit(tab.pool, tab.htable, key, other)
  {
    hide Matches;
    if other == [] {
      var hit := tab.Search(key);
      return hit.None?;
    }
    if |tab.htable| == 0 { return true; }
    var i, pos := tab.SearchNode(key);
    if pos == |tab.htable[i]| {
      forall q: nat ensures !Hit(tab.pool, tab.htable, key, q) { if Hit(tab.pool, tab.htable, key, q) { HitPlace(tab, key, q); } }
      return true;
    }
    var node := tab.htable[i][pos];
    assert Hit(tab.pool, tab.htable, key, node);
    var next := tab.SearchNodeNext(i, pos, key.specified);
    SameSearch(key, tab.pool[node].key);
    if next < |tab.htable[i]| {
      assert Hit(tab.pool, tab.htable, key, tab.htable[i][next]);
      assert ChainOk(tab.hash, |tab.htable|, tab.pool, i, tab.htable[i]);
      return false;
    }
    forall q: nat | Hit(tab.pool, tab.htable, key, q) ensures q == node { if Hit(tab.pool, tab.htable, key, q) { HitPlace(tab, key, q); } }
    var k := 0;
    while k < |other| && other[k] != node
      invariant k <= |other| && node !in other[..k]
    {
      k := k + 1;
    }
    ok := k < |other|;
  }

  /** Adds one rule to the list being read; a type rule must first be admitted. */
  method CondInsertf(db: PolicyDb, key: Key, datum: Datum, other: seq<nat>, list: seq<nat>) returns (ok: bool, list': seq<nat>)
    requires db.te != db.teCond && db.te.Valid() && db.teCond.Valid()
    modifies db.teCond
    ensures db.teCond.Valid()
    ensures ok <==> |old(db.teCond.htable)| > 0 && old(Admitted(db, key, other))
    ensures |db.teCond.htable| == |old(db.teCond.htable)|
    ensures !ok ==> list' == list && db.teCond.pool == old(db.teCond.pool) && db.teCond.htable == old(db.teCond.htable)
    ensures ok ==>
      && db.teCond.pool == old(db.teCond.pool) + [NewNode(key, datum)]
      && |db.teCond.htable| > 0
      && LinksOne(old(db.teCond.htable), db.teCond.htable, Slot(db.teCond.hash, |db.teCond.htable|, key), |old(db.teCond.pool)|)
      && list' == list + [|old(db.teCond.pool)|]
  {
    list' := list;
    if Has(key.specified, TYPE_RULES) {
      var base := db.te.Search(key);
      if base.Some? { return false, list; }
      var fine := OppositeAllows(db.teCond, key, other);
      if !fine { return false, list; }
    }
    var node := db.teCond.InsertNonunique(key, datum);
    if node.None? { return false, list; }
    ok, list' := true, list + [node.value];
  }

  lemma UsesAppend(conds: seq<CondNode>, cn: CondNode, branch: bool, list: seq<nat>, p: nat, q: nat)
    ensures Uses(conds + [WithList(cn, branch, list + [p])], q) == Uses(conds + [WithList(cn, branch, list)], q) + (if q == p then 1 else 0)
  {
    var a, b := WithList(cn, branch, list), WithList(cn, branch, list + [p]);
    assert (conds + [a])[..|conds|] == conds && (conds + [b])[..|conds|] == conds;
    assert Occurs(list + [p], q) == Occurs(list, q) + (if q == p then 1 else 0);
  }

  /** Appending a fresh node to a branch keeps lists and table in step. */
  lemma ListsStay(pool: seq<Node>, a: seq<seq<nat>>, b: seq<seq<nat>>, i: nat,
                  conds: seq<CondNode>, cn: CondNode, branch: bool, list: seq<nat>)
    requires LinksOne(a, b, i, |pool|) && !Linked(a, |pool|)
    requires ListsMatchTable(a, conds + [WithList(cn, branch, list)])
    ensures ListsMatchTable(b, conds + [WithList(cn, branch, list + [|pool|])])
  {
    LinksOneLinked(a, b, i, |pool|);
    var was, now := conds + [WithList(cn, branch, list)], conds + [WithList(cn, branch, list + [|pool|])];
    forall q: nat ensures Uses(now, q) == Uses(was, q) + (if q == |pool| then 1 else 0) {
      UsesAppend(conds, cn, branch, list, |pool|, q);
    }
    hide Uses, Linked;
  }

  /** Longer lists keep opposite nodes opposite. */
  lemma OppositeStays(conds: seq<CondNode>, cn: CondNode, branch: bool, list: seq<nat>, x: nat, p: nat, q: nat)
    requires Opposite(conds + [WithList(cn, branch, list)], p, q)
    ensures Opposite(conds + [WithList(cn, branch, list + [x])], p, q)
  {
    var was, now := conds + [WithList(cn, branch, list)], conds + [WithList(cn, branch, list + [x])];
    var i :| 0 <= i < |was| && (
      || (p in was[i].trueList && q in was[i].falseList)
      || (q in was[i].trueList && p in was[i].falseList));
    assert i < |conds| ==> now[i] == was[i];
    assert (p in now[i].trueList && q in now[i].falseList) || (q in now[i].trueList && p in now[i].falseList);
  }

  lemma ShareSymmetric(a: Key, b: Key)
    requires ShareTypeKey(a, b)
    ensures ShareTypeKey(b, a)
  {
    OverlapsSymmetric(a.specified, b.specified);
  }

  /** The branch the new node competes with is the one opposite to it. */
  lemma ApartStays(pool: seq<Node>, a: seq<seq<nat>>, b: seq<seq<nat>>, i: nat, node: Node,
                   conds: seq<CondNode>, cn: CondNode, branch: bool, list: seq<nat>, other: seq<nat>)
    requires LinksOne(a, b, i, |pool|)
    requires other == if branch then [] else cn.trueList
    requires Has(node.key.specified, TYPE_RULES) ==> AtMostOneHit(pool, a, node.key, other)
    requires BranchesApart(pool, a, conds + [WithList(cn, branch, list)])
    ensures BranchesApart(pool + [node], b, conds + [WithList(cn, branch, list + [|pool|])])
  {
    LinksOneLinked(a, b, i, |pool|);
    var now, pool' := conds + [WithList(cn, branch, list + [|pool|])], pool + [node];
    hide Linked, LinksOne, Matches;
    forall p: nat, q: nat | Linked(b, p) && Linked(b, q) && p != q && p < |pool'| && q < |pool'| &&
      ShareTypeKey(pool'[p].key, pool'[q].key)
      ensures Opposite(now, p, q)
    {
      if p < |pool| && q < |pool| {
        OppositeStays(conds, cn, branch, list, |pool|, p, q);
      } else {
        var x := if p < |pool| then p else q;
        if q == |pool| { ShareSymmetric(pool'[p].key, pool'[q].key); }
        assert Hit(pool, a, node.key, x);
        assert now[|conds|] == WithList(cn, branch, list + [|pool|]);
        assert x in now[|conds|].trueList && |pool| in now[|conds|].falseList;
      }
    }
  }

  datatype Item = Item(key: Key, datum: Datum)

  lemma BaseStays(db: PolicyDb, key: Key, datum: Datum, other: seq<nat>)
    requires BaseApart(db.te.pool, db.te.htable, db.teCond.pool) && Admitted(db, key, other)
    ensures BaseApart(db.te.pool, db.te.htable, db.teCond.pool + [NewNode(key, datum)])
    ensures Has(key.specified, TYPE_RULES) ==> AtMostOneHit(db.teCond.pool, db.teCond.htable, key, other)
  {
    hide Hit;
  }

  /** One admitted rule keeps everything read so far in order. */
  method CondReadItem(db: PolicyDb, item: Item, other: seq<nat>, list: seq<nat>,
                      ghost conds: seq<CondNode>, ghost cn: CondNode, ghost branch: bool)
    returns (ok: bool, list': seq<nat>)
    requires ReadOk(db, conds + [WithList(cn, branch, list)])
    requires other == if branch then [] else cn.trueList
    modifies db.teCond
    ensures ok ==> ReadOk(db, conds + [WithList(cn, branch, list')])
    ensures ok ==> list' == list + [|old(db.teCond.pool)|]
    ensures db.teCond.pool == if ok then old(db.teCond.pool) + [NewNode(item.key, item.datum)] else old(db.teCond.pool)
    ensures ok <==> |old(db.teCond.htable)| > 0 && old(Admitted(db, item.key, other))
    ensures |db.teCond.htable| == |old(db.teCond.htable)|
  {
    ghost var pool, table := db.teCond.pool, db.teCond.htable;
    UnlinkedBeyondPool(db.teCond);
    hide *;
    ReadParts(db, conds + [WithList(cn, branch, list)]);
    if Admitted(db, item.key, other) { BaseStays(db, item.key, item.datum, other); }
    ok, list' := CondInsertf(db, item.key, item.datum, other, list);
    if !ok { return; }
    ghost var i := Slot(db.teCond.hash, |db.teCond.htable|, item.key);
    ListsStay(pool, table, db.teCond.htable, i, conds, cn, branch, list);
    ApartStays(pool, table, db.teCond.htable, i, NewNode(item.key, item.datum), conds, cn, branch, list, other);
    ReadStays(db, conds + [WithList(cn, branch, list')]);
  }

  lemma ReadParts(db: PolicyDb, conds: seq<CondNode>)
    requires ReadOk(db, conds)
    ensures db.te != db.teCond && db.te.Valid() && db.teCond.Valid()
    ensures BaseApart(db.te.pool, db.te.htable, db.teCond.pool)
    ensures BranchesApart(db.teCond.pool, db.teCond.htable, conds) && ListsMatchTable(db.teCond.htable, conds)
  {
  }

  lemma ReadStays(db: PolicyDb, conds: seq<CondNode>)
    requires db.te != db.teCond && db.te.Valid() && db.teCond.Valid()
    requires BaseApart(db.te.pool, db.te.htable, db.teCond.pool)
    requires BranchesApart(db.teCond.pool, db.teCond.htable, conds) && ListsMatchTable(db.teCond.htable, conds)
    ensures ReadOk(db, conds)
  {
  }

  /** The branch holds the items read, in order. */
  ghost predicate Holds(pool: seq<Node>, list: seq<nat>, items: seq<Item>) {
    |list| == |items| && forall j :: 0 <= j < |items| ==>
      list[j] < |pool| && pool[list[j]] == NewNode(items[j].key, items[j].datum)
  }

  lemma HoldsStep(pool: seq<Node>, list: seq<nat>, items: seq<Item>, item: Item)
    requires Holds(pool, list, items)
    ensures Holds(pool + [NewNode(item.key, item.datum)], list + [|pool|], items + [item])
  {
  }

  lemma HoldsLater(pool: seq<Node>, later: seq<Node>, list: seq<nat>, items: seq<Item>)
    requires Holds(pool, list, items) && pool <= later
    ensures Holds(later, list, items)
  {
  }

  const COND_LAST: nat := 7

  /** An expression symbol as stored: operators carry a boolean number too, which is not used. */
  datatype RawSym = RawSym(kind: nat, boolean: nat)

  function Decode(sym: RawSym): Op {
    match sym.kind
    case 1 => Push(sym.boolean)
    case 2 => Negate
    case 3 => Combine(Or)
    case 4 => Combine(And)
    case 5 => Combine(Xor)
    case 6 => Combine(Eq)
    case 7 => Combine(Neq)
    case _ => Bad
  }

  function DecodeAll(expr: seq<RawSym>): (ops: seq<Op>)
    ensures |ops| == |expr| && forall i :: 0 <= i < |expr| ==> ops[i] == Decode(expr[i])
  {
    seq(|expr|, i requires 0 <= i < |expr| => Decode(expr[i]))
  }

  datatype RawCond = RawCond(state: Outcome, expr: seq<RawSym>, trueItems: seq<Item>, falseItems: seq<Item>)

  function ItemsOf(raw: RawCond, branch: bool): seq<Item> {
    if branch then raw.trueItems else raw.falseItems
  }

  // ---------------------------------------------------------------- what a successful reading takes

  /** The conditional as far as item `j` of a branch; true lists come first. */
  function RawUpTo(raw: RawCond, branch: bool, j: nat): RawCond
    requires j <= |ItemsOf(raw, branch)|
  {
    if branch then raw.(trueItems := raw.trueItems[..j], falseItems := []) else raw.(falseItems := raw.falseItems[..j])
  }

  /** Everything before item `j` of a branch of conditional `i`. */
  function ReadSoFar(raws: seq<RawCond>, i: nat, branch: bool, j: nat): seq<RawCond>
    requires i < |raws| && j <= |ItemsOf(raws[i], branch)|
  {
    raws[..i] + [RawUpTo(raws[i], branch, j)]
  }

  /** Item `j` of a branch answers a search for `key`. */
  predicate Competes(raws: seq<RawCond>, key: Key, i: nat, branch: bool, j: nat) {
    i < |raws| && j < |ItemsOf(raws[i], branch)| && Matches(key, ItemsOf(raws[i], branch)[j].key)
  }

  /**
     A type rule competes with no unconditional rule and with no item before it, save one on
     the true branch when it is on the false branch of the same conditional.
   */
  ghost predicate Accepts(tePool: seq<Node>, teTable: seq<seq<nat>>, before: seq<RawCond>, key: Key, branch: bool) {
    Has(key.specified, TYPE_RULES) ==>
      && (forall q: nat :: !Hit(tePool, teTable, key, q))
      && (forall i: nat, b, j: nat :: Competes(before, key, i, b, j) ==> i == |before| - 1 && b && !branch)
      && (|before| > 0 ==> OneCompetes(before, key, |before| - 1))
  }

  ghost predicate OneCompetes(raws: seq<RawCond>, key: Key, i: nat) {
    forall j: nat, k: nat :: Competes(raws, key, i, true, j) && Competes(raws, key, i, true, k) ==> j == k
  }

  ghost predicate ItemFits(tePool: seq<Node>, teTable: seq<seq<nat>>, raws: seq<RawCond>, i: nat, branch: bool, j: nat)
    requires i < |raws| && j < |ItemsOf(raws[i], branch)|
  {
    Accepts(tePool, teTable, ReadSoFar(raws, i, branch, j), ItemsOf(raws[i], branch)[j].key, branch)
  }

  /** The items of one branch of one conditional fit, as far as item `n`. */
  ghost predicate BranchFits(tePool: seq<Node>, teTable: seq<seq<nat>>, raws: seq<RawCond>, i: nat, branch: bool, n: nat)
    requires i < |raws|
  {
    forall j :: 0 <= j < n && j < |ItemsOf(raws[i], branch)| ==> ItemFits(tePool, teTable, raws, i, branch, j)
  }

  /** A conditional is readable: expression valid, room in the table, every item fits. */
  ghost predicate CondFits(tePool: seq<Node>, teTable: seq<seq<nat>>, nbools: nat, room: bool, raws: seq<RawCond>, i: nat)
    requires i < |raws|
  {
    && ExprIsValid(raws[i].expr, nbools)
    && (room || (raws[i].trueItems == [] && raws[i].falseItems == []))
    && BranchFits(tePool, teTable, raws, i, true, |raws[i].trueItems|)
    && BranchFits(tePool, teTable, raws, i, false, |raws[i].falseItems|)
  }

  /** So are the first `k` conditionals. */
  ghost predicate AllFit(tePool: seq<Node>, teTable: seq<seq<nat>>, nbools: nat, room: bool, raws: seq<RawCond>, k: nat) {
    forall i :: 0 <= i < k && i < |raws| ==> CondFits(tePool, teTable, nbools, room, raws, i)
  }

  /** The lists read so far hold the items read so far. */
  ghost predicate Mirrors(pool: seq<Node>, conds: seq<CondNode>, raws: seq<RawCond>) {
    |conds| == |raws| && forall i, b :: 0 <= i < |raws| ==> Holds(pool, ListOf(conds[i], b), ItemsOf(raws[i], b))
  }

  lemma ListPlace(pool: seq<Node>, conds: seq<CondNode>, raws: seq<RawCond>, i: nat, b: bool, q: nat) returns (j: nat)
    requires Mirrors(pool, conds, raws) && i < |raws| && q in ListOf(conds[i], b)
    ensures j < |ListOf(conds[i], b)| && ListOf(conds[i], b)[j] == q
    ensures q < |pool| && j < |ItemsOf(raws[i], b)| && pool[q].key == ItemsOf(raws[i], b)[j].key
  {
    assert Holds(pool, ListOf(conds[i], b), ItemsOf(raws[i], b));
    j :| 0 <= j < |ListOf(conds[i], b)| && ListOf(conds[i], b)[j] == q;
  }

  /** A search on the conditional table finds the items that compete. */
  lemma HitCompetes(pool: seq<Node>, htable: seq<seq<nat>>, conds: seq<CondNode>, raws: seq<RawCond>, key: Key, q: nat)
    returns (i: nat, b: bool, j: nat)
    requires ListsMatchTable(htable, conds) && Mirrors(pool, conds, raws) && Hit(pool, htable, key, q)
    ensures Competes(raws, key, i, b, j) && j < |ListOf(conds[i], b)| && ListOf(conds[i], b)[j] == q
  {
    hide Matches, Linked, Uses;
    assert Uses(conds, q) > 0;
    i := UsesOwner(conds, q);
    b := q in conds[i].trueList;
    j := ListPlace(pool, conds, raws, i, b, q);
  }

  lemma CompetesHit(pool: seq<Node>, htable: seq<seq<nat>>, conds: seq<CondNode>, raws: seq<RawCond>, key: Key, i: nat, b: bool, j: nat)
    requires ListsMatchTable(htable, conds) && Mirrors(pool, conds, raws) && Competes(raws, key, i, b, j)
    ensures j < |ListOf(conds[i], b)| && Hit(pool, htable, key, ListOf(conds[i], b)[j])
  {
    hide Matches, Linked, Uses;
    assert Holds(pool, ListOf(conds[i], b), ItemsOf(raws[i], b));
    assert ListOf(conds[i], b)[j] in ListOf(conds[i], b);
    UsesOf(conds, i, ListOf(conds[i], b)[j]);
  }

  /** Two places of the lists hold different nodes. */
  lemma PlacesDiffer(conds: seq<CondNode>, i: nat, b: bool, j: nat, k: nat, c: bool, l: nat)
    requires Unshared(conds) && i < |conds| && j < |ListOf(conds[i], b)| && k < |conds| && l < |ListOf(conds[k], c)|
    requires ListOf(conds[i], b)[j] == ListOf(conds[k], c)[l]
    ensures i == k && b == c && j == l
  {
    var p := ListOf(conds[i], b)[j];
    assert p in ListOf(conds[i], b) && p in ListOf(conds[k], c);
    hide Unshared;
    ListsDisjoint(conds, i, k, p);
    ListReady(conds, i, b, p);
  }

  lemma AdmittedAccepts(pool: seq<Node>, htable: seq<seq<nat>>, conds: seq<CondNode>, raws: seq<RawCond>, key: Key,
                        branch: bool, other: seq<nat>)
    requires ListsMatchTable(htable, conds) && Unshared(conds) && Mirrors(pool, conds, raws) && |conds| > 0
    requires other == if branch then [] else conds[|conds| - 1].trueList
    requires AtMostOneHit(pool, htable, key, other)
    ensures forall i: nat, b, j: nat :: Competes(raws, key, i, b, j) ==> i == |raws| - 1 && b && !branch
    ensures OneCompetes(raws, key, |raws| - 1)
  {
    hide *;
    MirrorsLength(pool, conds, raws);
    var last := |conds| - 1;
    forall i: nat, b, j: nat | Competes(raws, key, i, b, j) ensures i == last && b && !branch {
      OnlyOpposite(pool, htable, conds, raws, key, branch, other, i, b, j);
    }
    forall j: nat, k: nat | Competes(raws, key, last, true, j) && Competes(raws, key, last, true, k) ensures j == k {
      SameCompetitor(pool, htable, conds, raws, key, other, last, j, k);
    }
    OneCompetesDef(raws, key, last);
  }

  lemma MirrorsLength(pool: seq<Node>, conds: seq<CondNode>, raws: seq<RawCond>)
    requires Mirrors(pool, conds, raws)
    ensures |conds| == |raws|
  {
  }

  lemma OneCompetesDef(raws: seq<RawCond>, key: Key, i: nat)
    ensures OneCompetes(raws, key, i) <==>
      forall j: nat, k: nat :: Competes(raws, key, i, true, j) && Competes(raws, key, i, true, k) ==> j == k
  {
    hide Competes;
  }

  lemma SameCompetitor(pool: seq<Node>, htable: seq<seq<nat>>, conds: seq<CondNode>, raws: seq<RawCond>, key: Key,
                       other: seq<nat>, i: nat, j: nat, k: nat)
    requires ListsMatchTable(htable, conds) && Unshared(conds) && Mirrors(pool, conds, raws)
    requires AtMostOneHit(pool, htable, key, other)
    requires Competes(raws, key, i, true, j) && Competes(raws, key, i, true, k)
    ensures j == k
  {
    hide Hit, Competes, Uses, Linked, Unshared, Holds;
    CompetesHit(pool, htable, conds, raws, key, i, true, j);
    CompetesHit(pool, htable, conds, raws, key, i, true, k);
    PlaceInTable(conds, raws, key, i, true, j);
    PlacesDiffer(conds, i, true, j, i, true, k);
  }

  lemma AcceptsAdmitted(pool: seq<Node>, htable: seq<seq<nat>>, conds: seq<CondNode>, raws: seq<RawCond>, key: Key,
                        branch: bool, other: seq<nat>)
    requires ListsMatchTable(htable, conds) && Mirrors(pool, conds, raws) && |conds| > 0
    requires other == if branch then [] else conds[|conds| - 1].trueList
    requires forall i: nat, b, j: nat :: Competes(raws, key, i, b, j) ==> i == |raws| - 1 && b && !branch
    requires OneCompetes(raws, key, |raws| - 1)
    ensures AtMostOneHit(pool, htable, key, other)
  {
    hide Hit, Competes, Uses, Linked, Holds, ListsMatchTable;
    forall p: nat, q: nat | Hit(pool, htable, key, p) && Hit(pool, htable, key, q) ensures p == q && p in other {
      var i, b, j := HitCompetes(pool, htable, conds, raws, key, p);
      var k, c, l := HitCompetes(pool, htable, conds, raws, key, q);
    }
  }

  /** What the searches on the tables decide is what the items before this one say. */
  lemma AdmittedExactly(db: PolicyDb, conds: seq<CondNode>, raws: seq<RawCond>, key: Key, branch: bool, other: seq<nat>)
    requires ReadOk(db, conds) && Mirrors(db.teCond.pool, conds, raws) && |conds| > 0
    requires other == if branch then [] else conds[|conds| - 1].trueList
    ensures Admitted(db, key, other) <==> Accepts(db.te.pool, db.te.htable, raws, key, branch)
  {
    ListsMatchUnshared(db.teCond.htable, conds);
    hide BaseApart, BranchesApart, Has, Hit, Competes, AtMostOneHit, OneCompetes, ListsMatchTable, Unshared, Holds;
    if AtMostOneHit(db.teCond.pool, db.teCond.htable, key, other) {
      AdmittedAccepts(db.teCond.pool, db.teCond.htable, conds, raws, key, branch, other);
    } else if OneCompetes(raws, key, |raws| - 1) &&
      (forall i: nat, b, j: nat :: Competes(raws, key, i, b, j) ==> i == |raws| - 1 && b && !branch) {
      AcceptsAdmitted(db.teCond.pool, db.teCond.htable, conds, raws, key, branch, other);
    }
  }

  lemma PlaceInTable(conds: seq<CondNode>, raws: seq<RawCond>, key: Key, i: nat, b: bool, j: nat)
    requires Competes(raws, key, i, b, j)
    ensures i < |raws|
  {
  }

  lemma OnlyOpposite(pool: seq<Node>, htable: seq<seq<nat>>, conds: seq<CondNode>, raws: seq<RawCond>, key: Key,
                     branch: bool, other: seq<nat>, i: nat, b: bool, j: nat)
    requires ListsMatchTable(htable, conds) && Unshared(conds) && Mirrors(pool, conds, raws) && |conds| > 0
    requires other == if branch then [] else conds[|conds| - 1].trueList
    requires AtMostOneHit(pool, htable, key, other) && Competes(raws, key, i, b, j)
    ensures i == |conds| - 1 && b && !branch
  {
    hide Hit, Uses, Linked, Unshared, ListsMatchTable;
    CompetesHit(pool, htable, conds, raws, key, i, b, j);
    PlaceInTable(conds, raws, key, i, b, j);
    var p := ListOf(conds[i], b)[j];
    assert p in other;
    var l :| 0 <= l < |other| && other[l] == p;
    PlacesDiffer(conds, i, b, j, |conds| - 1, true, l);
  }

  /** What holds halfway through a branch. */
  ghost predicate BranchRead(db: PolicyDb, raws: seq<RawCond>, k: nat, branch: bool, j: nat,
                             conds: seq<CondNode>, cn: CondNode, list: seq<nat>)
    requires k < |raws| && j <= |ItemsOf(raws[k], branch)|
    reads db.te, db.teCond
  {
    && ReadOk(db, conds + [WithList(cn, branch, list)])
    && Mirrors(db.teCond.pool, conds + [WithList(cn, branch, list)], ReadSoFar(raws, k, branch, j))
  }

  lemma BranchAccepts(db: PolicyDb, raws: seq<RawCond>, k: nat, branch: bool, j: nat,
                      conds: seq<CondNode>, cn: CondNode, list: seq<nat>, other: seq<nat>)
    requires k < |raws| && j < |ItemsOf(raws[k], branch)| && BranchRead(db, raws, k, branch, j, conds, cn, list)
    requires other == if branch then [] else cn.trueList
    ensures ReadOk(db, conds + [WithList(cn, branch, list)]) && db.te != db.teCond
    ensures Admitted(db, ItemsOf(raws[k], branch)[j].key, other) <==> ItemFits(db.te.pool, db.te.htable, raws, k, branch, j)
  {
    ReadParts(db, conds + [WithList(cn, branch, list)]);
    hide ReadOk, Mirrors, Admitted, Accepts;
    AdmittedExactly(db, conds + [WithList(cn, branch, list)], ReadSoFar(raws, k, branch, j), ItemsOf(raws[k], branch)[j].key, branch, other);
  }

  lemma MirrorsStep(pool: seq<Node>, raws: seq<RawCond>, k: nat, branch: bool, j: nat, conds: seq<CondNode>, cn: CondNode, list: seq<nat>)
    requires k < |raws| && j < |ItemsOf(raws[k], branch)|
    requires Mirrors(pool, conds + [WithList(cn, branch, list)], ReadSoFar(raws, k, branch, j))
    ensures
      var item := ItemsOf(raws[k], branch)[j];
      Mirrors(pool + [NewNode(item.key, item.datum)], conds + [WithList(cn, branch, list + [|pool|])], ReadSoFar(raws, k, branch, j + 1))
  {
    var item := ItemsOf(raws[k], branch)[j];
    var now := pool + [NewNode(item.key, item.datum)];
    var a, b := conds + [WithList(cn, branch, list)], conds + [WithList(cn, branch, list + [|pool|])];
    var x, y := ReadSoFar(raws, k, branch, j), ReadSoFar(raws, k, branch, j + 1);
    hide Holds;
    forall i, side | 0 <= i < |y| ensures Holds(now, ListOf(b[i], side), ItemsOf(y[i], side)) {
      assert Holds(pool, ListOf(a[i], side), ItemsOf(x[i], side));
      if i == k && side == branch {
        HoldsStep(pool, list, ItemsOf(raws[k], branch)[..j], item);
        assert ItemsOf(raws[k], branch)[..j] + [item] == ItemsOf(raws[k], branch)[..j + 1];
      } else {
        HoldsLater(pool, now, ListOf(a[i], side), ItemsOf(x[i], side));
      }
    }
  }

  /**
     Reads one branch; `other` is the true list when the false list is read. It succeeds
     exactly when there is room for rules and each item fits what was read before it.
   */
  method CondReadAvList(db: PolicyDb, items: seq<Item>, other: seq<nat>, ghost raws: seq<RawCond>, ghost k: nat,
                        ghost conds: seq<CondNode>, ghost cn: CondNode, ghost branch: bool)
    returns (ok: bool, list: seq<nat>)
    requires k < |raws| && items == ItemsOf(raws[k], branch)
    requires BranchRead(db, raws, k, branch, 0, conds, cn, [])
    requires other == if branch then [] else cn.trueList
    modifies db.teCond
    ensures |db.teCond.htable| == |old(db.teCond.htable)|
    ensures ok ==> BranchRead(db, raws, k, branch, |items|, conds, cn, list)
    ensures ok <==> (|db.teCond.htable| > 0 || items == []) && BranchFits(db.te.pool, db.te.htable, raws, k, branch, |items|)
  {
    hide *;
    list := [];
    NothingFits(db, raws, k, branch);
    for j := 0 to |items|
      invariant |db.teCond.htable| == |old(db.teCond.htable)|
      invariant BranchRead(db, raws, k, branch, j, conds, cn, list)
      invariant |db.teCond.htable| > 0 || j == 0
      invariant BranchFits(db.te.pool, db.te.htable, raws, k, branch, j)
    {
      ghost var was, pool := list, db.teCond.pool;
      BranchAccepts(db, raws, k, branch, j, conds, cn, list, other);
      BranchMirrors(db, raws, k, branch, j, conds, cn, list);
      FitsStep(db.te.pool, db.te.htable, raws, k, branch, j);
      ok, list := CondReadItem(db, items[j], other, list, conds, cn, branch);
      if !ok { return; }
      MirrorsStep(pool, raws, k, branch, j, conds, cn, was);
      BranchGoesOn(db, raws, k, branch, j + 1, conds, cn, list);
    }
    ok := true;
  }

  lemma NothingFits(db: PolicyDb, raws: seq<RawCond>, k: nat, branch: bool)
    requires k < |raws|
    ensures BranchFits(db.te.pool, db.te.htable, raws, k, branch, 0)
  {
  }

  lemma FitsStep(tePool: seq<Node>, teTable: seq<seq<nat>>, raws: seq<RawCond>, k: nat, branch: bool, j: nat)
    requires k < |raws| && j < |ItemsOf(raws[k], branch)| && BranchFits(tePool, teTable, raws, k, branch, j)
    ensures BranchFits(tePool, teTable, raws, k, branch, j + 1) <==> ItemFits(tePool, teTable, raws, k, branch, j)
    ensures BranchFits(tePool, teTable, raws, k, branch, |ItemsOf(raws[k], branch)|) ==> ItemFits(tePool, teTable, raws, k, branch, j)
  {
    hide ItemFits;
  }

  lemma BranchMirrors(db: PolicyDb, raws: seq<RawCond>, k: nat, branch: bool, j: nat, conds: seq<CondNode>, cn: CondNode, list: seq<nat>)
    requires k < |raws| && j <= |ItemsOf(raws[k], branch)| && BranchRead(db, raws, k, branch, j, conds, cn, list)
    ensures Mirrors(db.teCond.pool, conds + [WithList(cn, branch, list)], ReadSoFar(raws, k, branch, j))
  {
  }

  lemma BranchGoesOn(db: PolicyDb, raws: seq<RawCond>, k: nat, branch: bool, j: nat, conds: seq<CondNode>, cn: CondNode, list: seq<nat>)
    requires k < |raws| && j <= |ItemsOf(raws[k], branch)| && ReadOk(db, conds + [WithList(cn, branch, list)])
    requires Mirrors(db.teCond.pool, conds + [WithList(cn, branch, list)], ReadSoFar(raws, k, branch, j))
    ensures BranchRead(db, raws, k, branch, j, conds, cn, list)
  {
  }

  function Blank(raw: RawCond): CondNode {
    CondNode(raw.state, DecodeAll(raw.expr), [], [], [], [], 0, [], 0)
  }

  lemma UsesBlank(conds: seq<CondNode>, raw: RawCond, q: nat)
    ensures Uses(conds + [Blank(raw)], q) == Uses(conds, q)
  {
    assert (conds + [Blank(raw)])[..|conds|] == conds;
  }

  /** A conditional with empty branches changes nothing. */
  lemma ReadBlank(db: PolicyDb, conds: seq<CondNode>, raw: RawCond)
    requires ReadOk(db, conds)
    ensures ReadOk(db, conds + [Blank(raw)])
  {
    var now := conds + [Blank(raw)];
    forall q: nat ensures Uses(now, q) == Uses(conds, q) { UsesBlank(conds, raw, q); }
    hide Uses, Hit, Linked, ShareTypeKey, BaseApart;
    forall p: nat, q: nat | Opposite(conds, p, q) ensures Opposite(now, p, q) {
      var i :| 0 <= i < |conds| && (
        || (p in conds[i].trueList && q in conds[i].falseList)
        || (q in conds[i].trueList && p in conds[i].falseList));
      assert now[i] == conds[i];
    }
  }

  /** Known operators, and boolean numbers in range on every symbol; number 0 passes here. */
  predicate ExprIsValid(expr: seq<RawSym>, nbools: nat) {
    forall i :: 0 <= i < |expr| ==> 0 < expr[i].kind <= COND_LAST && expr[i].boolean <= nbools
  }

  lemma ValidCodes(expr: seq<RawSym>, nbools: nat)
    ensures ExprIsValid(expr, nbools) <==> forall i :: 0 <= i < |expr| ==> 1 <= expr[i].kind <= 7 && expr[i].boolean <= nbools
  {
  }

  /** A valid expression decodes to known operators over booleans in range. */
  lemma ValidDecodes(expr: seq<RawSym>, nbools: nat)
    requires ExprIsValid(expr, nbools)
    ensures forall i :: 0 <= i < |expr| ==> !DecodeAll(expr)[i].Bad? && (DecodeAll(expr)[i].Push? ==> DecodeAll(expr)[i].b <= nbools)
  {
    forall i | 0 <= i < |expr| ensures !DecodeAll(expr)[i].Bad? && (DecodeAll(expr)[i].Push? ==> DecodeAll(expr)[i].b <= nbools) {
      assert expr[i].kind <= COND_LAST;
    }
  }

  /** The stored codes: 1 a boolean, 2 NOT, 3 OR, 4 AND, 5 XOR, 6 EQ, 7 NEQ. */
  ghost predicate SymbolsAsStored(ops: seq<Op>, expr: seq<RawSym>) {
    |ops| == |expr| && forall i :: 0 <= i < |expr| ==>
      && (expr[i].kind == 1 ==> ops[i] == Push(expr[i].boolean))
      && (expr[i].kind == 2 ==> ops[i] == Negate)
      && (expr[i].kind == 3 ==> ops[i] == Combine(Or))
      && (expr[i].kind == 4 ==> ops[i] == Combine(And))
      && (expr[i].kind == 5 ==> ops[i] == Combine(Xor))
      && (expr[i].kind == 6 ==> ops[i] == Combine(Eq))
      && (expr[i].kind == 7 ==> ops[i] == Combine(Neq))
  }

  /** A stored operator on one or two booleans. */
  predicate StoredOnBooleans(expr: seq<RawSym>, nbools: nat) {
    && 2 <= |expr| <= 3 && expr[0].kind == 1 && 0 < expr[0].boolean <= nbools
    && (|expr| == 3 ==> expr[1].kind == 1 && 0 < expr[1].boolean <= nbools)
    && 1 < expr[|expr| - 1].kind <= 7 && (expr[|expr| - 1].kind == 2 <==> |expr| == 2)
  }

  /** Under the states `bools` the program has the value the operator code asks for. */
  ghost predicate ValuesAsStored(ops: seq<Op>, expr: seq<RawSym>, bools: seq<bool>)
    requires StoredOnBooleans(expr, |bools|)
  {
    var x, y, code := bools[expr[0].boolean - 1], bools[expr[|expr| - 2].boolean - 1], expr[|expr| - 1].kind;
    && InScope(ops, |bools|)
    && (code == 2 ==> Evaluate(ops, bools) == Defined(!x))
    && (code == 3 ==> Evaluate(ops, bools) == Defined(x || y))
    && (code == 4 ==> Evaluate(ops, bools) == Defined(x && y))
    && (code == 5 ==> Evaluate(ops, bools) == Defined(x != y))
    && (code == 6 ==> Evaluate(ops, bools) == Defined(x == y))
    && (code == 7 ==> Evaluate(ops, bools) == Defined(x != y))
  }

  /** What is read has the stored meaning: symbol by symbol, and on booleans under every assignment. */
  ghost predicate MeansWhatIsStored(ops: seq<Op>, expr: seq<RawSym>) {
    && SymbolsAsStored(ops, expr)
    && forall bools: seq<bool> :: StoredOnBooleans(expr, |bools|) ==> ValuesAsStored(ops, expr, bools)
  }

  lemma DecodesAsStored(expr: seq<RawSym>)
    ensures SymbolsAsStored(DecodeAll(expr), expr)
  {
  }

  lemma {:induction false} StoredValues(ops: seq<Op>, expr: seq<RawSym>, bools: seq<bool>)
    requires SymbolsAsStored(ops, expr) && StoredOnBooleans(expr, |bools|)
    ensures ValuesAsStored(ops, expr, bools)
  {
    hide Evaluate, TreeInScope;
    var l := Leaf(expr[0].boolean);
    BooleanEvaluates(l.b, bools);
    BooleanLeaf(l.b, |bools|);
    if |expr| == 2 {
      assert ops == Postfix(l) + [Negate];
      NotEvaluates(l, bools);
    } else {
      var r := Leaf(expr[1].boolean);
      BooleanEvaluates(r.b, bools);
      BooleanLeaf(r.b, |bools|);
      assert ops == Postfix(l) + Postfix(r) + [ops[2]];
      OperatorsEvaluate(ops[2].op, l, r, bools);
    }
  }

  lemma BooleanLeaf(b: nat, n: nat)
    requires 0 < b <= n
    ensures TreeInScope(Leaf(b), n) && Need(Leaf(b)) == 1 && Postfix(Leaf(b)) == [Push(b)]
  {
  }

  /** The expression of a conditional just read means what is stored. */
  lemma {:induction false} StoredMeaning(expr: seq<RawSym>)
    ensures MeansWhatIsStored(DecodeAll(expr), expr)
  {
    hide *;
    DecodesAsStored(expr);
    forall bools: seq<bool> | StoredOnBooleans(expr, |bools|) ensures ValuesAsStored(DecodeAll(expr), expr, bools) {
      StoredValues(DecodeAll(expr), expr, bools);
    }
    StoredMeaningHolds(DecodeAll(expr), expr);
  }

  lemma StoredMeaningHolds(ops: seq<Op>, expr: seq<RawSym>)
    requires SymbolsAsStored(ops, expr)
    requires forall bools: seq<bool> :: StoredOnBooleans(expr, |bools|) ==> ValuesAsStored(ops, expr, bools)
    ensures MeansWhatIsStored(ops, expr)
  {
    hide StoredOnBooleans, ValuesAsStored, SymbolsAsStored;
  }

  lemma AllStoredMeanings(conds: seq<CondNode>, raws: seq<RawCond>)
    requires AsRead(conds, raws)
    ensures |conds| == |raws| && forall i :: 0 <= i < |raws| ==> MeansWhatIsStored(conds[i].expr, raws[i].expr)
  {
    hide MeansWhatIsStored;
    forall i | 0 <= i < |raws| ensures MeansWhatIsStored(conds[i].expr, raws[i].expr) { StoredMeaning(raws[i].expr); }
  }

  lemma TrueListStart(db: PolicyDb, raws: seq<RawCond>, k: nat, conds: seq<CondNode>, cn: CondNode)
    requires k < |raws| && ReadOk(db, conds) && Mirrors(db.teCond.pool, conds, raws[..k]) && cn == Blank(raws[k])
    ensures BranchRead(db, raws, k, true, 0, conds, cn, [])
  {
    assert WithList(cn, true, []) == cn;
    ReadBlank(db, conds, raws[k]);
    hide ReadOk;
    var now, soFar := conds + [cn], ReadSoFar(raws, k, true, 0);
    forall i, b | 0 <= i < |soFar| ensures Holds(db.teCond.pool, ListOf(now[i], b), ItemsOf(soFar[i], b)) {
      if i < k { assert Holds(db.teCond.pool, ListOf(conds[i], b), ItemsOf(raws[..k][i], b)); }
    }
  }

  lemma FalseListStart(db: PolicyDb, raws: seq<RawCond>, k: nat, conds: seq<CondNode>, cn: CondNode, trueList: seq<nat>)
    requires k < |raws| && BranchRead(db, raws, k, true, |raws[k].trueItems|, conds, cn, trueList) && cn.falseList == []
    ensures BranchRead(db, raws, k, false, 0, conds, cn.(trueList := trueList), [])
  {
    hide ReadOk;
    var next := cn.(trueList := trueList);
    assert WithList(next, false, []) == next == WithList(cn, true, trueList);
    var now, a, b := conds + [next], ReadSoFar(raws, k, true, |raws[k].trueItems|), ReadSoFar(raws, k, false, 0);
    forall i, side | 0 <= i < |b| ensures Holds(db.teCond.pool, ListOf(now[i], side), ItemsOf(b[i], side)) {
      assert Holds(db.teCond.pool, ListOf(now[i], side), ItemsOf(a[i], side));
    }
  }

  lemma NodeRead(db: PolicyDb, raws: seq<RawCond>, k: nat, conds: seq<CondNode>, cn: CondNode, list: seq<nat>)
    requires k < |raws| && BranchRead(db, raws, k, false, |raws[k].falseItems|, conds, cn, list)
    ensures ReadOk(db, conds + [cn.(falseList := list)]) && Mirrors(db.teCond.pool, conds + [cn.(falseList := list)], raws[..k + 1])
  {
    hide ReadOk, Mirrors;
    var n := |raws[k].falseItems|;
    assert raws[k].falseItems[..n] == raws[k].falseItems && RawUpTo(raws[k], false, n) == raws[k];
    assert ReadSoFar(raws, k, false, n) == raws[..k + 1];
  }

  method CheckExpr(expr: seq<RawSym>, nbools: nat) returns (ok: bool)
    ensures ok <==> ExprIsValid(expr, nbools)
  {
    for i := 0 to |expr|
      invariant ExprIsValid(expr[..i], nbools)
    {
      if expr[i].kind == 0 || expr[i].kind > COND_LAST { return false; }
      if expr[i].boolean > nbools { return false; }
    }
    assert expr[..|expr|] == expr;
    ok := true;
  }

  /** Reads one conditional, its true list before its false list. */
  method CondReadNode(db: PolicyDb, raw: RawCond, ghost raws: seq<RawCond>, ghost k: nat, ghost conds: seq<CondNode>)
    returns (ok: bool, cn: CondNode)
    requires k < |raws| && raw == raws[k] && ReadOk(db, conds) && Mirrors(db.teCond.pool, conds, raws[..k])
    modifies db.teCond
    ensures |db.teCond.htable| == |old(db.teCond.htable)|
    ensures ok ==> ReadOk(db, conds + [cn]) && Mirrors(db.teCond.pool, conds + [cn], raws[..k + 1])
    ensures ok ==> cn == Blank(raw).(trueList := cn.trueList, falseList := cn.falseList)
    ensures ok ==> MeansWhatIsStored(cn.expr, raw.expr) && cn.curState == raw.state
    ensures ok ==> forall i :: 0 <= i < |raw.expr| ==> 1 <= raw.expr[i].kind <= 7 && raw.expr[i].boolean <= |db.bools|
    ensures ok <==> CondFits(db.te.pool, db.te.htable, |db.bools|, |db.teCond.htable| > 0, raws, k)
  {
    ReadParts(db, conds);
    hide ReadOk, Mirrors, ExprIsValid, BranchFits, BranchRead, MeansWhatIsStored;
    cn := Blank(raw);
    ok := CheckExpr(raw.expr, |db.bools|);
    if !ok { return; }
    TrueListStart(db, raws, k, conds, cn);
    var trueList;
    ok, trueList := CondReadAvList(db, raw.trueItems, [], raws, k, conds, cn, true);
    if !ok { return; }
    FalseListStart(db, raws, k, conds, cn, trueList);
    cn := cn.(trueList := trueList);
    var falseList;
    ok, falseList := CondReadAvList(db, raw.falseItems, trueList, raws, k, conds, cn, false);
    if !ok { return; }
    NodeRead(db, raws, k, conds, cn, falseList);
    cn := cn.(falseList := falseList);
    StoredMeaning(raw.expr);
    ValidCodes(raw.expr, |db.bools|);
  }

  /** Conditionals in their order, as read. */
  ghost predicate AsRead(conds: seq<CondNode>, raws: seq<RawCond>) {
    |conds| == |raws| && forall i :: 0 <= i < |raws| ==>
      conds[i] == Blank(raws[i]).(trueList := conds[i].trueList, falseList := conds[i].falseList)
  }

  /**
     Reads all conditionals into an empty conditional table. It succeeds exactly when every
     conditional fits what was read before it. Without unconditional rules the table would have
     no slots and could take no conditional rule; loading a kernel policy refuses an empty
     unconditional table before it comes to this.
   */
  method CondReadList(db: PolicyDb, raws: seq<RawCond>) returns (ok: bool)
    requires db.te != db.teCond && db.te.Valid() && db.te.nel < 0x1_0000_0000 && db.condList == []
    modifies db`condList, db.teCond
    ensures ok <==> AllFit(db.te.pool, db.te.htable, |db.bools|, db.te.nel > 0, raws, |raws|)
    ensures ok ==> ReadOk(db, db.condList) && AsRead(db.condList, raws) && Mirrors(db.teCond.pool, db.condList, raws)
    ensures ok ==> |db.condList| == |raws| && forall i :: 0 <= i < |raws| ==> MeansWhatIsStored(db.condList[i].expr, raws[i].expr)
  {
    hide *;
    db.teCond.Alloc(db.te.nel);
    SomeSlots(db.te.nel, |db.teCond.htable|);
    ReadNothing(db, raws);
    for k := 0 to |raws|
      invariant |db.teCond.htable| > 0 <==> db.te.nel > 0
      invariant ReadOk(db, db.condList) && AsRead(db.condList, raws[..k]) && Mirrors(db.teCond.pool, db.condList, raws[..k])
      invariant AllFit(db.te.pool, db.te.htable, |db.bools|, db.te.nel > 0, raws, k)
    {
      var cn;
      FitStep(db.te.pool, db.te.htable, |db.bools|, db.te.nel > 0, raws, k);
      ok, cn := CondReadNode(db, raws[k], raws, k, db.condList);
      if !ok { return; }
      AsReadStep(db.condList, raws, k, cn);
      db.condList := db.condList + [cn];
    }
    assert raws[..|raws|] == raws;
    AllStoredMeanings(db.condList, raws);
    ok := true;
  }

  /** Two rules of one type kind (transition, member or change) for one source, target and class. */
  predicate SameTypeRule(a: Key, b: Key) {
    && a.source == b.source && a.target == b.target && a.tclass == b.tclass
    && a.specified == b.specified && a.specified in [0x10, 0x20, 0x40]
  }

  lemma SameTypeCompetes(a: Key, b: Key)
    requires SameTypeRule(a, b)
    ensures Has(a.specified, TYPE_RULES) && Matches(a, b) && Matches(b, a)
  {
  }

  lemma SameTypeHit(pool: seq<Node>, htable: seq<seq<nat>>, key: Key, s: nat, q: nat)
    requires s < |htable| && q in htable[s] && q < |pool| && SameTypeRule(key, pool[q].key)
    ensures Hit(pool, htable, key, q)
  {
    SameTypeCompetes(key, pool[q].key);
  }

  lemma FitsBefore(tePool: seq<Node>, teTable: seq<seq<nat>>, nbools: nat, room: bool, raws: seq<RawCond>, k: nat, c: bool, l: nat)
    requires AllFit(tePool, teTable, nbools, room, raws, |raws|) && k < |raws| && l < |ItemsOf(raws[k], c)|
    ensures Accepts(tePool, teTable, ReadSoFar(raws, k, c, l), ItemsOf(raws[k], c)[l].key, c)
  {
    hide Accepts, ExprIsValid;
    assert CondFits(tePool, teTable, nbools, room, raws, k);
    assert BranchFits(tePool, teTable, raws, k, c, |ItemsOf(raws[k], c)|);
    assert ItemFits(tePool, teTable, raws, k, c, l);
  }

  /** Place (i, b, j) of the lists is read before place (k, c, l). */
  predicate ReadBefore(i: nat, b: bool, j: nat, k: nat, c: bool, l: nat) {
    i < k || (i == k && ((b && !c) || (b == c && j < l)))
  }

  lemma CompetesBefore(raws: seq<RawCond>, key: Key, i: nat, b: bool, j: nat, k: nat, c: bool, l: nat)
    requires k < |raws| && l < |ItemsOf(raws[k], c)| && i < |raws| && j < |ItemsOf(raws[i], b)|
    requires ReadBefore(i, b, j, k, c, l) && Matches(key, ItemsOf(raws[i], b)[j].key)
    ensures Competes(ReadSoFar(raws, k, c, l), key, i, b, j) && |ReadSoFar(raws, k, c, l)| == k + 1
  {
    hide Matches;
  }

  /**
   In conditionals that can be read, one type rule given twice is on opposite branches of one
   conditional, and no unconditional rule gives it.
   */
  lemma {:induction false} TypeRulesApart(tePool: seq<Node>, teTable: seq<seq<nat>>, nbools: nat, room: bool, raws: seq<RawCond>,
                                          i: nat, b: bool, j: nat, k: nat, c: bool, l: nat)
    requires AllFit(tePool, teTable, nbools, room, raws, |raws|)
    requires i < |raws| && j < |ItemsOf(raws[i], b)| && k < |raws| && l < |ItemsOf(raws[k], c)|
    requires SameTypeRule(ItemsOf(raws[i], b)[j].key, ItemsOf(raws[k], c)[l].key)
    ensures (i, b, j) != (k, c, l) ==> i == k && b != c
    ensures forall s, q: nat :: 0 <= s < |teTable| && q in teTable[s] && q < |tePool| ==> !SameTypeRule(ItemsOf(raws[i], b)[j].key, tePool[q].key)
  {
    var key, other := ItemsOf(raws[i], b)[j].key, ItemsOf(raws[k], c)[l].key;
    SameTypeCompetes(key, other);
    FitsBefore(tePool, teTable, nbools, room, raws, i, b, j);
    FitsBefore(tePool, teTable, nbools, room, raws, k, c, l);
    hide Matches, Competes, Has, AllFit, SameTypeRule, OneCompetes;
    if ReadBefore(i, b, j, k, c, l) {
      CompetesBefore(raws, other, i, b, j, k, c, l);
    } else if ReadBefore(k, c, l, i, b, j) {
      CompetesBefore(raws, key, k, c, l, i, b, j);
    }
    forall s, q: nat | 0 <= s < |teTable| && q in teTable[s] && q < |tePool| ensures !SameTypeRule(key, tePool[q].key) {
      if SameTypeRule(key, tePool[q].key) { SameTypeHit(tePool, teTable, key, s, q); }
    }
  }

  lemma OtherItemsFit(tePool: seq<Node>, teTable: seq<seq<nat>>, raws: seq<RawCond>, k: nat, branch: bool)
    requires k < |raws| && forall j :: 0 <= j < |ItemsOf(raws[k], branch)| ==> ItemsOf(raws[k], branch)[j].key.specified & 0x70 == 0
    ensures BranchFits(tePool, teTable, raws, k, branch, |ItemsOf(raws[k], branch)|)
  {
    hide Competes, OneCompetes, Hit;
  }

  predicate NoTypeItems(items: seq<Item>) {
    forall j :: 0 <= j < |items| ==> items[j].key.specified & 0x70 == 0
  }

  predicate Readable(raw: RawCond, nbools: nat, room: bool) {
    && (forall i :: 0 <= i < |raw.expr| ==> 1 <= raw.expr[i].kind <= 7 && raw.expr[i].boolean <= nbools)
    && (room || (raw.trueItems == [] && raw.falseItems == []))
  }

  /** Without type rules only the expressions and the room in the table matter. */
  lemma {:induction false} OtherRulesFit(tePool: seq<Node>, teTable: seq<seq<nat>>, nbools: nat, room: bool, raws: seq<RawCond>)
    requires forall k :: 0 <= k < |raws| ==> NoTypeItems(raws[k].trueItems) && NoTypeItems(raws[k].falseItems)
    ensures AllFit(tePool, teTable, nbools, room, raws, |raws|) <==> forall k :: 0 <= k < |raws| ==> Readable(raws[k], nbools, room)
  {
    forall k | 0 <= k < |raws| ensures CondFits(tePool, teTable, nbools, room, raws, k) <==> Readable(raws[k], nbools, room) {
      assert NoTypeItems(raws[k].trueItems) && NoTypeItems(raws[k].falseItems);
      OtherItemsFit(tePool, teTable, raws, k, true);
      OtherItemsFit(tePool, teTable, raws, k, false);
      ValidCodes(raws[k].expr, nbools);
    }
    hide CondFits, Readable;
  }

  /** A type rule given once on each branch can be read when nothing outside gives it. */
  lemma {:induction false} OppositeRulesFit(tePool: seq<Node>, teTable: seq<seq<nat>>, nbools: nat, raw: RawCond)
    requires |raw.trueItems| == |raw.falseItems| == 1
    requires SameTypeRule(raw.trueItems[0].key, raw.falseItems[0].key)
    requires forall q: nat :: !Hit(tePool, teTable, raw.trueItems[0].key, q) && !Hit(tePool, teTable, raw.falseItems[0].key, q)
    ensures AllFit(tePool, teTable, nbools, true, [raw], 1) <==> Readable(raw, nbools, true)
  {
    hide Hit, Matches, Has;
    ValidCodes(raw.expr, nbools);
    var before := ReadSoFar([raw], 0, true, 0);
    assert before == [raw.(trueItems := [], falseItems := [])];
    assert ItemFits(tePool, teTable, [raw], 0, true, 0);
    var half := ReadSoFar([raw], 0, false, 0);
    assert half == [raw.(falseItems := [])];
    assert ItemFits(tePool, teTable, [raw], 0, false, 0);
    OneBranchFits(tePool, teTable, raw, true);
    OneBranchFits(tePool, teTable, raw, false);
    OneConditionalFits(tePool, teTable, nbools, raw);
  }

  lemma OneConditionalFits(tePool: seq<Node>, teTable: seq<seq<nat>>, nbools: nat, raw: RawCond)
    requires BranchFits(tePool, teTable, [raw], 0, true, |raw.trueItems|) && BranchFits(tePool, teTable, [raw], 0, false, |raw.falseItems|)
    ensures AllFit(tePool, teTable, nbools, true, [raw], 1) <==> ExprIsValid(raw.expr, nbools)
  {
    hide BranchFits, ExprIsValid;
    assert AllFit(tePool, teTable, nbools, true, [raw], 1) <==> CondFits(tePool, teTable, nbools, true, [raw], 0);
  }

  lemma OneBranchFits(tePool: seq<Node>, teTable: seq<seq<nat>>, raw: RawCond, branch: bool)
    requires |ItemsOf(raw, branch)| == 1 && ItemFits(tePool, teTable, [raw], 0, branch, 0)
    ensures BranchFits(tePool, teTable, [raw], 0, branch, |ItemsOf(raw, branch)|)
  {
    hide ItemFits;
  }

  lemma ReadNothing(db: PolicyDb, raws: seq<RawCond>)
    requires db.te != db.teCond && db.te.Valid() && db.teCond.Valid() && db.condList == []
    requires db.teCond.pool == [] && forall i :: 0 <= i < |db.teCond.htable| ==> db.teCond.htable[i] == []
    ensures ReadOk(db, []) && Mirrors(db.teCond.pool, [], raws[..0]) && AsRead([], raws[..0])
    ensures AllFit(db.te.pool, db.te.htable, |db.bools|, db.te.nel > 0, raws, 0)
  {
    forall p: nat ensures !Linked(db.teCond.htable, p) { }
  }

  lemma FitStep(tePool: seq<Node>, teTable: seq<seq<nat>>, nbools: nat, room: bool, raws: seq<RawCond>, k: nat)
    requires k < |raws| && AllFit(tePool, teTable, nbools, room, raws, k)
    ensures AllFit(tePool, teTable, nbools, room, raws, k + 1) <==> CondFits(tePool, teTable, nbools, room, raws, k)
    ensures AllFit(tePool, teTable, nbools, room, raws, |raws|) ==> CondFits(tePool, teTable, nbools, room, raws, k)
  {
    hide CondFits;
  }

  lemma AsReadStep(conds: seq<CondNode>, raws: seq<RawCond>, k: nat, cn: CondNode)
    requires k < |raws| && AsRead(conds, raws[..k])
    requires cn == Blank(raws[k]).(trueList := cn.trueList, falseList := cn.falseList)
    ensures AsRead(conds + [cn], raws[..k + 1])
  {
    hide Blank;
  }

  // ---------------------------------------------------------------- determinism

  /** A rule: a node outside the conditionals or one on a branch. */
  datatype Rule = Base(p: nat) | Conditional(p: nat)

  ghost predicate Active(db: PolicyDb, asg: seq<bool>, r: Rule)
    requires ExprsInScope(db.condList, |asg|)
    reads db, db.te, db.teCond
  {
    match r
    case Base(p) => Linked(db.te.htable, p) && p < |db.te.pool|
    case Conditional(p) =>
      && p < |db.teCond.pool|
      && exists i :: 0 <= i < |db.condList| && p in Branch(db.condList[i], Evaluate(db.condList[i].expr, asg))
  }

  ghost function KeyOf(db: PolicyDb, r: Rule): Key
    requires r.p < if r.Base? then |db.te.pool| else |db.teCond.pool|
    reads db, db.te, db.teCond
  {
    if r.Base? then db.te.pool[r.p].key else db.teCond.pool[r.p].key
  }

  /** Rules of one type kind for one triple compete. */
  lemma SameKindCompetes(a: Key, b: Key, k: Kind)
    requires SameTriple(a, b) && IsType(k) && OfKind(a.specified, k) && OfKind(b.specified, k)
    ensures ShareTypeKey(a, b) && !Has(a.specified | b.specified, XPERMS)
  {
  }

  lemma BranchIsLinked(db: PolicyDb, conds: seq<CondNode>, i: nat, p: nat)
    requires ListsMatchTable(db.teCond.htable, conds) && i < |conds|
    requires p in conds[i].trueList || p in conds[i].falseList
    ensures Linked(db.teCond.htable, p)
  {
    UsesOf(conds, i, p);
  }

  lemma BothBranches(db: PolicyDb, asg: seq<bool>, p: nat, q: nat, i: nat, j: nat)
    requires ExprsInScope(db.condList, |asg|) && ReadOk(db, db.condList)
    requires p < |db.teCond.pool| && q < |db.teCond.pool| && i < |db.condList| && j < |db.condList|
    requires p in Branch(db.condList[i], Evaluate(db.condList[i].expr, asg))
    requires q in Branch(db.condList[j], Evaluate(db.condList[j].expr, asg))
    requires ShareTypeKey(db.teCond.pool[p].key, db.teCond.pool[q].key)
    ensures p == q
  {
    var conds := db.condList;
    hide Evaluate, Uses, Linked, ShareTypeKey, ListsMatchTable, ExprsInScope;
    BranchIsLinked(db, conds, i, p);
    BranchIsLinked(db, conds, j, q);
    if p != q {
      assert Opposite(conds, p, q);
      var m :| 0 <= m < |conds| && (
        || (p in conds[m].trueList && q in conds[m].falseList)
        || (q in conds[m].trueList && p in conds[m].falseList));
      assert Unshared(conds) by { ListsMatchUnshared(db.teCond.htable, conds); }
      ListsDisjoint(conds, m, i, p);
      ListsDisjoint(conds, m, j, q);
    }
  }

  lemma ListsMatchUnshared(htable: seq<seq<nat>>, conds: seq<CondNode>)
    requires ListsMatchTable(htable, conds)
    ensures Unshared(conds)
  {
  }

  lemma NoBaseCompetitor(db: PolicyDb, p: nat, q: nat)
    requires ReadOk(db, db.condList) && p < |db.teCond.pool| && q < |db.te.pool|
    requires ShareTypeKey(db.teCond.pool[p].key, db.te.pool[q].key)
    ensures !Linked(db.te.htable, q)
  {
    assert !Hit(db.te.pool, db.te.htable, db.teCond.pool[p].key, q);
  }

  /**
     Whatever the booleans, at most one rule of a type kind is active for a source, target
     and class, across the unconditional table and all active branches.
   */
  lemma TypeDecisionUnique(db: PolicyDb, asg: seq<bool>, r: Rule, s: Rule, k: Kind)
    requires ExprsInScope(db.condList, |asg|) && ReadOk(db, db.condList) && UniqueKeys(db.te.pool, db.te.htable)
    requires Active(db, asg, r) && Active(db, asg, s) && IsType(k)
    requires SameTriple(KeyOf(db, r), KeyOf(db, s))
    requires OfKind(KeyOf(db, r).specified, k) && OfKind(KeyOf(db, s).specified, k)
    ensures r == s
  {
    SameKindCompetes(KeyOf(db, r), KeyOf(db, s), k);
    SameKindCompetes(KeyOf(db, s), KeyOf(db, r), k);
    hide OfKind, IsType, ListsMatchTable, BranchesApart, Evaluate, Has, Overlaps;
    match (r, s)
    case (Base(p), Base(q)) =>
    case (Conditional(p), Conditional(q)) =>
      var i :| 0 <= i < |db.condList| && p in Branch(db.condList[i], Evaluate(db.condList[i].expr, asg));
      var j :| 0 <= j < |db.condList| && q in Branch(db.condList[j], Evaluate(db.condList[j].expr, asg));
      BothBranches(db, asg, p, q, i, j);
    case (Base(p), Conditional(q)) =>
      NoBaseCompetitor(db, q, p);
    case (Conditional(p), Base(q)) =>
      NoBaseCompetitor(db, p, q);
  }
}
