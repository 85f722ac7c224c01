/**
 What the neverallow walks look for and count, said of the single rules of the policy
 (src/assertion.c): when an entry violates a rule, when a pair fails an extended one, and that
 the failures reported are as many as the rules, pairs and permission sets that cause them.
 */
module NeverRules {
  import opened Prelude
  import opened Masks
  import opened Avtab
  import opened TypeMaps
  import opened AccessDecision
  import opened PolicyDb
  import opened NeverXperms
  import opened Assertion

  // ---------------------------------------------------------------- single rules

  predicate SharesBit(a: bv32, b: bv32) {
    a & b != 0
  }

  /** The permission set is for the class of the rule and has a bit of it. */
  predicate SetMatches(cp: ClassPerm, n: Node) {
    cp.tclass == n.key.tclass && SharesBit(cp.data, n.datum.data)
  }

  /** The rule has a forbidden permission; with `strict` it must be an allow rule. */
  predicate HasForbidden(r: XRule, n: Node, strict: bool) {
    (strict ==> n.key.specified & 1 != 0) && exists k :: 0 <= k < |r.perms| && SetMatches(r.perms[k], n)
  }

  /** An extended allow rule with a list of ioctl functions, ioctl drivers or netlink messages. */
  predicate HasList(n: Node) {
    n.key.specified & 0x100 != 0 && n.datum.xperms.Some? && n.datum.xperms.value.specified in {1, 2, 3}
  }

  /** The lists have something in common: a bit over one range, or the driver of the one in the other. */
  ghost predicate SharesList(never: Xperms, x: Xperms) {
    || (never.specified == 1 && x.specified == 1 && never.driver == x.driver && ShareWord(never.perms, x.perms))
    || (never.specified == 2 && x.specified == 2 && ShareWord(never.perms, x.perms))
    || (never.specified == 3 && x.specified == 3 && never.driver == x.driver && ShareWord(never.perms, x.perms))
    || (never.specified == 1 && x.specified == 2 && PermBit(x.perms, never.driver))
    || (never.specified == 2 && x.specified == 1 && PermBit(never.perms, x.driver))
  }

  ghost predicate HasForbiddenList(r: XRule, n: Node) {
    HasList(n) && SharesList(r.never, n.datum.xperms.value)
  }

  /** The rule is for source `x`, target `y`, counted from 0, and class `c`. */
  predicate OnKey(n: Node, x: nat, y: nat, c: nat) {
    n.key.source == x + 1 && n.key.target == y + 1 && n.key.tclass == c
  }

  lemma SharesIs(a: bv32, b: bv32)
    ensures Meets(a, b) <==> SharesBit(a, b)
  {
  }

  lemma FlagsAre(x: bv16)
    ensures Has(x, ALLOWED) <==> x & 1 != 0
    ensures Has(x, XPERMS_ALLOWED) <==> x & 0x100 != 0
    ensures 0x100 & x & 0x7FFF != 0 <==> x & 0x100 != 0
  {
  }

  lemma BaseIs(r: XRule, n: Node, strict: bool)
    ensures IsBase(r, n, strict) <==> HasForbidden(r, n, strict)
  {
    hide Meets, SharesBit, Has;
    FlagsAre(n.key.specified);
    forall k | 0 <= k < |r.perms| ensures Meets(r.perms[k].data, n.datum.data) <==> SharesBit(r.perms[k].data, n.datum.data) {
      SharesIs(r.perms[k].data, n.datum.data);
    }
    assert forall k :: 0 <= k < |r.perms| && r.perms[k].tclass == n.key.tclass && Meets(r.perms[k].data, n.datum.data) ==> SetMatches(r.perms[k], n);
  }

  lemma ListIs(r: XRule, n: Node)
    ensures ListsKnown(r, Listing, n) && Has(n.key.specified, XPERMS_ALLOWED) <==> HasList(n)
    ensures ListsKnown(r, Clashing, n) && Has(n.key.specified, XPERMS_ALLOWED) <==> HasForbiddenList(r, n)
  {
    hide Common, ShareWord, PermBit, Has;
    FlagsAre(n.key.specified);
    if n.datum.xperms.Some? { WordsShared(r.never.perms, n.datum.xperms.value.perms); }
  }

  // ---------------------------------------------------------------- branches and the table

  ghost predicate BranchAllows(pool: seq<Node>, list: seq<nat>, x: nat, y: nat, c: nat, r: XRule, strict: bool) {
    exists p: nat :: p in list && p < |pool| && OnKey(pool[p], x, y, c) && HasForbidden(r, pool[p], strict)
  }

  ghost predicate BranchLists(pool: seq<Node>, list: seq<nat>, x: nat, y: nat, c: nat, r: XRule, strict: bool) {
    exists p: nat :: p in list && p < |pool| && OnKey(pool[p], x, y, c) && !HasForbidden(r, pool[p], strict) && HasList(pool[p])
  }

  ghost predicate BranchClashes(pool: seq<Node>, list: seq<nat>, x: nat, y: nat, c: nat, r: XRule, strict: bool) {
    exists p: nat :: p in list && p < |pool| && OnKey(pool[p], x, y, c) && !HasForbidden(r, pool[p], strict) && HasForbiddenList(r, pool[p])
  }

  ghost predicate TableLists(v: View, x: nat, y: nat, c: nat) {
    exists p: nat :: Linked(v.teTable, p) && p < |v.tePool| && OnKey(v.tePool[p], x, y, c) && HasList(v.tePool[p])
  }

  ghost predicate TableHasForbidden(v: View, x: nat, y: nat, c: nat, r: XRule) {
    exists p: nat :: Linked(v.teTable, p) && p < |v.tePool| && OnKey(v.tePool[p], x, y, c) && HasForbiddenList(r, v.tePool[p])
  }

  lemma PresentMeans(pool: seq<Node>, list: seq<nat>, x: nat, y: nat, c: nat, r: XRule, strict: bool)
    ensures Present(pool, list, XKey(x, y, c), r, Base, strict) <==> BranchAllows(pool, list, x, y, c, r, strict)
    ensures Present(pool, list, XKey(x, y, c), r, Listing, strict) <==> BranchLists(pool, list, x, y, c, r, strict)
    ensures Present(pool, list, XKey(x, y, c), r, Clashing, strict) <==> BranchClashes(pool, list, x, y, c, r, strict)
  {
    hide IsBase, HasForbidden, ListsKnown, HasList, HasForbiddenList, Has;
    forall p: nat | p < |pool|
      ensures IsBase(r, pool[p], strict) <==> HasForbidden(r, pool[p], strict)
      ensures ListsKnown(r, Listing, pool[p]) && Has(pool[p].key.specified, XPERMS_ALLOWED) <==> HasList(pool[p])
      ensures ListsKnown(r, Clashing, pool[p]) && Has(pool[p].key.specified, XPERMS_ALLOWED) <==> HasForbiddenList(r, pool[p])
    {
      BaseIs(r, pool[p], strict);
      ListIs(r, pool[p]);
    }
  }

  lemma SearchedIs(n: Node, x: nat, y: nat, c: nat)
    ensures Matches(XKey(x, y, c), n.key) <==> OnKey(n, x, y, c) && Has(n.key.specified, XPERMS_ALLOWED)
  {
    MatchesIs(XKey(x, y, c), n.key);
    FlagsAre(n.key.specified);
    hide Matches, Has;
  }

  lemma InTableMeans(v: View, x: nat, y: nat, c: nat, r: XRule)
    ensures InTable(v.tePool, v.teTable, XKey(x, y, c), r, Listing) <==> TableLists(v, x, y, c)
    ensures InTable(v.tePool, v.teTable, XKey(x, y, c), r, Clashing) <==> TableHasForbidden(v, x, y, c, r)
  {
    hide ListsKnown, HasList, HasForbiddenList, Has, Matches, Linked, OnKey;
    forall p: nat | p < |v.tePool|
      ensures Matches(XKey(x, y, c), v.tePool[p].key) <==> OnKey(v.tePool[p], x, y, c) && Has(v.tePool[p].key.specified, XPERMS_ALLOWED)
      ensures ListsKnown(r, Listing, v.tePool[p]) && Has(v.tePool[p].key.specified, XPERMS_ALLOWED) <==> HasList(v.tePool[p])
      ensures ListsKnown(r, Clashing, v.tePool[p]) && Has(v.tePool[p].key.specified, XPERMS_ALLOWED) <==> HasForbiddenList(r, v.tePool[p])
    {
      SearchedIs(v.tePool[p], x, y, c);
      ListIs(r, v.tePool[p]);
    }
  }

  // ---------------------------------------------------------------- when a pair fails

  /** Some key of the pair: an attribute or the type itself on either side. */
  ghost predicate Covers(v: View, s: nat, t: nat, x: nat, y: nat)
    requires v.tm.InRange() && HasRows(v.tm, s, t)
  {
    x in v.tm.typeAttr[s] && y in v.tm.typeAttr[t]
  }

  /** A forbidden list is in the table or on either branch of a conditional. */
  ghost predicate KeyForbidden(v: View, x: nat, y: nat, c: nat, r: XRule, strict: bool) {
    || TableHasForbidden(v, x, y, c, r)
    || exists k :: 0 <= k < |v.conds| &&
         (BranchClashes(v.pool, v.conds[k].trueList, x, y, c, r, strict) || BranchClashes(v.pool, v.conds[k].falseList, x, y, c, r, strict))
  }

  /** Some list is in the table, or on both branches of a conditional. */
  ghost predicate KeyListed(v: View, x: nat, y: nat, c: nat, r: XRule, strict: bool) {
    || TableLists(v, x, y, c)
    || exists k :: 0 <= k < |v.conds| &&
         BranchLists(v.pool, v.conds[k].trueList, x, y, c, r, strict) && BranchLists(v.pool, v.conds[k].falseList, x, y, c, r, strict)
  }

  /** A branch has a forbidden permission and no list. */
  ghost predicate KeyBare(v: View, x: nat, y: nat, c: nat, r: XRule, strict: bool) {
    exists k :: 0 <= k < |v.conds| && (
      || (BranchAllows(v.pool, v.conds[k].trueList, x, y, c, r, strict) && !BranchLists(v.pool, v.conds[k].trueList, x, y, c, r, strict))
      || (BranchAllows(v.pool, v.conds[k].falseList, x, y, c, r, strict) && !BranchLists(v.pool, v.conds[k].falseList, x, y, c, r, strict)))
  }

  lemma KeyMeans(v: View, x: nat, y: nat, c: nat, r: XRule, strict: bool)
    ensures Found(v, XKey(x, y, c), r, Forbidden, strict) <==> KeyForbidden(v, x, y, c, r, strict)
    ensures Found(v, XKey(x, y, c), r, Listed, strict) <==> KeyListed(v, x, y, c, r, strict)
    ensures Found(v, XKey(x, y, c), r, Conflict, strict) <==> KeyBare(v, x, y, c, r, strict)
  {
    InTableMeans(v, x, y, c, r);
    forall k | 0 <= k < |v.conds|
      ensures CondFinds(v.pool, v.conds[k], XKey(x, y, c), r, Forbidden, strict) <==>
        BranchClashes(v.pool, v.conds[k].trueList, x, y, c, r, strict) || BranchClashes(v.pool, v.conds[k].falseList, x, y, c, r, strict)
      ensures CondFinds(v.pool, v.conds[k], XKey(x, y, c), r, Listed, strict) <==>
        BranchLists(v.pool, v.conds[k].trueList, x, y, c, r, strict) && BranchLists(v.pool, v.conds[k].falseList, x, y, c, r, strict)
      ensures CondFinds(v.pool, v.conds[k], XKey(x, y, c), r, Conflict, strict) <==>
        || (BranchAllows(v.pool, v.conds[k].trueList, x, y, c, r, strict) && !BranchLists(v.pool, v.conds[k].trueList, x, y, c, r, strict))
        || (BranchAllows(v.pool, v.conds[k].falseList, x, y, c, r, strict) && !BranchLists(v.pool, v.conds[k].falseList, x, y, c, r, strict))
    {
      PresentMeans(v.pool, v.conds[k].trueList, x, y, c, r, strict);
      PresentMeans(v.pool, v.conds[k].falseList, x, y, c, r, strict);
      hide Present, BranchClashes, BranchLists, BranchAllows;
    }
    hide CondFinds, BranchClashes, BranchLists, BranchAllows, InTable, TableLists, TableHasForbidden;
  }

  /**
     A pair fails when some key has a forbidden list; and else, for a permission allowed
     unconditionally, when no key is listed, for one allowed conditionally, when some branch of
     some key has the permission and no list.
   */
  lemma FailsMeans(v: View, s: nat, t: nat, c: nat, r: XRule, conditional: bool, strict: bool)
    requires v.tm.InRange() && HasRows(v.tm, s, t)
    ensures XFails(v, s, t, c, r, conditional, strict) <==>
      || (exists x: nat, y: nat :: Covers(v, s, t, x, y) && KeyForbidden(v, x, y, c, r, strict))
      || (conditional && exists x: nat, y: nat :: Covers(v, s, t, x, y) && KeyBare(v, x, y, c, r, strict))
      || (!conditional && !exists x: nat, y: nat :: Covers(v, s, t, x, y) && KeyListed(v, x, y, c, r, strict))
  {
    hide Found, KeyForbidden, KeyListed, KeyBare;
    forall x: nat, y: nat
      ensures Found(v, XKey(x, y, c), r, Forbidden, strict) <==> KeyForbidden(v, x, y, c, r, strict)
      ensures Found(v, XKey(x, y, c), r, Listed, strict) <==> KeyListed(v, x, y, c, r, strict)
      ensures Found(v, XKey(x, y, c), r, Conflict, strict) <==> KeyBare(v, x, y, c, r, strict)
    {
      KeyMeans(v, x, y, c, r, strict);
    }
  }

  // ---------------------------------------------------------------- when an entry violates a rule

  /** The entry reaches the pair, and the source is one the rule names. */
  ghost predicate Reaches(tm: TypeMaps, n: Node, r: NeverRule, s: nat, t: nat)
    requires KeyInRange(tm, n)
  {
    s in r.stypes && s in tm.attrType[n.key.source - 1] && t in tm.attrType[n.key.target - 1]
  }

  /** Without flags the rule is about the listed targets; `self` adds the source itself. */
  ghost predicate PlainPair(tm: TypeMaps, n: Node, r: NeverRule, s: nat, t: nat)
    requires KeyInRange(tm, n)
  {
    Reaches(tm, n, r, s, t) && (t in r.ttypes || (r.self && t == s))
  }

  /** With `notself` it is about all other types, or about the other listed ones. */
  ghost predicate OtherPair(tm: TypeMaps, n: Node, r: NeverRule, s: nat, t: nat)
    requires KeyInRange(tm, n)
  {
    Reaches(tm, n, r, s, t) && t != s && (r.ttypes == {} || t in r.ttypes)
  }

  lemma SomePairMeans(tm: TypeMaps, n: Node, r: NeverRule)
    requires KeyInRange(tm, n)
    ensures !r.notself ==> (SomePair(tm, n, r) <==> exists s: nat, t: nat :: PlainPair(tm, n, r, s, t))
    ensures r.notself ==> (SomePair(tm, n, r) <==> exists s: nat, t: nat :: OtherPair(tm, n, r, s, t))
  {
    if s: nat, t: nat :| s in tm.attrType[n.key.source - 1] && t in tm.attrType[n.key.target - 1] && Forbids(r, s, t) {
      assert !r.notself ==> PlainPair(tm, n, r, s, t);
      assert r.notself ==> OtherPair(tm, n, r, s, t);
    }
    if s: nat, t: nat :| !r.notself && PlainPair(tm, n, r, s, t) { assert Forbids(r, s, t); }
    if s: nat, t: nat :| r.notself && OtherPair(tm, n, r, s, t) { assert Forbids(r, s, t); }
  }

  /** Pair (s, t) is walked for the entry: under `self` only types with themselves, under `notself` only different ones. */
  ghost predicate Walked(tm: TypeMaps, n: Node, r: NeverRule, s: nat, t: nat)
    requires KeyInRange(tm, n)
  {
    && Reaches(tm, n, r, s, t) && (r.self ==> s == t) && (r.notself ==> s != t)
    && if r.notself then r.ttypes == {} || t in r.ttypes
       else t in r.ttypes || (r.self && t in r.stypes && t in tm.attrType[n.key.source - 1])
  }

  lemma WalkedMeans(tm: TypeMaps, n: Node, r: NeverRule, s: nat, t: nat)
    requires KeyInRange(tm, n)
    ensures (s, t) in Pairs(tm, n, r) <==> Walked(tm, n, r, s, t)
  {
  }

  /** A permission set of the rule matches the entry, which is an allow rule. */
  predicate EntryMatches(r: NeverRule, n: Node) {
    n.key.specified & 1 != 0 && exists k :: 0 <= k < |r.perms| && SetMatches(r.perms[k], n)
  }

  lemma EntryIs(r: NeverRule, n: Node)
    ensures Has(n.key.specified, ALLOWED) && HitsPerms(r, n) <==> EntryMatches(r, n)
  {
    hide Meets, SharesBit, Has;
    FlagsAre(n.key.specified);
    forall k | 0 <= k < |r.perms| ensures Meets(r.perms[k].data, n.datum.data) <==> SharesBit(r.perms[k].data, n.datum.data) {
      SharesIs(r.perms[k].data, n.datum.data);
    }
    assert forall k :: 0 <= k < |r.perms| && r.perms[k].tclass == n.key.tclass && Meets(r.perms[k].data, n.datum.data) ==> SetMatches(r.perms[k], n);
  }

  /** A pair walked for the entry fails the list of the rule. */
  ghost predicate WalkedFails(v: View, n: Node, r: NeverRule, conditional: bool, s: nat, t: nat)
    requires KeyInRange(v.tm, n) && r.xperms.Some?
  {
    Walked(v.tm, n, r, s, t) && HasRows(v.tm, s, t) && XFails(v, s, t, n.key.tclass, XRuleOf(r), conditional, true)
  }

  /**
     An entry violates a rule when it is an allow rule with a forbidden permission that reaches
     a pair the rule is about, and, for a rule on extended permissions, a pair walked fails.
   */
  lemma ViolatesMeans(v: View, n: Node, r: NeverRule, conditional: bool)
    requires KeyInRange(v.tm, n)
    ensures Violates(v, n, r, conditional) <==>
      && EntryMatches(r, n)
      && (if r.notself then exists s: nat, t: nat :: OtherPair(v.tm, n, r, s, t) else exists s: nat, t: nat :: PlainPair(v.tm, n, r, s, t))
      && (r.xperms.Some? ==> exists s: nat, t: nat :: WalkedFails(v, n, r, conditional, s, t))
  {
    EntryIs(r, n);
    SomePairMeans(v.tm, n, r);
    if r.xperms.Some? {
      hide KeyInRange, XFails, Pairs, Walked, HasRows;
      forall s: nat, t: nat ensures (s, t) in Pairs(v.tm, n, r) <==> Walked(v.tm, n, r, s, t) { WalkedMeans(v.tm, n, r, s, t); }
      assert SomePairFails(v, n, r, conditional, true) <==> exists s: nat, t: nat :: WalkedFails(v, n, r, conditional, s, t) by {
        if s: nat, t: nat :| WalkedFails(v, n, r, conditional, s, t) { assert (s, t) in Pairs(v.tm, n, r); }
        if i: nat, j: nat :| (i, j) in Pairs(v.tm, n, r) && HasRows(v.tm, i, j) && XFails(v, i, j, n.key.tclass, XRuleOf(r), conditional, true) {
          assert WalkedFails(v, n, r, conditional, i, j);
        }
      }
    }
    hide HitsPerms, EntryMatches, SomePair, SomePairFails, PlainPair, OtherPair, WalkedFails, Has;
  }

  // ---------------------------------------------------------------- counting

  ghost function UnionUpTo<T(!new)>(n: nat, parts: nat -> set<T>): set<T> {
    if n == 0 then {} else UnionUpTo(n - 1, parts) + parts(n - 1)
  }

  lemma {:induction false} UnionMember<T(!new)>(n: nat, parts: nat -> set<T>, e: T)
    ensures e in UnionUpTo(n, parts) <==> exists k: nat :: k < n && e in parts(k)
  {
    if n > 0 {
      UnionMember(n - 1, parts, e);
      if k: nat :| k < n && e in parts(k) { assert k < n - 1 || k == n - 1; }
    }
  }

  /** A sum of sizes of disjoint sets is the size of their union. */
  lemma {:induction false} SumOfSizes<T(!new)>(n: nat, f: nat -> nat, parts: nat -> set<T>)
    requires forall k: nat :: k < n ==> f(k) == |parts(k)|
    requires forall j: nat, k: nat :: j < k < n ==> parts(j) !! parts(k)
    ensures Sum(n, f) == |UnionUpTo(n, parts)|
  {
    if n > 0 {
      SumOfSizes(n - 1, f, parts);
      var a, b := UnionUpTo(n - 1, parts), parts(n - 1);
      forall e | e in a ensures e !in b {
        UnionMember(n - 1, parts, e);
        var k: nat :| k < n - 1 && e in parts(k);
        assert parts(k) !! parts(n - 1);
      }
      assert a !! b;
    }
  }

  /** One failure reported for a pair: a list in the table or on a branch, or the permission itself. */
  datatype Report =
    | TableReport(x: nat, y: nat, p: nat)
    | BranchReport(x: nat, y: nat, k: nat, side: bool, j: nat)
    | PlainReport

  /** The `j`-th rule of a branch is for the key, has no forbidden permission and a forbidden list. */
  ghost predicate ClashAt(pool: seq<Node>, list: seq<nat>, j: nat, x: nat, y: nat, c: nat, r: XRule) {
    && j < |list| && list[j] < |pool| && OnKey(pool[list[j]], x, y, c)
    && !HasForbidden(r, pool[list[j]], false) && HasForbiddenList(r, pool[list[j]])
  }

  ghost predicate ClashLinked(v: View, p: nat, x: nat, y: nat, c: nat, r: XRule) {
    Linked(v.teTable, p) && p < |v.tePool| && OnKey(v.tePool[p], x, y, c) && HasForbiddenList(r, v.tePool[p])
  }

  /** What is reported for a pair. */
  ghost predicate IsReport(v: View, s: nat, t: nat, c: nat, r: XRule, conditional: bool, e: Report)
    requires v.tm.InRange() && HasRows(v.tm, s, t)
  {
    match e
    case TableReport(x, y, p) => Covers(v, s, t, x, y) && ClashLinked(v, p, x, y, c, r)
    case BranchReport(x, y, k, side, j) => Covers(v, s, t, x, y) && k < |v.conds| && ClashAt(v.pool, ListOf(v.conds[k], side), j, x, y, c, r)
    case PlainReport =>
      || (conditional && exists x: nat, y: nat :: Covers(v, s, t, x, y) && KeyBare(v, x, y, c, r, false))
      || (!conditional && !exists x: nat, y: nat :: Covers(v, s, t, x, y) && KeyListed(v, x, y, c, r, false))
  }

  ghost function BranchReports(v: View, x: nat, y: nat, c: nat, r: XRule, k: nat, side: bool): nat -> set<Report>
    requires k < |v.conds|
  {
    (j: nat) => if ClashAt(v.pool, ListOf(v.conds[k], side), j, x, y, c, r) then {BranchReport(x, y, k, side, j)} else {}
  }

  ghost function SideReports(v: View, x: nat, y: nat, c: nat, r: XRule, k: nat, side: bool): set<Report>
    requires k < |v.conds|
  {
    UnionUpTo(|ListOf(v.conds[k], side)|, BranchReports(v, x, y, c, r, k, side))
  }

  ghost function CondReports(v: View, x: nat, y: nat, c: nat, r: XRule): nat -> set<Report> {
    (k: nat) => if k < |v.conds| then SideReports(v, x, y, c, r, k, true) + SideReports(v, x, y, c, r, k, false) else {}
  }

  ghost function TableReports(v: View, x: nat, y: nat, c: nat, r: XRule): set<Report> {
    set p: nat | p < |v.tePool| && ClashLinked(v, p, x, y, c, r) :: TableReport(x, y, p)
  }

  ghost function KeyReports(v: View, x: nat, y: nat, c: nat, r: XRule): set<Report> {
    TableReports(v, x, y, c, r) + UnionUpTo(|v.conds|, CondReports(v, x, y, c, r))
  }

  ghost function RowReports(v: View, t: nat, c: nat, r: XRule, x: nat): nat -> set<Report>
    requires v.tm.InRange() && t < v.tm.Nprim()
  {
    (y: nat) => if y in v.tm.typeAttr[t] then KeyReports(v, x, y, c, r) else {}
  }

  ghost function PairReports(v: View, s: nat, t: nat, c: nat, r: XRule): nat -> set<Report>
    requires v.tm.InRange() && HasRows(v.tm, s, t)
  {
    (x: nat) => if x in v.tm.typeAttr[s] then UnionUpTo(v.tm.Nprim(), RowReports(v, t, c, r, x)) else {}
  }

  /** All that is reported for a pair. */
  ghost function Reports(v: View, s: nat, t: nat, c: nat, r: XRule, conditional: bool): set<Report>
    requires v.tm.InRange() && HasRows(v.tm, s, t)
  {
    UnionUpTo(v.tm.Nprim(), PairReports(v, s, t, c, r)) + if IsReport(v, s, t, c, r, conditional, PlainReport) then {PlainReport} else {}
  }

  lemma ClashIs(pool: seq<Node>, list: seq<nat>, j: nat, x: nat, y: nat, c: nat, r: XRule)
    ensures j < |list| && At(pool, list, j, XKey(x, y, c), r, Clashing, false) <==> ClashAt(pool, list, j, x, y, c, r)
  {
    hide IsBase, HasForbidden, ListsKnown, HasForbiddenList, Has;
    if j < |list| && list[j] < |pool| {
      BaseIs(r, pool[list[j]], false);
      ListIs(r, pool[list[j]]);
    }
  }

  lemma SideCounted(v: View, x: nat, y: nat, c: nat, r: XRule, k: nat, side: bool)
    requires k < |v.conds|
    ensures BranchErrors(v.pool, ListOf(v.conds[k], side), XKey(x, y, c), r) == |SideReports(v, x, y, c, r, k, side)|
  {
    var list := ListOf(v.conds[k], side);
    var f, parts := BranchClash(v.pool, list, XKey(x, y, c), r), BranchReports(v, x, y, c, r, k, side);
    hide At, ClashAt, Sum, UnionUpTo;
    forall j: nat | j < |list| ensures f(j) == |parts(j)| { ClashIs(v.pool, list, j, x, y, c, r); }
    SumOfSizes(|list|, f, parts);
  }

  lemma SideMembers(v: View, x: nat, y: nat, c: nat, r: XRule, k: nat, side: bool, e: Report)
    requires k < |v.conds|
    ensures e in SideReports(v, x, y, c, r, k, side) <==>
      e.BranchReport? && e.x == x && e.y == y && e.k == k && e.side == side && ClashAt(v.pool, ListOf(v.conds[k], side), e.j, x, y, c, r)
  {
    hide ClashAt, UnionUpTo;
    var list, parts := ListOf(v.conds[k], side), BranchReports(v, x, y, c, r, k, side);
    UnionMember(|list|, parts, e);
    if e.BranchReport? && ClashAt(v.pool, list, e.j, x, y, c, r) {
      ClashInside(v.pool, list, e.j, x, y, c, r);
      assert parts(e.j) == {BranchReport(x, y, k, side, e.j)};
    }
  }

  lemma ClashInside(pool: seq<Node>, list: seq<nat>, j: nat, x: nat, y: nat, c: nat, r: XRule)
    requires ClashAt(pool, list, j, x, y, c, r)
    ensures j < |list|
  {
  }

  lemma KeyMembers(v: View, x: nat, y: nat, c: nat, r: XRule, e: Report)
    ensures e in KeyReports(v, x, y, c, r) <==> (match e
      case TableReport(x', y', p) => x' == x && y' == y && ClashLinked(v, p, x, y, c, r)
      case BranchReport(x', y', k, side, j) => x' == x && y' == y && k < |v.conds| && ClashAt(v.pool, ListOf(v.conds[k], side), j, x, y, c, r)
      case PlainReport => false)
  {
    hide ClashAt, OnKey, HasForbiddenList, Linked, UnionUpTo, SideReports;
    var parts := CondReports(v, x, y, c, r);
    UnionMember(|v.conds|, parts, e);
    forall k: nat, side | k < |v.conds|
      ensures e in SideReports(v, x, y, c, r, k, side) <==>
        e.BranchReport? && e.x == x && e.y == y && e.k == k && e.side == side && ClashAt(v.pool, ListOf(v.conds[k], side), e.j, x, y, c, r)
    {
      SideMembers(v, x, y, c, r, k, side, e);
    }
    if e.BranchReport? && e.k < |v.conds| && e in SideReports(v, x, y, c, r, e.k, e.side) { assert e in parts(e.k); }
  }

  lemma {:induction false} TaggedSize(all: set<nat>, x: nat, y: nat)
    ensures |set p: nat | p in all :: TableReport(x, y, p)| == |all|
  {
    var image := set p: nat | p in all :: TableReport(x, y, p);
    if all == {} {
      assert image == {};
    } else {
      var p :| p in all;
      TaggedSize(all - {p}, x, y);
      assert image == (set q: nat | q in all - {p} :: TableReport(x, y, q)) + {TableReport(x, y, p)};
    }
  }

  lemma TableCounted(v: View, x: nat, y: nat, c: nat, r: XRule)
    ensures |TableClashes(v.tePool, v.teTable, XKey(x, y, c), r)| == |TableReports(v, x, y, c, r)|
  {
    var all := TableClashes(v.tePool, v.teTable, XKey(x, y, c), r);
    hide ListsKnown, Matches, Linked, OnKey, HasForbiddenList, Has;
    forall p: nat | p < |v.tePool| ensures p in all <==> ClashLinked(v, p, x, y, c, r) {
      SearchedIs(v.tePool[p], x, y, c);
      ListIs(r, v.tePool[p]);
    }
    TaggedSize(all, x, y);
    hide ClashLinked, TableClashes;
    assert TableReports(v, x, y, c, r) == set p: nat | p in all :: TableReport(x, y, p);
  }

  lemma CondCounted(v: View, x: nat, y: nat, c: nat, r: XRule)
    ensures Sum(|v.conds|, CondErrors(v, XKey(x, y, c), r)) == |UnionUpTo(|v.conds|, CondReports(v, x, y, c, r))|
  {
    var f, parts := CondErrors(v, XKey(x, y, c), r), CondReports(v, x, y, c, r);
    hide BranchErrors, SideReports, Sum, UnionUpTo, ClashAt;
    forall k: nat | k < |v.conds| ensures f(k) == |parts(k)| && forall e :: e in parts(k) ==> e.BranchReport? && e.k == k {
      SideCounted(v, x, y, c, r, k, true);
      SideCounted(v, x, y, c, r, k, false);
      var a, b := SideReports(v, x, y, c, r, k, true), SideReports(v, x, y, c, r, k, false);
      forall e | e in a ensures e.BranchReport? && e.k == k && e.side { SideMembers(v, x, y, c, r, k, true, e); }
      forall e | e in b ensures e.BranchReport? && e.k == k && !e.side { SideMembers(v, x, y, c, r, k, false, e); }
      assert a !! b;
    }
    SumOfSizes(|v.conds|, f, parts);
  }

  lemma KeyCounted(v: View, x: nat, y: nat, c: nat, r: XRule)
    ensures KeyErrors(v, XKey(x, y, c), r) == |KeyReports(v, x, y, c, r)|
  {
    var conds := UnionUpTo(|v.conds|, CondReports(v, x, y, c, r));
    TableCounted(v, x, y, c, r);
    CondCounted(v, x, y, c, r);
    hide TableClashes, Sum, UnionUpTo, ClashLinked;
    forall e | e in conds ensures e.BranchReport? { CondBranch(v, x, y, c, r, e); }
    assert TableReports(v, x, y, c, r) !! conds;
  }

  lemma CondBranch(v: View, x: nat, y: nat, c: nat, r: XRule, e: Report)
    requires e in UnionUpTo(|v.conds|, CondReports(v, x, y, c, r))
    ensures e.BranchReport?
  {
    hide UnionUpTo, SideReports;
    UnionMember(|v.conds|, CondReports(v, x, y, c, r), e);
    var k: nat :| k < |v.conds| && e in CondReports(v, x, y, c, r)(k);
    SideMembers(v, x, y, c, r, k, true, e);
    SideMembers(v, x, y, c, r, k, false, e);
  }

  lemma RowCounted(v: View, t: nat, c: nat, r: XRule, x: nat)
    requires v.tm.InRange() && t < v.tm.Nprim()
    ensures Sum(v.tm.Nprim(), RowErrors(v, t, c, r, x)) == |UnionUpTo(v.tm.Nprim(), RowReports(v, t, c, r, x))|
  {
    var f, parts := RowErrors(v, t, c, r, x), RowReports(v, t, c, r, x);
    hide KeyErrors, KeyReports, Sum, UnionUpTo;
    forall y: nat ensures f(y) == |parts(y)| && forall e :: e in parts(y) ==> !e.PlainReport? && e.x == x && e.y == y {
      KeyCounted(v, x, y, c, r);
      forall e | e in parts(y) ensures !e.PlainReport? && e.x == x && e.y == y { KeyMembers(v, x, y, c, r, e); }
    }
    SumOfSizes(v.tm.Nprim(), f, parts);
  }

  lemma RowMembers(v: View, t: nat, c: nat, r: XRule, x: nat, e: Report)
    requires v.tm.InRange() && t < v.tm.Nprim()
    ensures e in UnionUpTo(v.tm.Nprim(), RowReports(v, t, c, r, x)) <==>
      !e.PlainReport? && e.x == x && e.y in v.tm.typeAttr[t] && e in KeyReports(v, x, e.y, c, r)
  {
    hide KeyReports, UnionUpTo;
    var parts := RowReports(v, t, c, r, x);
    UnionMember(v.tm.Nprim(), parts, e);
    forall y: nat | e in KeyReports(v, x, y, c, r) ensures !e.PlainReport? && e.x == x && e.y == y { KeyMembers(v, x, y, c, r, e); }
    if !e.PlainReport? && e.y in v.tm.typeAttr[t] && e in KeyReports(v, x, e.y, c, r) { assert e in parts(e.y); }
  }

  /** The failures counted for a pair are as many as what is reported for it. */
  lemma {:induction false} PairCounted(v: View, s: nat, t: nat, c: nat, r: XRule, conditional: bool)
    requires v.tm.InRange() && HasRows(v.tm, s, t)
    ensures XErrors(v, s, t, c, r, conditional) == |Reports(v, s, t, c, r, conditional)|
    ensures forall e :: e in Reports(v, s, t, c, r, conditional) <==> IsReport(v, s, t, c, r, conditional, e)
  {
    hide *;
    forall e ensures e in Reports(v, s, t, c, r, conditional) <==> IsReport(v, s, t, c, r, conditional, e) {
      PairMembers(v, s, t, c, r, conditional, e);
    }
    PairSizes(v, s, t, c, r);
    PlainMeans(v, s, t, c, r, conditional);
    ReportsParts(v, s, t, c, r, conditional);
  }

  lemma PlainMeans(v: View, s: nat, t: nat, c: nat, r: XRule, conditional: bool)
    requires v.tm.InRange() && HasRows(v.tm, s, t)
    ensures PlainFailure(v, s, t, c, r, conditional) <==> IsReport(v, s, t, c, r, conditional, PlainReport)
  {
    hide Found, KeyListed, KeyBare;
    forall x: nat, y: nat
      ensures Found(v, XKey(x, y, c), r, Listed, false) <==> KeyListed(v, x, y, c, r, false)
      ensures Found(v, XKey(x, y, c), r, Conflict, false) <==> KeyBare(v, x, y, c, r, false)
    {
      KeyMeans(v, x, y, c, r, false);
    }
  }

  lemma ReportsParts(v: View, s: nat, t: nat, c: nat, r: XRule, conditional: bool)
    requires v.tm.InRange() && HasRows(v.tm, s, t)
    requires Sum(v.tm.Nprim(), PairErrors(v, s, t, c, r)) == |UnionUpTo(v.tm.Nprim(), PairReports(v, s, t, c, r))|
    requires PlainReport !in UnionUpTo(v.tm.Nprim(), PairReports(v, s, t, c, r))
    requires PlainFailure(v, s, t, c, r, conditional) <==> IsReport(v, s, t, c, r, conditional, PlainReport)
    ensures XErrors(v, s, t, c, r, conditional) == |Reports(v, s, t, c, r, conditional)|
  {
    hide Sum, UnionUpTo, PlainFailure, IsReport;
  }

  lemma PairSizes(v: View, s: nat, t: nat, c: nat, r: XRule)
    requires v.tm.InRange() && HasRows(v.tm, s, t)
    ensures Sum(v.tm.Nprim(), PairErrors(v, s, t, c, r)) == |UnionUpTo(v.tm.Nprim(), PairReports(v, s, t, c, r))|
    ensures PlainReport !in UnionUpTo(v.tm.Nprim(), PairReports(v, s, t, c, r))
  {
    var f, parts := PairErrors(v, s, t, c, r), PairReports(v, s, t, c, r);
    hide RowErrors, RowReports, Sum, UnionUpTo;
    forall x: nat ensures f(x) == |parts(x)| && forall e: Report :: e in parts(x) ==> !e.PlainReport? && e.x == x {
      RowCounted(v, t, c, r, x);
      forall e: Report | e in parts(x) ensures !e.PlainReport? && e.x == x { RowMembers(v, t, c, r, x, e); }
    }
    SumOfSizes(v.tm.Nprim(), f, parts);
    UnionMember(v.tm.Nprim(), parts, PlainReport);
  }

  lemma PairMembers(v: View, s: nat, t: nat, c: nat, r: XRule, conditional: bool, e: Report)
    requires v.tm.InRange() && HasRows(v.tm, s, t)
    ensures e in Reports(v, s, t, c, r, conditional) <==> IsReport(v, s, t, c, r, conditional, e)
  {
    hide KeyReports, UnionUpTo, RowReports, ClashLinked, ClashAt, KeyListed, KeyBare;
    var parts := PairReports(v, s, t, c, r);
    UnionMember(v.tm.Nprim(), parts, e);
    forall x: nat
      ensures e in UnionUpTo(v.tm.Nprim(), RowReports(v, t, c, r, x)) <==>
        !e.PlainReport? && e.x == x && e.y in v.tm.typeAttr[t] && e in KeyReports(v, x, e.y, c, r)
    {
      RowMembers(v, t, c, r, x, e);
    }
    if !e.PlainReport? {
      KeyMembers(v, e.x, e.y, c, r, e);
      if e.x in v.tm.typeAttr[s] { assert parts(e.x) == UnionUpTo(v.tm.Nprim(), RowReports(v, t, c, r, e.x)); }
    }
  }

  // ---------------------------------------------------------------- the failures of an entry

  /** One failure of an entry: a report for a pair walked. */
  datatype Failure = Failure(s: nat, t: nat, e: Report)

  /** A plain rule reports each pair once, an extended one what it finds for it. */
  ghost predicate IsFailure(v: View, n: Node, r: NeverRule, conditional: bool, f: Failure)
    requires KeyInRange(v.tm, n)
  {
    && Walked(v.tm, n, r, f.s, f.t) && HasRows(v.tm, f.s, f.t)
    && if r.xperms.None? then f.e == PlainReport else IsReport(v, f.s, f.t, n.key.tclass, XRuleOf(r), conditional, f.e)
  }

  ghost function ReportsOf(v: View, n: Node, r: NeverRule, conditional: bool, i: nat, j: nat): set<Report>
    requires v.tm.InRange() && HasRows(v.tm, i, j)
  {
    if r.xperms.None? then {PlainReport} else Reports(v, i, j, n.key.tclass, XRuleOf(r), conditional)
  }

  ghost function Tagged(i: nat, j: nat, reports: set<Report>): set<Failure> {
    set e | e in reports :: Failure(i, j, e)
  }

  lemma {:induction false} TagSize(i: nat, j: nat, reports: set<Report>)
    ensures |Tagged(i, j, reports)| == |reports|
  {
    if reports != {} {
      var e :| e in reports;
      TagSize(i, j, reports - {e});
      assert Tagged(i, j, reports) == Tagged(i, j, reports - {e}) + {Failure(i, j, e)};
    }
  }

  ghost function RowFailures(v: View, n: Node, r: NeverRule, conditional: bool, i: nat): nat -> set<Failure>
    requires KeyInRange(v.tm, n)
  {
    (j: nat) => if (i, j) in Pairs(v.tm, n, r) && HasRows(v.tm, i, j) then Tagged(i, j, ReportsOf(v, n, r, conditional, i, j)) else {}
  }

  ghost function GridFailures(v: View, n: Node, r: NeverRule, conditional: bool): nat -> set<Failure>
    requires KeyInRange(v.tm, n)
  {
    (i: nat) => UnionUpTo(v.tm.Nprim(), RowFailures(v, n, r, conditional, i))
  }

  /** All failures of an entry for one permission set. */
  ghost function FailureSet(v: View, n: Node, r: NeverRule, conditional: bool): set<Failure>
    requires KeyInRange(v.tm, n)
  {
    UnionUpTo(v.tm.Nprim(), GridFailures(v, n, r, conditional))
  }

  lemma WeightCounted(v: View, n: Node, r: NeverRule, conditional: bool, i: nat, j: nat)
    requires v.tm.InRange() && HasRows(v.tm, i, j)
    ensures Weight(v, n, r, conditional, i, j) == |Tagged(i, j, ReportsOf(v, n, r, conditional, i, j))|
  {
    hide Tagged, Reports, XErrors;
    TagSize(i, j, ReportsOf(v, n, r, conditional, i, j));
    if r.xperms.Some? { PairCounted(v, i, j, n.key.tclass, XRuleOf(r), conditional); }
  }

  lemma CellSize(v: View, n: Node, r: NeverRule, conditional: bool, i: nat, j: nat)
    requires KeyInRange(v.tm, n)
    ensures RowWeights(v, n, r, conditional, i)(j) == |RowFailures(v, n, r, conditional, i)(j)|
    ensures forall f: Failure :: f in RowFailures(v, n, r, conditional, i)(j) ==> f.s == i && f.t == j && j < v.tm.Nprim()
  {
    hide Weight, ReportsOf, Pairs;
    if HasRows(v.tm, i, j) { WeightCounted(v, n, r, conditional, i, j); }
  }

  lemma RowSizes(v: View, n: Node, r: NeverRule, conditional: bool, i: nat)
    requires KeyInRange(v.tm, n)
    ensures Sum(v.tm.Nprim(), RowWeights(v, n, r, conditional, i)) == |UnionUpTo(v.tm.Nprim(), RowFailures(v, n, r, conditional, i))|
    ensures forall f: Failure :: f in UnionUpTo(v.tm.Nprim(), RowFailures(v, n, r, conditional, i)) <==> f.s == i && f in RowFailures(v, n, r, conditional, i)(f.t)
  {
    var w, parts := RowWeights(v, n, r, conditional, i), RowFailures(v, n, r, conditional, i);
    hide RowWeights, RowFailures, Sum, UnionUpTo;
    forall j: nat ensures w(j) == |parts(j)| && forall f: Failure :: f in parts(j) ==> f.s == i && f.t == j && j < v.tm.Nprim() {
      CellSize(v, n, r, conditional, i, j);
    }
    SumOfSizes(v.tm.Nprim(), w, parts);
    forall f: Failure ensures f in UnionUpTo(v.tm.Nprim(), parts) <==> f.s == i && f in parts(f.t) { UnionMember(v.tm.Nprim(), parts, f); }
  }

  lemma GridSizes(v: View, n: Node, r: NeverRule, conditional: bool)
    requires KeyInRange(v.tm, n)
    ensures PairsWeight(v, n, r, conditional) == |FailureSet(v, n, r, conditional)|
    ensures forall f: Failure :: f in FailureSet(v, n, r, conditional) <==> f.s < v.tm.Nprim() && f in RowFailures(v, n, r, conditional, f.s)(f.t)
  {
    var w, parts := GridWeights(v, n, r, conditional), GridFailures(v, n, r, conditional);
    hide RowWeights, RowFailures, Sum, UnionUpTo;
    forall i: nat ensures w(i) == |parts(i)| && forall f: Failure :: f in parts(i) <==> f.s == i && f in RowFailures(v, n, r, conditional, i)(f.t) {
      RowSizes(v, n, r, conditional, i);
    }
    SumOfSizes(v.tm.Nprim(), w, parts);
    forall f: Failure ensures f in FailureSet(v, n, r, conditional) <==> f.s < v.tm.Nprim() && f in RowFailures(v, n, r, conditional, f.s)(f.t) {
      UnionMember(v.tm.Nprim(), parts, f);
      if f.s < v.tm.Nprim() && f in RowFailures(v, n, r, conditional, f.s)(f.t) { assert f in parts(f.s); }
    }
  }

  lemma FailureMembers(v: View, n: Node, r: NeverRule, conditional: bool, f: Failure)
    requires KeyInRange(v.tm, n)
    ensures f.s < v.tm.Nprim() && f in RowFailures(v, n, r, conditional, f.s)(f.t) <==> IsFailure(v, n, r, conditional, f)
  {
    hide Pairs, Walked, Reports, IsReport;
    WalkedMeans(v.tm, n, r, f.s, f.t);
    if HasRows(v.tm, f.s, f.t) && r.xperms.Some? { PairCounted(v, f.s, f.t, n.key.tclass, XRuleOf(r), conditional); }
  }

  /** How many permission sets of the rule match the entry. */
  ghost function MatchingSets(r: NeverRule, n: Node): set<nat> {
    set k: nat | k < |r.perms| && SetMatches(r.perms[k], n)
  }

  lemma {:induction false} HitsCounted(perms: seq<ClassPerm>, n: Node)
    ensures PermHits(perms, n.key.tclass, n.datum.data) == |set k: nat | k < |perms| && SetMatches(perms[k], n)|
    decreases |perms|
  {
    hide Meets, SharesBit;
    var all := set k: nat | k < |perms| && SetMatches(perms[k], n);
    if perms == [] {
      assert all == {};
    } else {
      var m := |perms| - 1;
      HitsCounted(perms[..m], n);
      SharesIs(perms[m].data, n.datum.data);
      var less := set k: nat | k < m && SetMatches(perms[..m][k], n);
      assert all == if SetMatches(perms[m], n) then less + {m} else less;
    }
  }

  /**
     The failures counted for an entry: none unless it is an allow rule; else as many as there
     are pairs of a matching permission set and a failure.
   */
  lemma {:induction false} FailuresCounted(v: View, n: Node, r: NeverRule, conditional: bool)
    requires KeyInRange(v.tm, n)
    ensures Failures(v, n, r, conditional) ==
      if n.key.specified & 1 != 0 then |MatchingSets(r, n)| * |FailureSet(v, n, r, conditional)| else 0
    ensures forall f: Failure :: f in FailureSet(v, n, r, conditional) <==> IsFailure(v, n, r, conditional, f)
  {
    HitsCounted(r.perms, n);
    FlagsAre(n.key.specified);
    GridSizes(v, n, r, conditional);
    forall f: Failure ensures f in FailureSet(v, n, r, conditional) <==> IsFailure(v, n, r, conditional, f) { FailureMembers(v, n, r, conditional, f); }
    hide Has, PermHits, PairsWeight, SetMatches, FailureSet, IsFailure, RowFailures;
  }

  /** Lists add up entry by entry, tables chain by chain. */
  lemma {:induction false} CountsAdd(v: View, pool: seq<Node>, a: seq<nat>, b: seq<nat>, r: NeverRule, conditional: bool)
    requires AllInRange(v.tm, pool) && InPool(pool, a) && InPool(pool, b) && InPool(pool, a + b)
    ensures ListFailures(v, pool, [], r, conditional) == 0
    ensures |a| == 1 ==> KeyInRange(v.tm, pool[a[0]]) && ListFailures(v, pool, a, r, conditional) == Failures(v, pool[a[0]], r, conditional)
    ensures ListFailures(v, pool, a + b, r, conditional) == ListFailures(v, pool, a, r, conditional) + ListFailures(v, pool, b, r, conditional)
    decreases |b|
  {
    hide Failures;
    if b == [] {
      assert a + b == a;
    } else {
      var n := |b| - 1;
      assert (a + b)[..|a + b| - 1] == a + b[..n];
      CountsAdd(v, pool, a, b[..n], r, conditional);
    }
  }

  ghost predicate ChainsFit(pool: seq<Node>, htable: seq<seq<nat>>) {
    forall i :: 0 <= i < |htable| ==> InPool(pool, htable[i])
  }

  lemma {:induction false} ChainsAdd(v: View, pool: seq<Node>, a: seq<seq<nat>>, b: seq<seq<nat>>, r: NeverRule, conditional: bool)
    requires AllInRange(v.tm, pool) && ChainsFit(pool, a) && ChainsFit(pool, b) && ChainsFit(pool, a + b)
    ensures TableFailures(v, pool, [], r, conditional) == 0
    ensures |a| == 1 ==> TableFailures(v, pool, a, r, conditional) == ListFailures(v, pool, a[0], r, conditional)
    ensures TableFailures(v, pool, a + b, r, conditional) == TableFailures(v, pool, a, r, conditional) + TableFailures(v, pool, b, r, conditional)
    decreases |b|
  {
    hide ListFailures;
    if b == [] {
      assert a + b == a;
    } else {
      var n := |b| - 1;
      assert (a + b)[..|a + b| - 1] == a + b[..n];
      ChainsAdd(v, pool, a, b[..n], r, conditional);
    }
  }
}
