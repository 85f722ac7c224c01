/**
 Neverallow rules on extended permissions (src/assertion.c): for a pair of types to which a
 forbidden permission is allowed, whether every source of that permission comes with
 extended-permission rules, and none of these grants what the neverallow rule lists.
 */
module NeverXperms {
  import opened Prelude
  import opened Masks
  import opened Avtab
  import opened TypeMaps
  import opened AccessDecision
  import opened CondExpr
  import opened PolicyDb

  datatype ClassPerm = ClassPerm(tclass: nat, data: bv32)

  predicate Hits(perms: seq<ClassPerm>, tclass: nat, data: bv32) {
    exists k :: 0 <= k < |perms| && perms[k].tclass == tclass && Meets(perms[k].data, data)
  }

  method MatchAnyClassPermissions(perms: seq<ClassPerm>, tclass: nat, data: bv32) returns (b: bool)
    ensures b <==> exists k :: 0 <= k < |perms| && perms[k].tclass == tclass && Meets(perms[k].data, data)
  {
    hide Meets;
    for k := 0 to |perms|
      invariant forall j :: 0 <= j < k ==> !(perms[j].tclass == tclass && Meets(perms[j].data, data))
    {
      if perms[k].tclass == tclass && Meets(perms[k].data, data) { return true; }
    }
    b := false;
  }

  // ---------------------------------------------------------------- two lists of extended permissions

  predicate Known(x: Xperms) {
    x.specified == IOCTLFUNCTION || x.specified == IOCTLDRIVER || x.specified == NLMSG
  }

  ghost predicate Common(p: seq<bv32>, q: seq<bv32>)
    requires |p| == |q| == 8
  {
    exists i: nat :: i < 256 && PermBit(p, i) && PermBit(q, i)
  }

  /** The neverallow list and the allowed list have something in common, as the check sees it. */
  ghost predicate Clash(never: Xperms, allow: Xperms) {
    || (never.specified == allow.specified == IOCTLFUNCTION && never.driver == allow.driver && Common(never.perms, allow.perms))
    || (never.specified == IOCTLFUNCTION && allow.specified == IOCTLDRIVER && PermBit(allow.perms, never.driver))
    || (never.specified == IOCTLDRIVER && allow.specified == IOCTLFUNCTION && PermBit(never.perms, allow.driver))
    || (never.specified == allow.specified == IOCTLDRIVER && Common(never.perms, allow.perms))
    || (never.specified == allow.specified == NLMSG && never.driver == allow.driver && Common(never.perms, allow.perms))
  }

  lemma WordsShare(p: seq<bv32>, q: seq<bv32>)
    requires |p| == |q| == 8
    ensures Common(p, q) <==> exists k: nat :: k < 8 && Meets(p[k], q[k])
  {
    hide Meets, Single;
    if i: nat :| i < 256 && PermBit(p, i) && PermBit(q, i) {
      SharedBit(p[i / 32], q[i / 32]);
      assert BitSet(p[i / 32], i % 32) && BitSet(q[i / 32], i % 32);
    }
    if k: nat :| k < 8 && Meets(p[k], q[k]) {
      SharedBit(p[k], q[k]);
      var bit: nat :| BitSet(p[k], bit) && BitSet(q[k], bit);
      assert (32 * k + bit) / 32 == k && (32 * k + bit) % 32 == bit;
      assert PermBit(p, 32 * k + bit) && PermBit(q, 32 * k + bit);
    }
  }

  /** Some word of both lists has a bit in common. */
  ghost predicate ShareWord(p: seq<bv32>, q: seq<bv32>)
    requires |p| == |q| == 8
  {
    exists k: nat :: k < 8 && p[k] & q[k] != 0
  }

  lemma WordsShared(p: seq<bv32>, q: seq<bv32>)
    requires |p| == |q| == 8
    ensures Common(p, q) <==> ShareWord(p, q)
  {
    hide Common;
    WordsShare(p, q);
  }

  method ExtendedPermissionsAnd(p: seq<bv32>, q: seq<bv32>) returns (b: bool)
    requires |p| == |q| == 8
    ensures b <==> Common(p, q)
  {
    WordsShare(p, q);
    hide Meets, PermBit;
    for k := 0 to 8
      invariant forall j: nat :: j < k ==> !Meets(p[j], q[j])
    {
      if Meets(p[k], q[k]) { return true; }
    }
    b := false;
  }

  method CheckExtendedPermissions(never: Xperms, allow: Xperms) returns (rc: bool)
    ensures rc <==> Clash(never, allow)
    ensures never.specified == 1 && allow.specified == 1 ==> (rc <==> never.driver == allow.driver && ShareWord(never.perms, allow.perms))
    ensures never.specified == 2 && allow.specified == 2 ==> (rc <==> ShareWord(never.perms, allow.perms))
    ensures never.specified == 3 && allow.specified == 3 ==> (rc <==> never.driver == allow.driver && ShareWord(never.perms, allow.perms))
    ensures never.specified == 1 && allow.specified == 2 ==>
      forall w: nat, b: nat :: OneWord(allow.perms, w, b) ==> (rc <==> never.driver == 32 * w + b)
    ensures never.specified == 2 && allow.specified == 1 ==>
      forall w: nat, b: nat :: OneWord(never.perms, w, b) ==> (rc <==> allow.driver == 32 * w + b)
    ensures rc ==> (never.specified, allow.specified) in {(1, 1), (2, 2), (3, 3), (1, 2), (2, 1)}
  {
    hide PermBit, Common, ShareWord, OneWord;
    WordsShared(never.perms, allow.perms);
    forall w: nat, b: nat | OneWord(allow.perms, w, b) ensures PermBit(allow.perms, never.driver) <==> never.driver == 32 * w + b {
      OneWordLists(allow.perms, w, b, never.driver);
    }
    forall w: nat, b: nat | OneWord(never.perms, w, b) ensures PermBit(never.perms, allow.driver) <==> allow.driver == 32 * w + b {
      OneWordLists(never.perms, w, b, allow.driver);
    }
    rc := false;
    if never.specified == IOCTLFUNCTION && allow.specified == IOCTLFUNCTION {
      if never.driver == allow.driver { rc := ExtendedPermissionsAnd(never.perms, allow.perms); }
    } else if never.specified == IOCTLFUNCTION && allow.specified == IOCTLDRIVER {
      rc := PermBit(allow.perms, never.driver);
    } else if never.specified == IOCTLDRIVER && allow.specified == IOCTLFUNCTION {
      rc := PermBit(never.perms, allow.driver);
    } else if never.specified == IOCTLDRIVER && allow.specified == IOCTLDRIVER {
      rc := ExtendedPermissionsAnd(never.perms, allow.perms);
    } else if never.specified == NLMSG && allow.specified == NLMSG {
      if never.driver == allow.driver { rc := ExtendedPermissionsAnd(never.perms, allow.perms); }
    }
  }

  /** Some extended permission is on both lists. */
  ghost predicate BothGrant(never: Xperms, allow: Xperms) {
    exists q: Query :: (q.Ioctl? || q.Nlmsg?) && XAnswers(never, q) && XAnswers(allow, q)
  }

  /** A function list that lists nothing under a driver. */
  ghost predicate Hollow(x: Xperms) {
    x.specified == IOCTLFUNCTION && forall i: nat :: i < 256 ==> !PermBit(x.perms, i)
  }

  /**
     Lists with an extended permission in common clash. The converse fails only for a function
     list that is empty, which clashes with a list of its whole driver.
   */
  lemma ClashExactly(never: Xperms, allow: Xperms)
    ensures BothGrant(never, allow) ==> Clash(never, allow)
    ensures Clash(never, allow) ==> BothGrant(never, allow) || Hollow(never) || Hollow(allow)
  {
    hide PermBit;
    if q: Query :| (q.Ioctl? || q.Nlmsg?) && XAnswers(never, q) && XAnswers(allow, q) {
      var same := PermBit(never.perms, q.function_) && PermBit(allow.perms, q.function_);
      var drivers := PermBit(never.perms, q.driver) && PermBit(allow.perms, q.driver);
    }
    if Clash(never, allow) && !Hollow(never) && !Hollow(allow) {
      if never.specified == IOCTLFUNCTION && allow.specified == IOCTLDRIVER {
        var i: nat :| i < 256 && PermBit(never.perms, i);
        assert XAnswers(never, Ioctl(XAllow, never.driver, i)) && XAnswers(allow, Ioctl(XAllow, never.driver, i));
      } else if never.specified == IOCTLDRIVER && allow.specified == IOCTLFUNCTION {
        var i: nat :| i < 256 && PermBit(allow.perms, i);
        assert XAnswers(never, Ioctl(XAllow, allow.driver, i)) && XAnswers(allow, Ioctl(XAllow, allow.driver, i));
      } else {
        var i: nat :| i < 256 && PermBit(never.perms, i) && PermBit(allow.perms, i);
        var q := if never.specified == NLMSG then Nlmsg(XAllow, never.driver, i)
                 else if never.specified == IOCTLDRIVER then Ioctl(XAllow, i, 0)
                 else Ioctl(XAllow, never.driver, i);
        assert XAnswers(never, q) && XAnswers(allow, q);
      }
    }
  }

  // ---------------------------------------------------------------- what is found for one key

  /** The permissions and the extended permissions a rule forbids. */
  datatype XRule = XRule(perms: seq<ClassPerm>, never: Xperms)

  /** What a rule of a branch counts as: it allows a forbidden permission, it lists extended ones, or forbidden ones. */
  datatype Part = Base | Listing | Clashing

  /** The report, unlike the check, does not ask whether the rule is an allow rule. */
  predicate IsBase(r: XRule, n: Node, strict: bool) {
    (strict ==> Has(n.key.specified, ALLOWED)) && Hits(r.perms, n.key.tclass, n.datum.data)
  }

  ghost predicate ListsKnown(r: XRule, part: Part, n: Node) {
    && n.datum.xperms.Some? && Known(n.datum.xperms.value)
    && (part == Clashing ==> Clash(r.never, n.datum.xperms.value))
  }

  ghost predicate Plays(r: XRule, part: Part, n: Node, strict: bool) {
    if part == Base then IsBase(r, n, strict)
    else !IsBase(r, n, strict) && Has(n.key.specified, XPERMS_ALLOWED) && ListsKnown(r, part, n)
  }

  ghost predicate Present(pool: seq<Node>, list: seq<nat>, key: Key, r: XRule, part: Part, strict: bool) {
    exists p: nat :: p in list && p < |pool| && SameTriple(pool[p].key, key) && Plays(r, part, pool[p], strict)
  }

  /** The key of extended rules for one type or attribute each. */
  function XKey(x: nat, y: nat, c: nat): Key {
    Key(x + 1, y + 1, c, XPERMS_ALLOWED)
  }

  ghost predicate InTable(pool: seq<Node>, htable: seq<seq<nat>>, key: Key, r: XRule, part: Part) {
    exists p: nat :: Hit(pool, htable, key, p) && ListsKnown(r, part, pool[p])
  }

  /** The rules of a policy, as values. */
  datatype View = View(tm: TypeMaps, tePool: seq<Node>, teTable: seq<seq<nat>>, pool: seq<Node>, conds: seq<CondNode>)

  /**
     What is looked for: a forbidden extended permission is listed; an extended rule is there
     whatever the branches; a branch allows the permission and has no extended rule.
   */
  datatype Finding = Forbidden | Listed | Conflict

  ghost predicate Bare(pool: seq<Node>, list: seq<nat>, key: Key, r: XRule, strict: bool) {
    Present(pool, list, key, r, Base, strict) && !Present(pool, list, key, r, Listing, strict)
  }

  ghost predicate CondFinds(pool: seq<Node>, cn: CondNode, key: Key, r: XRule, f: Finding, strict: bool) {
    match f
    case Forbidden => Present(pool, cn.trueList, key, r, Clashing, strict) || Present(pool, cn.falseList, key, r, Clashing, strict)
    case Listed => Present(pool, cn.trueList, key, r, Listing, strict) && Present(pool, cn.falseList, key, r, Listing, strict)
    case Conflict => Bare(pool, cn.trueList, key, r, strict) || Bare(pool, cn.falseList, key, r, strict)
  }

  ghost predicate TableFinds(v: View, key: Key, r: XRule, f: Finding) {
    match f
    case Forbidden => InTable(v.tePool, v.teTable, key, r, Clashing)
    case Listed => InTable(v.tePool, v.teTable, key, r, Listing)
    case Conflict => false
  }

  /** Found in the table or in one of the first `k` conditionals. */
  ghost predicate FoundUpTo(v: View, k: nat, key: Key, r: XRule, f: Finding, strict: bool)
    requires k <= |v.conds|
  {
    TableFinds(v, key, r, f) || exists j :: 0 <= j < k && CondFinds(v.pool, v.conds[j], key, r, f, strict)
  }

  ghost predicate Found(v: View, key: Key, r: XRule, f: Finding, strict: bool) {
    FoundUpTo(v, |v.conds|, key, r, f, strict)
  }

  /** Walks one branch until a clash is found; what allows the permission is not asked for its list. */
  method ScanBranch(pool: seq<Node>, list: seq<nat>, key: Key, r: XRule) returns (bad: bool, base: bool, lists: bool)
    requires InPool(pool, list) && forall p :: 0 <= p < |pool| ==> XpermsThere(pool[p])
    ensures bad <==> Present(pool, list, key, r, Clashing, true)
    ensures !bad ==> (base <==> Present(pool, list, key, r, Base, true)) && (lists <==> Present(pool, list, key, r, Listing, true))
  {
    hide Has, Clash, Known, Present, Seen;
    SeenNothing(pool, list, key, r, true);
    SeenAll(pool, list, key, r, true);
    bad, base, lists := false, false, false;
    for k := 0 to |list|
      invariant !Seen(pool, list, k, key, r, Clashing, true)
      invariant base <==> Seen(pool, list, k, key, r, Base, true)
      invariant lists <==> Seen(pool, list, k, key, r, Listing, true)
    {
      var n := pool[list[k]];
      SeenStep(pool, list, k, key, r, true);
      if !SameTriple(n.key, key) { continue; }
      var hit := MatchAnyClassPermissions(r.perms, n.key.tclass, n.datum.data);
      if Has(n.key.specified, ALLOWED) && hit {
        base := true;
        continue;
      }
      if !Has(n.key.specified, XPERMS_ALLOWED) || !Known(n.datum.xperms.value) { continue; }
      lists := true;
      bad := CheckExtendedPermissions(r.never, n.datum.xperms.value);
      if bad {
        SeenMore(pool, list, k + 1, key, r, Clashing, true);
        return;
      }
    }
  }

  /** An extended rule has its list. */
  predicate XpermsThere(n: Node) {
    Has(n.key.specified, XPERMS_ALLOWED) ==> n.datum.xperms.Some?
  }

  ghost predicate At(pool: seq<Node>, list: seq<nat>, j: nat, key: Key, r: XRule, part: Part, strict: bool)
    requires j < |list|
  {
    list[j] < |pool| && SameTriple(pool[list[j]].key, key) && Plays(r, part, pool[list[j]], strict)
  }

  /** Among the first `k` rules of a branch. */
  ghost predicate Seen(pool: seq<Node>, list: seq<nat>, k: nat, key: Key, r: XRule, part: Part, strict: bool)
    requires k <= |list|
  {
    exists j :: 0 <= j < k && At(pool, list, j, key, r, part, strict)
  }

  lemma SeenNothing(pool: seq<Node>, list: seq<nat>, key: Key, r: XRule, strict: bool)
    ensures forall part :: !Seen(pool, list, 0, key, r, part, strict)
  {
  }

  lemma SeenStep(pool: seq<Node>, list: seq<nat>, k: nat, key: Key, r: XRule, strict: bool)
    requires k < |list|
    ensures forall part :: Seen(pool, list, k + 1, key, r, part, strict) <==>
      Seen(pool, list, k, key, r, part, strict) || At(pool, list, k, key, r, part, strict)
  {
    hide At;
  }

  lemma SeenMore(pool: seq<Node>, list: seq<nat>, k: nat, key: Key, r: XRule, part: Part, strict: bool)
    requires k <= |list| && Seen(pool, list, k, key, r, part, strict)
    ensures Present(pool, list, key, r, part, strict)
  {
    var j :| 0 <= j < k && At(pool, list, j, key, r, part, strict);
    assert list[j] in list;
  }

  lemma SeenAll(pool: seq<Node>, list: seq<nat>, key: Key, r: XRule, strict: bool)
    ensures forall part :: Seen(pool, list, |list|, key, r, part, strict) <==> Present(pool, list, key, r, part, strict)
  {
    hide Plays;
    forall part ensures Seen(pool, list, |list|, key, r, part, strict) <==> Present(pool, list, key, r, part, strict) {
      if p: nat :| p in list && p < |pool| && SameTriple(pool[p].key, key) && Plays(r, part, pool[p], strict) {
        var j :| 0 <= j < |list| && list[j] == p;
        assert At(pool, list, j, key, r, part, strict);
      }
      if Seen(pool, list, |list|, key, r, part, strict) { SeenMore(pool, list, |list|, key, r, part, strict); }
    }
  }

  // ---------------------------------------------------------------- one key, and one pair of types

  ghost function ViewOf(db: PolicyDb): View
    reads db, db.te, db.teCond
  {
    View(db.tm, db.te.pool, db.te.htable, db.teCond.pool, db.condList)
  }

  ghost predicate ViewOk(v: View) {
    && v.tm.InRange() && AllLists(v.pool, v.conds)
    && (forall p :: 0 <= p < |v.pool| ==> XpermsThere(v.pool[p]))
    && (forall p :: 0 <= p < |v.tePool| ==> XpermsThere(v.tePool[p]))
  }

  lemma ViewFits(db: PolicyDb)
    requires db.Valid()
    ensures ViewOk(ViewOf(db)) && db.te.Valid()
  {
    PolicyInRange(db);
    forall n: Node | RuleOk(db.tm, n) ensures XpermsThere(n) { XpermsOwned(db.tm, n); }
    hide XpermsThere, RuleOk, AllLists;
  }

  lemma XpermsOwned(tm: TypeMaps, n: Node)
    requires RuleOk(tm, n)
    ensures XpermsThere(n)
  {
    var k :| OfKind(n.key.specified, k);
    if Has(n.key.specified, XPERMS_ALLOWED) {
      AllowedListIsExtended(n.key.specified, k);
      KindFacts(n.key.specified, k);
    }
  }

  lemma AllowedListIsExtended(x: bv16, k: Kind)
    requires OfKind(x, k) && Has(x, XPERMS_ALLOWED)
    ensures IsX(k)
  {
  }

  /** Among the first `k` rules a search yields. */
  ghost predicate Yielded(pool: seq<Node>, ps: seq<nat>, k: nat, r: XRule, part: Part)
    requires k <= |ps|
  {
    exists j :: 0 <= j < k && ps[j] < |pool| && ListsKnown(r, part, pool[ps[j]])
  }

  lemma YieldedNothing(pool: seq<Node>, ps: seq<nat>, r: XRule)
    ensures forall part :: !Yielded(pool, ps, 0, r, part)
  {
  }

  lemma YieldedStep(pool: seq<Node>, ps: seq<nat>, k: nat, r: XRule)
    requires k < |ps| && ps[k] < |pool|
    ensures forall part :: Yielded(pool, ps, k + 1, r, part) <==> Yielded(pool, ps, k, r, part) || ListsKnown(r, part, pool[ps[k]])
  {
    hide ListsKnown;
  }

  lemma YieldedMore(pool: seq<Node>, htable: seq<seq<nat>>, ps: seq<nat>, k: nat, key: Key, r: XRule, part: Part)
    requires k <= |ps| && Yielded(pool, ps, k, r, part) && forall p: nat :: p in ps <==> Hit(pool, htable, key, p)
    ensures InTable(pool, htable, key, r, part)
  {
    hide ListsKnown, Hit;
    var j :| 0 <= j < k && ps[j] < |pool| && ListsKnown(r, part, pool[ps[j]]);
    assert ps[j] in ps;
  }

  lemma YieldedAll(pool: seq<Node>, htable: seq<seq<nat>>, ps: seq<nat>, key: Key, r: XRule)
    requires forall p: nat :: p in ps <==> Hit(pool, htable, key, p)
    ensures forall part :: Yielded(pool, ps, |ps|, r, part) <==> InTable(pool, htable, key, r, part)
  {
    hide ListsKnown, Matches, Linked;
    forall part ensures Yielded(pool, ps, |ps|, r, part) <==> InTable(pool, htable, key, r, part) {
      if p: nat :| Hit(pool, htable, key, p) && ListsKnown(r, part, pool[p]) {
        var j :| 0 <= j < |ps| && ps[j] == p;
      }
      if Yielded(pool, ps, |ps|, r, part) { YieldedMore(pool, htable, ps, |ps|, key, r, part); }
    }
  }

  /** A rule that a search yields is there and has its list. */
  lemma YieldedNode(v: View, ps: seq<nat>, k: nat, key: Key)
    requires ViewOk(v) && k < |ps| && key.specified == XPERMS_ALLOWED && forall p: nat :: p in ps <==> Hit(v.tePool, v.teTable, key, p)
    ensures ps[k] < |v.tePool| && v.tePool[ps[k]].datum.xperms.Some?
  {
    assert ps[k] in ps;
    SearchedExtended(key, v.tePool[ps[k]]);
  }

  lemma KnownIs(r: XRule, n: Node)
    requires n.datum.xperms.Some?
    ensures ListsKnown(r, Listing, n) <==> Known(n.datum.xperms.value)
    ensures ListsKnown(r, Clashing, n) <==> Known(n.datum.xperms.value) && Clash(r.never, n.datum.xperms.value)
  {
  }

  /** The unconditional rules of one key. */
  method ScanTable(db: PolicyDb, key: Key, r: XRule) returns (bad: bool, listed: bool)
    requires db.Valid() && key.specified == XPERMS_ALLOWED
    ensures bad <==> InTable(db.te.pool, db.te.htable, key, r, Clashing)
    ensures !bad ==> (listed <==> InTable(db.te.pool, db.te.htable, key, r, Listing))
  {
    hide *;
    ViewFits(db);
    ViewParts(db);
    bad, listed := false, false;
    var ps := db.te.Enumerate(key);
    YieldedNothing(db.te.pool, ps, r);
    YieldedAll(db.te.pool, db.te.htable, ps, key, r);
    for k := 0 to |ps|
      invariant !Yielded(db.te.pool, ps, k, r, Clashing)
      invariant listed <==> Yielded(db.te.pool, ps, k, r, Listing)
    {
      YieldedNode(ViewOf(db), ps, k, key);
      YieldedStep(db.te.pool, ps, k, r);
      KnownIs(r, db.te.pool[ps[k]]);
      var x := db.te.pool[ps[k]].datum.xperms.value;
      if !Known(x) { continue; }
      listed := true;
      bad := CheckExtendedPermissions(r.never, x);
      if bad {
        YieldedMore(db.te.pool, db.te.htable, ps, k + 1, key, r, Clashing);
        return;
      }
    }
  }

  lemma SearchedExtended(key: Key, n: Node)
    requires Matches(key, n.key) && key.specified == XPERMS_ALLOWED
    ensures XpermsThere(n) ==> n.datum.xperms.Some?
  {
    assert XPERMS_ALLOWED & !ENABLED == XPERMS_ALLOWED;
    assert XPERMS_ALLOWED & n.key.specified == n.key.specified & XPERMS_ALLOWED;
  }

  /** Everything about one key: the table, then both branches of each conditional. */
  method ScanKey(db: PolicyDb, key: Key, r: XRule) returns (bad: bool, listed: bool, conflict: bool)
    requires db.Valid() && key.specified == XPERMS_ALLOWED
    ensures bad <==> Found(ViewOf(db), key, r, Forbidden, true)
    ensures !bad ==> (listed <==> Found(ViewOf(db), key, r, Listed, true)) && (conflict <==> Found(ViewOf(db), key, r, Conflict, true))
  {
    hide *;
    ghost var v := ViewOf(db);
    ViewFits(db);
    ViewParts(db);
    conflict := false;
    bad, listed := ScanTable(db, key, r);
    FoundStart(v, key, r, true);
    if bad { FoundAll(v, 0, key, r, Forbidden, true); return; }
    for k := 0 to |db.condList|
      invariant !FoundUpTo(v, k, key, r, Forbidden, true)
      invariant listed <==> FoundUpTo(v, k, key, r, Listed, true)
      invariant conflict <==> FoundUpTo(v, k, key, r, Conflict, true)
    {
      var cn := db.condList[k];
      BranchesOk(v, k);
      FoundStep(v, k, key, r, true);
      CondIs(v.pool, v.conds[k], key, r, true);
      var badT, baseT, listsT := ScanBranch(db.teCond.pool, cn.trueList, key, r);
      if badT { bad := true; FoundAll(v, k + 1, key, r, Forbidden, true); return; }
      var badF, baseF, listsF := ScanBranch(db.teCond.pool, cn.falseList, key, r);
      if badF { bad := true; FoundAll(v, k + 1, key, r, Forbidden, true); return; }
      if listsT && listsF {
        listed := true;
      } else if (baseT && !listsT) || (baseF && !listsF) {
        conflict := true;
      }
    }
    FoundWhole(v, key, r, true);
  }

  lemma ViewParts(db: PolicyDb)
    ensures ViewOf(db).tePool == db.te.pool && ViewOf(db).teTable == db.te.htable && ViewOf(db).tm == db.tm
    ensures ViewOf(db).pool == db.teCond.pool && ViewOf(db).conds == db.condList
  {
  }

  lemma BranchesOk(v: View, k: nat)
    requires ViewOk(v) && k < |v.conds|
    ensures InPool(v.pool, v.conds[k].trueList) && InPool(v.pool, v.conds[k].falseList)
    ensures forall p :: 0 <= p < |v.pool| ==> XpermsThere(v.pool[p])
  {
    assert ListsInRange(v.pool, v.conds[k]);
  }

  lemma FoundStart(v: View, key: Key, r: XRule, strict: bool)
    ensures FoundUpTo(v, 0, key, r, Forbidden, strict) <==> InTable(v.tePool, v.teTable, key, r, Clashing)
    ensures FoundUpTo(v, 0, key, r, Listed, strict) <==> InTable(v.tePool, v.teTable, key, r, Listing)
    ensures !FoundUpTo(v, 0, key, r, Conflict, strict)
  {
  }

  lemma FoundStep(v: View, k: nat, key: Key, r: XRule, strict: bool)
    requires k < |v.conds|
    ensures forall f :: FoundUpTo(v, k + 1, key, r, f, strict) <==>
      FoundUpTo(v, k, key, r, f, strict) || CondFinds(v.pool, v.conds[k], key, r, f, strict)
  {
    hide CondFinds, TableFinds;
  }

  lemma FoundAll(v: View, k: nat, key: Key, r: XRule, f: Finding, strict: bool)
    requires k <= |v.conds| && FoundUpTo(v, k, key, r, f, strict)
    ensures Found(v, key, r, f, strict)
  {
    hide CondFinds, TableFinds;
  }

  lemma FoundWhole(v: View, key: Key, r: XRule, strict: bool)
    ensures forall f :: FoundUpTo(v, |v.conds|, key, r, f, strict) <==> Found(v, key, r, f, strict)
  {
    hide FoundUpTo;
  }

  lemma CondIs(pool: seq<Node>, cn: CondNode, key: Key, r: XRule, strict: bool)
    ensures var bt, lt, bf, lf := Present(pool, cn.trueList, key, r, Base, strict), Present(pool, cn.trueList, key, r, Listing, strict),
                                  Present(pool, cn.falseList, key, r, Base, strict), Present(pool, cn.falseList, key, r, Listing, strict);
      && (CondFinds(pool, cn, key, r, Listed, strict) <==> lt && lf)
      && (CondFinds(pool, cn, key, r, Conflict, strict) <==> (bt && !lt) || (bf && !lf))
    ensures CondFinds(pool, cn, key, r, Forbidden, strict) <==>
      Present(pool, cn.trueList, key, r, Clashing, strict) || Present(pool, cn.falseList, key, r, Clashing, strict)
  {
    hide Present;
  }

  /** Both types have rows. */
  predicate HasRows(tm: TypeMaps, s: nat, t: nat)
    requires tm.InRange()
  {
    s < tm.Nprim() && t < tm.Nprim()
  }

  /** For some key of the pair, in the rows before `i` and in row `i` before `j`. */
  ghost predicate PairUpTo(v: View, s: nat, t: nat, c: nat, r: XRule, f: Finding, strict: bool, i: nat, j: nat)
    requires v.tm.InRange() && HasRows(v.tm, s, t)
  {
    exists x: nat, y: nat :: x in v.tm.typeAttr[s] && y in v.tm.typeAttr[t] && (x < i || (x == i && y < j)) &&
      Found(v, XKey(x, y, c), r, f, strict)
  }

  ghost predicate PairFinds(v: View, s: nat, t: nat, c: nat, r: XRule, f: Finding, strict: bool)
    requires v.tm.InRange() && HasRows(v.tm, s, t)
  {
    exists x: nat, y: nat :: x in v.tm.typeAttr[s] && y in v.tm.typeAttr[t] && Found(v, XKey(x, y, c), r, f, strict)
  }

  /** The pair fails the rule, for a permission allowed unconditionally or by a conditional rule. */
  ghost predicate XFails(v: View, s: nat, t: nat, c: nat, r: XRule, conditional: bool, strict: bool)
    requires v.tm.InRange() && HasRows(v.tm, s, t)
  {
    || PairFinds(v, s, t, c, r, Forbidden, strict)
    || (if conditional then PairFinds(v, s, t, c, r, Conflict, strict) else !PairFinds(v, s, t, c, r, Listed, strict))
  }

  lemma PairStart(v: View, s: nat, t: nat, c: nat, r: XRule, strict: bool)
    requires v.tm.InRange() && HasRows(v.tm, s, t)
    ensures forall f :: !PairUpTo(v, s, t, c, r, f, strict, 0, 0)
  {
  }

  lemma PairStep(v: View, s: nat, t: nat, c: nat, r: XRule, strict: bool, i: nat, j: nat)
    requires v.tm.InRange() && HasRows(v.tm, s, t) && i in v.tm.typeAttr[s]
    ensures forall f :: PairUpTo(v, s, t, c, r, f, strict, i, j + 1) <==>
      PairUpTo(v, s, t, c, r, f, strict, i, j) || (j in v.tm.typeAttr[t] && Found(v, XKey(i, j, c), r, f, strict))
  {
    hide Found;
  }

  lemma PairRow(v: View, s: nat, t: nat, c: nat, r: XRule, strict: bool, i: nat)
    requires v.tm.InRange() && HasRows(v.tm, s, t)
    ensures forall f :: PairUpTo(v, s, t, c, r, f, strict, i, v.tm.Nprim()) <==> PairUpTo(v, s, t, c, r, f, strict, i + 1, 0)
    ensures i !in v.tm.typeAttr[s] ==>
      forall f :: PairUpTo(v, s, t, c, r, f, strict, i, 0) <==> PairUpTo(v, s, t, c, r, f, strict, i + 1, 0)
  {
    hide Found;
  }

  lemma PairWhole(v: View, s: nat, t: nat, c: nat, r: XRule, strict: bool)
    requires v.tm.InRange() && HasRows(v.tm, s, t)
    ensures forall f :: PairUpTo(v, s, t, c, r, f, strict, v.tm.Nprim(), 0) <==> PairFinds(v, s, t, c, r, f, strict)
  {
    hide Found;
  }

  lemma PairMore(v: View, s: nat, t: nat, c: nat, r: XRule, strict: bool, x: nat, y: nat)
    requires v.tm.InRange() && HasRows(v.tm, s, t) && x in v.tm.typeAttr[s] && y in v.tm.typeAttr[t]
    requires Found(v, XKey(x, y, c), r, Forbidden, strict)
    ensures PairFinds(v, s, t, c, r, Forbidden, strict)
  {
    hide Found;
  }

  lemma FailsIs(v: View, s: nat, t: nat, c: nat, r: XRule, conditional: bool, strict: bool)
    requires v.tm.InRange() && HasRows(v.tm, s, t)
    ensures XFails(v, s, t, c, r, conditional, strict) <==>
      || PairFinds(v, s, t, c, r, Forbidden, strict)
      || (!PairFinds(v, s, t, c, r, Listed, strict) && !conditional) || (conditional && PairFinds(v, s, t, c, r, Conflict, strict))
  {
    hide PairFinds;
  }

  lemma KeyIs(x: nat, y: nat, c: nat)
    ensures XKey(x, y, c).specified == XPERMS_ALLOWED
  {
  }

  lemma RowsThere(v: View, s: nat, t: nat)
    requires ViewOk(v) && HasRows(v.tm, s, t)
    ensures v.tm.InRange() && s < |v.tm.typeAttr| && t < |v.tm.typeAttr| && v.tm.Nprim() == |v.tm.typeAttr|
  {
  }

  /** Looks up every key that covers the pair. */
  method CheckAssertionExtendedPermissionsAvtab(db: PolicyDb, s: nat, t: nat, c: nat, r: XRule, conditional: bool) returns (b: bool)
    requires db.Valid() && ViewOk(ViewOf(db)) && HasRows(db.tm, s, t)
    ensures b <==> XFails(ViewOf(db), s, t, c, r, conditional, true)
  {
    hide *;
    ghost var v := ViewOf(db);
    ViewParts(db);
    RowsThere(v, s, t);
    PairStart(v, s, t, c, r, true);
    FailsIs(v, s, t, c, r, conditional, true);
    var foundXperm, foundConflict := false, false;
    for i := 0 to db.tm.Nprim()
      invariant !PairUpTo(v, s, t, c, r, Forbidden, true, i, 0)
      invariant foundXperm <==> PairUpTo(v, s, t, c, r, Listed, true, i, 0)
      invariant foundConflict <==> conditional && PairUpTo(v, s, t, c, r, Conflict, true, i, 0)
    {
      PairRow(v, s, t, c, r, true, i);
      if i !in db.tm.typeAttr[s] { continue; }
      for j := 0 to db.tm.Nprim()
        invariant !PairUpTo(v, s, t, c, r, Forbidden, true, i, j)
        invariant foundXperm <==> PairUpTo(v, s, t, c, r, Listed, true, i, j)
        invariant foundConflict <==> conditional && PairUpTo(v, s, t, c, r, Conflict, true, i, j)
      {
        PairStep(v, s, t, c, r, true, i, j);
        if j !in db.tm.typeAttr[t] { continue; }
        KeyIs(i, j, c);
        var bad, listed, conflict := ScanKey(db, XKey(i, j, c), r);
        if bad {
          PairMore(v, s, t, c, r, true, i, j);
          return true;
        }
        if listed { foundXperm := true; }
        if conditional && conflict { foundConflict := true; }
      }
    }
    PairWhole(v, s, t, c, r, true);
    b := (!conditional && !foundXperm) || foundConflict;
  }

  // ---------------------------------------------------------------- the report

  ghost function BranchClash(pool: seq<Node>, list: seq<nat>, key: Key, r: XRule): nat -> nat {
    (k: nat) => if k < |list| && At(pool, list, k, key, r, Clashing, false) then 1 else 0
  }

  ghost function TableClashes(pool: seq<Node>, htable: seq<seq<nat>>, key: Key, r: XRule): set<nat> {
    set p: nat | p < |pool| && Hit(pool, htable, key, p) && ListsKnown(r, Clashing, pool[p])
  }

  ghost function BranchErrors(pool: seq<Node>, list: seq<nat>, key: Key, r: XRule): nat {
    Sum(|list|, BranchClash(pool, list, key, r))
  }

  ghost function CondErrors(v: View, key: Key, r: XRule): nat -> nat {
    (k: nat) => if k < |v.conds| then BranchErrors(v.pool, v.conds[k].trueList, key, r) + BranchErrors(v.pool, v.conds[k].falseList, key, r) else 0
  }

  /** The failures reported for the extended rules of one key. */
  ghost function KeyErrors(v: View, key: Key, r: XRule): nat {
    |TableClashes(v.tePool, v.teTable, key, r)| + Sum(|v.conds|, CondErrors(v, key, r))
  }

  ghost function RowErrors(v: View, t: nat, c: nat, r: XRule, x: nat): nat -> nat
    requires v.tm.InRange() && t < v.tm.Nprim()
  {
    (y: nat) => if y in v.tm.typeAttr[t] then KeyErrors(v, XKey(x, y, c), r) else 0
  }

  ghost function PairErrors(v: View, s: nat, t: nat, c: nat, r: XRule): nat -> nat
    requires v.tm.InRange() && HasRows(v.tm, s, t)
  {
    (x: nat) => if x in v.tm.typeAttr[s] then Sum(v.tm.Nprim(), RowErrors(v, t, c, r, x)) else 0
  }

  /** The permission itself is reported. */
  ghost predicate PlainFailure(v: View, s: nat, t: nat, c: nat, r: XRule, conditional: bool)
    requires v.tm.InRange() && HasRows(v.tm, s, t)
  {
    if conditional then PairFinds(v, s, t, c, r, Conflict, false) else !PairFinds(v, s, t, c, r, Listed, false)
  }

  /** The failures reported for a pair. */
  ghost function XErrors(v: View, s: nat, t: nat, c: nat, r: XRule, conditional: bool): nat
    requires v.tm.InRange() && HasRows(v.tm, s, t)
  {
    Sum(v.tm.Nprim(), PairErrors(v, s, t, c, r)) + if PlainFailure(v, s, t, c, r, conditional) then 1 else 0
  }

  lemma BranchPositive(pool: seq<Node>, list: seq<nat>, key: Key, r: XRule)
    ensures BranchErrors(pool, list, key, r) > 0 <==> Present(pool, list, key, r, Clashing, false)
  {
    var f := BranchClash(pool, list, key, r);
    SumPositive(|list|, f);
    SeenAll(pool, list, key, r, false);
    hide At, Present, Sum;
    if k: nat :| k < |list| && f(k) > 0 { assert At(pool, list, k, key, r, Clashing, false); }
    if Seen(pool, list, |list|, key, r, Clashing, false) {
      var j :| 0 <= j < |list| && At(pool, list, j, key, r, Clashing, false);
      assert f(j) > 0;
    }
  }

  lemma TablePositive(v: View, key: Key, r: XRule)
    ensures |TableClashes(v.tePool, v.teTable, key, r)| > 0 <==> InTable(v.tePool, v.teTable, key, r, Clashing)
  {
    hide ListsKnown, Matches, Linked;
    var c := TableClashes(v.tePool, v.teTable, key, r);
    if |c| > 0 { var p :| p in c; }
    if p: nat :| Hit(v.tePool, v.teTable, key, p) && ListsKnown(r, Clashing, v.tePool[p]) { assert p in c; }
  }

  lemma KeyPositive(v: View, key: Key, r: XRule)
    ensures KeyErrors(v, key, r) > 0 <==> Found(v, key, r, Forbidden, false)
  {
    var f := CondErrors(v, key, r);
    SumPositive(|v.conds|, f);
    TablePositive(v, key, r);
    hide Sum, BranchErrors, InTable, TableClashes, Present;
    forall k: nat | k < |v.conds| ensures f(k) > 0 <==> CondFinds(v.pool, v.conds[k], key, r, Forbidden, false) {
      BranchPositive(v.pool, v.conds[k].trueList, key, r);
      BranchPositive(v.pool, v.conds[k].falseList, key, r);
    }
  }

  /** The report counts something exactly when the pair fails, with its wider notion of what allows the permission. */
  lemma XErrorsPositive(v: View, s: nat, t: nat, c: nat, r: XRule, conditional: bool)
    requires v.tm.InRange() && HasRows(v.tm, s, t)
    ensures XErrors(v, s, t, c, r, conditional) > 0 <==> XFails(v, s, t, c, r, conditional, false)
  {
    var n, f := v.tm.Nprim(), PairErrors(v, s, t, c, r);
    SumPositive(n, f);
    hide Sum, KeyErrors, Found;
    forall x: nat | x in v.tm.typeAttr[s] ensures f(x) > 0 <==> RowBad(v, t, c, r, x) {
      RowPositive(v, t, c, r, x);
    }
    if PairFinds(v, s, t, c, r, Forbidden, false) {
      var x: nat, y: nat :| x in v.tm.typeAttr[s] && y in v.tm.typeAttr[t] && Found(v, XKey(x, y, c), r, Forbidden, false);
      assert RowBad(v, t, c, r, x);
      assert f(x) > 0;
    }
    if x: nat :| x < n && f(x) > 0 { assert RowBad(v, t, c, r, x); }
  }

  ghost predicate RowBad(v: View, t: nat, c: nat, r: XRule, x: nat)
    requires v.tm.InRange() && t < v.tm.Nprim()
  {
    exists y: nat :: y in v.tm.typeAttr[t] && Found(v, XKey(x, y, c), r, Forbidden, false)
  }

  lemma RowPositive(v: View, t: nat, c: nat, r: XRule, x: nat)
    requires v.tm.InRange() && t < v.tm.Nprim()
    ensures Sum(v.tm.Nprim(), RowErrors(v, t, c, r, x)) > 0 <==> RowBad(v, t, c, r, x)
  {
    var n, f := v.tm.Nprim(), RowErrors(v, t, c, r, x);
    SumPositive(n, f);
    hide Sum, KeyErrors, Found;
    forall y: nat | y in v.tm.typeAttr[t] ensures f(y) > 0 <==> Found(v, XKey(x, y, c), r, Forbidden, false) {
      KeyPositive(v, XKey(x, y, c), r);
    }
    if y: nat :| y in v.tm.typeAttr[t] && Found(v, XKey(x, y, c), r, Forbidden, false) { assert f(y) > 0; }
    if y: nat :| y < n && f(y) > 0 { assert y in v.tm.typeAttr[t]; }
  }

  /** Extended rules carry no permission bits. */
  ghost predicate NoBits(pool: seq<Node>) {
    forall p :: 0 <= p < |pool| && Has(pool[p].key.specified, XPERMS_ALLOWED) ==> pool[p].datum.data == 0
  }

  /** What fails the check fails the report. */
  lemma ReportSeesMore(v: View, s: nat, t: nat, c: nat, r: XRule, conditional: bool)
    requires v.tm.InRange() && HasRows(v.tm, s, t) && NoBits(v.pool)
    ensures XFails(v, s, t, c, r, conditional, true) ==> XFails(v, s, t, c, r, conditional, false)
  {
    hide Found, HasRows;
    forall key, f ensures Found(v, key, r, f, true) ==> Found(v, key, r, f, false)
      ensures f != Conflict ==> (Found(v, key, r, f, true) <==> Found(v, key, r, f, false))
    {
      FoundLoosely(v, key, r, f);
    }
  }

  lemma FoundLoosely(v: View, key: Key, r: XRule, f: Finding)
    requires NoBits(v.pool)
    ensures Found(v, key, r, f, true) ==> Found(v, key, r, f, false)
    ensures f != Conflict ==> (Found(v, key, r, f, true) <==> Found(v, key, r, f, false))
  {
    hide Present, TableFinds;
    forall list: seq<nat>, part
      ensures Present(v.pool, list, key, r, part, true) ==> Present(v.pool, list, key, r, part, false)
      ensures part != Base ==> (Present(v.pool, list, key, r, part, true) <==> Present(v.pool, list, key, r, part, false))
    {
      PresentLoosely(v.pool, list, key, r, part);
    }
  }

  lemma PresentLoosely(pool: seq<Node>, list: seq<nat>, key: Key, r: XRule, part: Part)
    requires NoBits(pool)
    ensures Present(pool, list, key, r, part, true) ==> Present(pool, list, key, r, part, false)
    ensures part != Base ==> (Present(pool, list, key, r, part, true) <==> Present(pool, list, key, r, part, false))
  {
    hide Plays;
    forall p: nat | p < |pool|
      ensures Plays(r, part, pool[p], true) ==> Plays(r, part, pool[p], false)
      ensures part != Base ==> (Plays(r, part, pool[p], true) <==> Plays(r, part, pool[p], false))
    {
      PlaysLoosely(r, part, pool[p]);
    }
  }

  lemma PlaysLoosely(r: XRule, part: Part, n: Node)
    requires Has(n.key.specified, XPERMS_ALLOWED) ==> n.datum.data == 0
    ensures Plays(r, part, n, true) ==> Plays(r, part, n, false)
    ensures part != Base ==> (Plays(r, part, n, true) <==> Plays(r, part, n, false))
  {
    hide Meets, Has, ListsKnown;
    if n.datum.data == 0 {
      forall k | 0 <= k < |r.perms| ensures !Meets(r.perms[k].data, n.datum.data) {
        MeetsSymmetric(r.perms[k].data, n.datum.data);
        ZeroMeets(n.datum.data, r.perms[k].data);
      }
    }
  }

  /** Counts the clashes of one branch. */
  method ReportBranch(pool: seq<Node>, list: seq<nat>, key: Key, r: XRule) returns (errors: nat, base: bool, lists: bool)
    requires InPool(pool, list) && forall p :: 0 <= p < |pool| ==> XpermsThere(pool[p])
    ensures errors == BranchErrors(pool, list, key, r)
    ensures (base <==> Present(pool, list, key, r, Base, false)) && (lists <==> Present(pool, list, key, r, Listing, false))
  {
    hide Has, Clash, Known, Present, Seen;
    SeenNothing(pool, list, key, r, false);
    SeenAll(pool, list, key, r, false);
    errors, base, lists := 0, false, false;
    ghost var f := BranchClash(pool, list, key, r);
    for k := 0 to |list|
      invariant errors == Sum(k, f)
      invariant base <==> Seen(pool, list, k, key, r, Base, false)
      invariant lists <==> Seen(pool, list, k, key, r, Listing, false)
    {
      var n := pool[list[k]];
      SeenStep(pool, list, k, key, r, false);
      if !SameTriple(n.key, key) { continue; }
      var hit := MatchAnyClassPermissions(r.perms, n.key.tclass, n.datum.data);
      if hit {
        base := true;
        continue;
      }
      if !Has(n.key.specified, XPERMS_ALLOWED) || !Known(n.datum.xperms.value) { continue; }
      lists := true;
      var clash := CheckExtendedPermissions(r.never, n.datum.xperms.value);
      if clash { errors := errors + 1; }
    }
  }

  /** The clashing rules among the first `k` that a search yields. */
  ghost function YieldedClashes(pool: seq<Node>, ps: seq<nat>, k: nat, r: XRule): set<nat>
    requires k <= |ps|
  {
    set j | 0 <= j < k && ps[j] < |pool| && ListsKnown(r, Clashing, pool[ps[j]]) :: ps[j]
  }

  lemma ClashesStep(pool: seq<Node>, ps: seq<nat>, k: nat, r: XRule)
    requires k < |ps| && ps[k] < |pool| && NoDuplicates(ps)
    ensures |YieldedClashes(pool, ps, k + 1, r)| == |YieldedClashes(pool, ps, k, r)| + if ListsKnown(r, Clashing, pool[ps[k]]) then 1 else 0
  {
    hide ListsKnown;
    var a, b := YieldedClashes(pool, ps, k, r), YieldedClashes(pool, ps, k + 1, r);
    assert ps[k] !in a;
    assert b == if ListsKnown(r, Clashing, pool[ps[k]]) then a + {ps[k]} else a;
  }

  lemma ClashesAll(pool: seq<Node>, htable: seq<seq<nat>>, ps: seq<nat>, key: Key, r: XRule)
    requires forall p: nat :: p in ps <==> Hit(pool, htable, key, p)
    ensures YieldedClashes(pool, ps, 0, r) == {} && YieldedClashes(pool, ps, |ps|, r) == TableClashes(pool, htable, key, r)
  {
    hide ListsKnown, Matches, Linked;
    var a, b := YieldedClashes(pool, ps, |ps|, r), TableClashes(pool, htable, key, r);
    forall p ensures p in a <==> p in b {
      if p in b {
        assert p in ps;
        var j :| 0 <= j < |ps| && ps[j] == p;
      }
      if p in a { assert p in ps && Hit(pool, htable, key, p); }
    }
  }

  method ReportTable(db: PolicyDb, key: Key, r: XRule) returns (errors: nat, listed: bool)
    requires db.Valid() && key.specified == XPERMS_ALLOWED
    ensures errors == |TableClashes(db.te.pool, db.te.htable, key, r)|
    ensures listed <==> InTable(db.te.pool, db.te.htable, key, r, Listing)
  {
    hide *;
    ViewFits(db);
    ViewParts(db);
    errors, listed := 0, false;
    var ps := db.te.Enumerate(key);
    YieldedNothing(db.te.pool, ps, r);
    YieldedAll(db.te.pool, db.te.htable, ps, key, r);
    ClashesAll(db.te.pool, db.te.htable, ps, key, r);
    for k := 0 to |ps|
      invariant errors == |YieldedClashes(db.te.pool, ps, k, r)|
      invariant listed <==> Yielded(db.te.pool, ps, k, r, Listing)
    {
      YieldedNode(ViewOf(db), ps, k, key);
      YieldedStep(db.te.pool, ps, k, r);
      ClashesStep(db.te.pool, ps, k, r);
      KnownIs(r, db.te.pool[ps[k]]);
      var x := db.te.pool[ps[k]].datum.xperms.value;
      if !Known(x) { continue; }
      listed := true;
      var clash := CheckExtendedPermissions(r.never, x);
      if clash { errors := errors + 1; }
    }
  }

  method ReportKey(db: PolicyDb, key: Key, r: XRule) returns (errors: nat, listed: bool, conflict: bool)
    requires db.Valid() && key.specified == XPERMS_ALLOWED
    ensures errors == KeyErrors(ViewOf(db), key, r)
    ensures (listed <==> Found(ViewOf(db), key, r, Listed, false)) && (conflict <==> Found(ViewOf(db), key, r, Conflict, false))
  {
    hide *;
    ghost var v := ViewOf(db);
    ViewFits(db);
    ViewParts(db);
    conflict := false;
    errors, listed := ReportTable(db, key, r);
    FoundStart(v, key, r, false);
    KeyErrorsUpTo(v, key, r);
    for k := 0 to |db.condList|
      invariant errors == ErrorsUpTo(v, k, key, r)
      invariant listed <==> FoundUpTo(v, k, key, r, Listed, false)
      invariant conflict <==> FoundUpTo(v, k, key, r, Conflict, false)
    {
      var cn := db.condList[k];
      BranchesOk(v, k);
      FoundStep(v, k, key, r, false);
      CondIs(v.pool, v.conds[k], key, r, false);
      ErrorsStep(v, k, key, r);
      var errorsT, baseT, listsT := ReportBranch(db.teCond.pool, cn.trueList, key, r);
      var errorsF, baseF, listsF := ReportBranch(db.teCond.pool, cn.falseList, key, r);
      errors := errors + errorsT + errorsF;
      if listsT && listsF {
        listed := true;
      } else if (baseT && !listsT) || (baseF && !listsF) {
        conflict := true;
      }
    }
    FoundWhole(v, key, r, false);
  }

  ghost function ErrorsUpTo(v: View, k: nat, key: Key, r: XRule): nat {
    |TableClashes(v.tePool, v.teTable, key, r)| + Sum(k, CondErrors(v, key, r))
  }

  lemma KeyErrorsUpTo(v: View, key: Key, r: XRule)
    ensures ErrorsUpTo(v, 0, key, r) == |TableClashes(v.tePool, v.teTable, key, r)|
    ensures ErrorsUpTo(v, |v.conds|, key, r) == KeyErrors(v, key, r)
  {
  }

  lemma ErrorsStep(v: View, k: nat, key: Key, r: XRule)
    requires k < |v.conds|
    ensures ErrorsUpTo(v, k + 1, key, r) == ErrorsUpTo(v, k, key, r)
      + BranchErrors(v.pool, v.conds[k].trueList, key, r) + BranchErrors(v.pool, v.conds[k].falseList, key, r)
  {
    hide BranchErrors, TableClashes;
  }

  lemma RowErrorsStep(v: View, t: nat, c: nat, r: XRule, x: nat, j: nat)
    requires v.tm.InRange() && t < v.tm.Nprim()
    ensures Sum(0, RowErrors(v, t, c, r, x)) == 0
    ensures Sum(j + 1, RowErrors(v, t, c, r, x)) == Sum(j, RowErrors(v, t, c, r, x))
      + if j in v.tm.typeAttr[t] then KeyErrors(v, XKey(x, j, c), r) else 0
  {
    hide KeyErrors;
  }

  lemma PairErrorsStep(v: View, s: nat, t: nat, c: nat, r: XRule, i: nat)
    requires v.tm.InRange() && HasRows(v.tm, s, t)
    ensures Sum(0, PairErrors(v, s, t, c, r)) == 0
    ensures Sum(i + 1, PairErrors(v, s, t, c, r)) == Sum(i, PairErrors(v, s, t, c, r))
      + if i in v.tm.typeAttr[s] then Sum(v.tm.Nprim(), RowErrors(v, t, c, r, i)) else 0
  {
    hide RowErrors;
  }

  lemma XErrorsIs(v: View, s: nat, t: nat, c: nat, r: XRule, conditional: bool)
    requires v.tm.InRange() && HasRows(v.tm, s, t)
    ensures XErrors(v, s, t, c, r, conditional) == Sum(v.tm.Nprim(), PairErrors(v, s, t, c, r)) +
      if (!PairFinds(v, s, t, c, r, Listed, false) && !conditional) || (conditional && PairFinds(v, s, t, c, r, Conflict, false)) then 1 else 0
  {
    hide PairFinds, Sum;
  }

  /** Counts the failures of one pair. */
  method ReportAssertionExtendedPermissions(db: PolicyDb, s: nat, t: nat, c: nat, r: XRule, conditional: bool) returns (errors: nat)
    requires db.Valid() && ViewOk(ViewOf(db)) && HasRows(db.tm, s, t)
    ensures errors == XErrors(ViewOf(db), s, t, c, r, conditional)
  {
    hide *;
    ghost var v := ViewOf(db);
    ViewParts(db);
    RowsThere(v, s, t);
    PairStart(v, s, t, c, r, false);
    XErrorsIs(v, s, t, c, r, conditional);
    PairErrorsStep(v, s, t, c, r, 0);
    errors := 0;
    var foundXperm, foundConflict := false, false;
    for i := 0 to db.tm.Nprim()
      invariant errors == Sum(i, PairErrors(v, s, t, c, r))
      invariant foundXperm <==> PairUpTo(v, s, t, c, r, Listed, false, i, 0)
      invariant foundConflict <==> conditional && PairUpTo(v, s, t, c, r, Conflict, false, i, 0)
    {
      PairRow(v, s, t, c, r, false, i);
      PairErrorsStep(v, s, t, c, r, i);
      RowErrorsStep(v, t, c, r, i, 0);
      ghost var before := errors;
      if i !in db.tm.typeAttr[s] { continue; }
      for j := 0 to db.tm.Nprim()
        invariant errors == before + Sum(j, RowErrors(v, t, c, r, i))
        invariant foundXperm <==> PairUpTo(v, s, t, c, r, Listed, false, i, j)
        invariant foundConflict <==> conditional && PairUpTo(v, s, t, c, r, Conflict, false, i, j)
      {
        PairStep(v, s, t, c, r, false, i, j);
        RowErrorsStep(v, t, c, r, i, j);
        if j !in db.tm.typeAttr[t] { continue; }
        KeyIs(i, j, c);
        var more, listed, conflict := ReportKey(db, XKey(i, j, c), r);
        errors := errors + more;
        if listed { foundXperm := true; }
        if conditional && conflict { foundConflict := true; }
      }
    }
    PairWhole(v, s, t, c, r, false);
    if (!foundXperm && !conditional) || foundConflict { errors := errors + 1; }
  }

  // ---------------------------------------------------------------- soundness

  /** A permission the rule forbids is allowed to the pair. */
  ghost predicate Permits(db: PolicyDb, asg: seq<bool>, s: nat, t: nat, c: nat, r: XRule)
    requires db.Valid() && |asg| == |db.bools|
    reads db, db.te, db.teCond
  {
    exists k :: 0 <= k < |r.perms| && r.perms[k].tclass == c && db.Decides(asg, Access(s, t, c, Bits(Allow, r.perms[k].data)))
  }

  predicate IsXAsk(q: Query) {
    (q.Ioctl? || q.Nlmsg?) && q.kind == XAllow
  }

  /** An extended permission the rule lists is allowed to the pair. */
  ghost predicate PermitsListed(db: PolicyDb, asg: seq<bool>, s: nat, t: nat, c: nat, r: XRule)
    requires db.Valid() && |asg| == |db.bools|
    reads db, db.te, db.teCond
  {
    exists q: Query :: IsXAsk(q) && XAnswers(r.never, q) && db.Decides(asg, Access(s, t, c, q))
  }

  /**
     What the rule is to prevent: the permission is allowed, and a forbidden extended
     permission is too, or, for want of any extended rule, all of them are.
   */
  ghost predicate Violated(db: PolicyDb, asg: seq<bool>, s: nat, t: nat, c: nat, r: XRule)
    requires db.Valid() && |asg| == |db.bools|
    reads db, db.te, db.teCond
  {
    && Permits(db, asg, s, t, c, r)
    && (PermitsListed(db, asg, s, t, c, r) || !db.Decides(asg, Access(s, t, c, SomeXperm(XAllow))))
  }

  /** An entry that allows the pair a forbidden permission. */
  ghost predicate Entry(tm: TypeMaps, pool: seq<Node>, htable: seq<seq<nat>>, p: nat, s: nat, t: nat, c: nat, r: XRule)
    requires tm.InRange()
  {
    && Linked(htable, p) && p < |pool| && Has(pool[p].key.specified, ALLOWED)
    && Hits(r.perms, c, pool[p].datum.data) && tm.Concrete(s) && tm.Concrete(t) && tm.Applies(pool[p].key, s, t, c)
  }

  ghost predicate SomeEntry(tm: TypeMaps, pool: seq<Node>, htable: seq<seq<nat>>, s: nat, t: nat, c: nat, r: XRule)
    requires tm.InRange()
  {
    exists p: nat :: Entry(tm, pool, htable, p, s, t, c, r)
  }

  lemma ExtendedBits(x: bv16)
    requires OfKind(x, XAllow)
    ensures Has(x, XPERMS_ALLOWED) && !Has(x, ALLOWED) && Overlaps(XPERMS_ALLOWED, x)
  {
  }

  lemma ExtendedKind(x: bv16, k: Kind)
    requires OfKind(x, k) && (Has(x, XPERMS_ALLOWED) || Overlaps(XPERMS_ALLOWED, x))
    ensures k == XAllow
  {
  }

  lemma AllowKind(x: bv16, k: Kind)
    requires OfKind(x, k)
    ensures Has(x, ALLOWED) <==> k == Allow
  {
  }

  /** A rule that allows a listed extended permission clashes. */
  lemma SpeaksClashing(tm: TypeMaps, n: Node, s: nat, t: nat, c: nat, q: Query, r: XRule)
    requires tm.InRange() && Speaks(tm, n, Access(s, t, c, q)) && IsXAsk(q) && XAnswers(r.never, q)
    ensures Plays(r, Clashing, n, true) && ListsKnown(r, Clashing, n)
    ensures Matches(XKey(n.key.source - 1, n.key.target - 1, c), n.key)
  {
    ExtendedBits(n.key.specified);
    ClashExactly(r.never, n.datum.xperms.value);
    hide Clash, Has, Overlaps, Hits, OfKind;
  }

  /** A rule found for a key of the pair is an extended rule about the pair. */
  lemma ListedSpeaks(tm: TypeMaps, n: Node, x: nat, y: nat, s: nat, t: nat, c: nat)
    requires tm.InRange() && tm.Concrete(s) && tm.Concrete(t) && RuleOk(tm, n)
    requires x in tm.typeAttr[s] && y in tm.typeAttr[t] && SameTriple(n.key, XKey(x, y, c))
    requires Has(n.key.specified, XPERMS_ALLOWED) || Overlaps(XPERMS_ALLOWED, n.key.specified)
    ensures Speaks(tm, n, Access(s, t, c, SomeXperm(XAllow)))
  {
    var k :| OfKind(n.key.specified, k);
    ExtendedKind(n.key.specified, k);
    hide OfKind, Has, Overlaps;
  }

  lemma ActiveBranch(db: PolicyDb, asg: seq<bool>, k: nat, side: bool, p: nat, a: Access)
    requires db.Valid() && |asg| == |db.bools| && k < |db.condList|
    requires Evaluate(db.condList[k].expr, asg) == Defined(side) && p in ListOf(db.condList[k], side)
    requires p < |db.teCond.pool| && Speaks(db.tm, db.teCond.pool[p], a)
    ensures db.Decides(asg, a)
  {
    hide Speaks, Evaluate;
    assert ListDecides(db.tm, db.teCond.pool, Branch(db.condList[k], Evaluate(db.condList[k].expr, asg)), a);
  }

  lemma PresentDecides(db: PolicyDb, asg: seq<bool>, k: nat, side: bool, x: nat, y: nat, s: nat, t: nat, c: nat, r: XRule)
    requires db.Valid() && |asg| == |db.bools| && k < |db.condList| && db.tm.Concrete(s) && db.tm.Concrete(t)
    requires Evaluate(db.condList[k].expr, asg) == Defined(side)
    requires x in db.tm.typeAttr[s] && y in db.tm.typeAttr[t]
    requires Present(db.teCond.pool, ListOf(db.condList[k], side), XKey(x, y, c), r, Listing, true)
    ensures db.Decides(asg, Access(s, t, c, SomeXperm(XAllow)))
  {
    var p: nat :| p in ListOf(db.condList[k], side) && p < |db.teCond.pool|
      && SameTriple(db.teCond.pool[p].key, XKey(x, y, c)) && Plays(r, Listing, db.teCond.pool[p], true);
    assert RuleOk(db.tm, db.teCond.pool[p]);
    hide PolicyDb.Valid, PolicyDb.Decides, Evaluate, Speaks, ListsKnown, IsBase, Overlaps;
    ViewFits(db);
    ListedSpeaks(db.tm, db.teCond.pool[p], x, y, s, t, c);
    ActiveBranch(db, asg, k, side, p, Access(s, t, c, SomeXperm(XAllow)));
  }

  lemma InTableDecides(db: PolicyDb, asg: seq<bool>, x: nat, y: nat, s: nat, t: nat, c: nat, r: XRule)
    requires db.Valid() && |asg| == |db.bools| && db.tm.Concrete(s) && db.tm.Concrete(t)
    requires x in db.tm.typeAttr[s] && y in db.tm.typeAttr[t]
    requires InTable(db.te.pool, db.te.htable, XKey(x, y, c), r, Listing)
    ensures db.Decides(asg, Access(s, t, c, SomeXperm(XAllow)))
  {
    var p: nat :| Hit(db.te.pool, db.te.htable, XKey(x, y, c), p) && ListsKnown(r, Listing, db.te.pool[p]);
    assert RuleOk(db.tm, db.te.pool[p]);
    ListedSpeaks(db.tm, db.te.pool[p], x, y, s, t, c);
    hide Speaks, ListsKnown, Overlaps, RuleOk;
    assert TableDecides(db.tm, db.te.pool, db.te.htable, Access(s, t, c, SomeXperm(XAllow)));
  }

  /** Where an extended rule is found whatever the branches, the decision knows one. */
  lemma ListedDecides(db: PolicyDb, asg: seq<bool>, s: nat, t: nat, c: nat, r: XRule)
    requires db.Valid() && |asg| == |db.bools| && AllDefined(db.condList, asg) && db.tm.Concrete(s) && db.tm.Concrete(t)
    requires PairFinds(ViewOf(db), s, t, c, r, Listed, true)
    ensures db.Decides(asg, Access(s, t, c, SomeXperm(XAllow)))
  {
    var v := ViewOf(db);
    ViewFits(db);
    RowsThere(v, s, t);
    hide PolicyDb.Valid, PolicyDb.Decides, Evaluate, Present, InTable, ViewOk;
    var x: nat, y: nat :| x in v.tm.typeAttr[s] && y in v.tm.typeAttr[t] && Found(v, XKey(x, y, c), r, Listed, true);
    if InTable(v.tePool, v.teTable, XKey(x, y, c), r, Listing) {
      InTableDecides(db, asg, x, y, s, t, c, r);
    } else {
      var k :| 0 <= k < |v.conds| && CondFinds(v.pool, v.conds[k], XKey(x, y, c), r, Listed, true);
      DefinedSide(db, asg, k);
      PresentDecides(db, asg, k, Evaluate(db.condList[k].expr, asg).value, x, y, s, t, c, r);
    }
  }

  lemma DefinedSide(db: PolicyDb, asg: seq<bool>, k: nat)
    requires db.Valid() && |asg| == |db.bools| && AllDefined(db.condList, asg) && k < |db.condList|
    ensures InScope(db.condList[k].expr, |asg|) && Evaluate(db.condList[k].expr, asg).Defined?
  {
    hide Evaluate;
    assert Evaluate(db.condList[k].expr, asg) != Undefined;
  }

  /** The rule behind a decision: of the table, or of the active branch of a conditional. */
  lemma DecidedBy(db: PolicyDb, asg: seq<bool>, a: Access) returns (k: Option<nat>, side: bool, p: nat)
    requires db.Valid() && |asg| == |db.bools| && db.Decides(asg, a)
    ensures k.None? ==> Linked(db.te.htable, p) && p < |db.te.pool| && Speaks(db.tm, db.te.pool[p], a)
    ensures k.Some? ==>
      && k.value < |db.condList| && Evaluate(db.condList[k.value].expr, asg) == Defined(side)
      && p in ListOf(db.condList[k.value], side) && p < |db.teCond.pool| && Speaks(db.tm, db.teCond.pool[p], a)
      && Linked(db.teCond.htable, p)
  {
    hide Speaks, Evaluate, Linked;
    if TableDecides(db.tm, db.te.pool, db.te.htable, a) {
      var q: nat :| Linked(db.te.htable, q) && q < |db.te.pool| && Speaks(db.tm, db.te.pool[q], a);
      k, side, p := None, true, q;
    } else {
      var j :| 0 <= j < |db.condList| && ListDecides(db.tm, db.teCond.pool, Branch(db.condList[j], Evaluate(db.condList[j].expr, asg)), a);
      var o := Evaluate(db.condList[j].expr, asg);
      var q: nat :| q in Branch(db.condList[j], o) && q < |db.teCond.pool| && Speaks(db.tm, db.teCond.pool[q], a);
      UsesOf(db.condList, j, q);
      k, side, p := Some(j), o == Defined(true), q;
    }
  }

  /** A decided extended permission that the rule lists is found. */
  lemma ListedFound(db: PolicyDb, asg: seq<bool>, s: nat, t: nat, c: nat, r: XRule)
    requires db.Valid() && |asg| == |db.bools| && db.tm.Concrete(s) && db.tm.Concrete(t) && PermitsListed(db, asg, s, t, c, r)
    ensures db.tm.InRange() && PairFinds(ViewOf(db), s, t, c, r, Forbidden, true)
  {
    var v := ViewOf(db);
    ViewFits(db);
    RowsThere(v, s, t);
    hide PolicyDb.Valid, PolicyDb.Decides, Evaluate, Plays, ListsKnown, XAnswers, Overlaps, Linked, ViewOk, Answers;
    var q: Query :| IsXAsk(q) && XAnswers(r.never, q) && db.Decides(asg, Access(s, t, c, q));
    var a := Access(s, t, c, q);
    var k, side, p := DecidedBy(db, asg, a);
    var n := if k.None? then db.te.pool[p] else db.teCond.pool[p];
    SpeaksClashing(db.tm, n, s, t, c, q, r);
    var key := XKey(n.key.source - 1, n.key.target - 1, c);
    assert n.key.source - 1 in v.tm.typeAttr[s] && n.key.target - 1 in v.tm.typeAttr[t];
    if k.None? {
      assert InTable(v.tePool, v.teTable, key, r, Clashing);
    } else {
      assert Present(v.pool, ListOf(v.conds[k.value], side), key, r, Clashing, true);
      assert CondFinds(v.pool, v.conds[k.value], key, r, Forbidden, true);
    }
    assert Found(v, key, r, Forbidden, true);
  }

  /** A rule that allows a forbidden permission is an entry. */
  lemma PermitsEntry(tm: TypeMaps, pool: seq<Node>, htable: seq<seq<nat>>, p: nat, s: nat, t: nat, c: nat, r: XRule, k: nat)
    requires tm.InRange() && Linked(htable, p) && p < |pool| && k < |r.perms| && r.perms[k].tclass == c
    requires Speaks(tm, pool[p], Access(s, t, c, Bits(Allow, r.perms[k].data)))
    ensures Entry(tm, pool, htable, p, s, t, c, r)
    ensures IsBase(r, pool[p], true) && SameTriple(pool[p].key, XKey(pool[p].key.source - 1, pool[p].key.target - 1, c))
  {
    AllowKind(pool[p].key.specified, Allow);
    MeetsSymmetric(pool[p].datum.data, r.perms[k].data);
    hide Linked, OfKind, Meets, Has;
  }

  /** A conditional entry of an active branch, with no extended rule decided, is a conflict. */
  lemma BareConflicts(db: PolicyDb, asg: seq<bool>, s: nat, t: nat, c: nat, r: XRule, k: nat, side: bool, p: nat)
    requires db.Valid() && |asg| == |db.bools| && db.tm.Concrete(s) && db.tm.Concrete(t)
    requires k < |db.condList| && Evaluate(db.condList[k].expr, asg) == Defined(side) && p in ListOf(db.condList[k], side)
    requires Entry(db.tm, db.teCond.pool, db.teCond.htable, p, s, t, c, r) && IsBase(r, db.teCond.pool[p], true)
    requires !db.Decides(asg, Access(s, t, c, SomeXperm(XAllow)))
    ensures db.tm.InRange() && PairFinds(ViewOf(db), s, t, c, r, Conflict, true)
  {
    var v := ViewOf(db);
    ViewFits(db);
    RowsThere(v, s, t);
    hide PolicyDb.Valid, PolicyDb.Decides, Evaluate, ListsKnown, IsBase, Linked, ViewOk, Hits;
    var n := v.pool[p];
    var x, y := n.key.source - 1, n.key.target - 1;
    var list := ListOf(v.conds[k], side);
    assert Present(v.pool, list, XKey(x, y, c), r, Base, true);
    if Present(v.pool, list, XKey(x, y, c), r, Listing, true) { PresentDecides(db, asg, k, side, x, y, s, t, c, r); }
    assert Bare(v.pool, list, XKey(x, y, c), r, true);
    assert CondFinds(v.pool, v.conds[k], XKey(x, y, c), r, Conflict, true);
    assert Found(v, XKey(x, y, c), r, Conflict, true);
  }

  /**
     The check misses nothing: if under some assignment with defined conditions the pair is
     allowed what the rule is to prevent, an entry of one of the tables fails for it.
   */
  lemma ViolatedFails(db: PolicyDb, asg: seq<bool>, s: nat, t: nat, c: nat, r: XRule)
    requires db.Valid() && |asg| == |db.bools| && AllDefined(db.condList, asg) && db.tm.Concrete(s) && db.tm.Concrete(t)
    requires Violated(db, asg, s, t, c, r)
    ensures db.tm.InRange()
    ensures
      || (SomeEntry(db.tm, db.te.pool, db.te.htable, s, t, c, r) && XFails(ViewOf(db), s, t, c, r, false, true))
      || (SomeEntry(db.tm, db.teCond.pool, db.teCond.htable, s, t, c, r) && XFails(ViewOf(db), s, t, c, r, true, true))
  {
    ViewFits(db);
    RowsThere(ViewOf(db), s, t);
    hide PolicyDb.Valid, PolicyDb.Decides, Evaluate, PairFinds, Entry, Linked, ViewOk, PermitsListed, Speaks;
    var i :| 0 <= i < |r.perms| && r.perms[i].tclass == c && db.Decides(asg, Access(s, t, c, Bits(Allow, r.perms[i].data)));
    var k, side, p := DecidedBy(db, asg, Access(s, t, c, Bits(Allow, r.perms[i].data)));
    if PermitsListed(db, asg, s, t, c, r) { ListedFound(db, asg, s, t, c, r); }
    if k.None? {
      PermitsEntry(db.tm, db.te.pool, db.te.htable, p, s, t, c, r, i);
      if PairFinds(ViewOf(db), s, t, c, r, Listed, true) { ListedDecides(db, asg, s, t, c, r); }
    } else {
      PermitsEntry(db.tm, db.teCond.pool, db.teCond.htable, p, s, t, c, r, i);
      if !PermitsListed(db, asg, s, t, c, r) { BareConflicts(db, asg, s, t, c, r, k.value, side, p); }
    }
  }

  // ---------------------------------------------------------------- exactness beside conditional rules

  /** No allow rule and no extended allow rule of a branch reaches the pair. */
  ghost predicate Untouched(v: View, s: nat, t: nat, c: nat)
    requires v.tm.InRange() && v.tm.Concrete(s) && v.tm.Concrete(t)
  {
    forall k, side, p: nat :: 0 <= k < |v.conds| && p in ListOf(v.conds[k], side) && p < |v.pool| && v.tm.Applies(v.pool[p].key, s, t, c) ==>
      !Has(v.pool[p].key.specified, ALLOWED) && !Has(v.pool[p].key.specified, XPERMS_ALLOWED)
  }

  /** Lists are of a known kind, and function lists name some function. */
  ghost predicate Proper(pool: seq<Node>) {
    forall p :: 0 <= p < |pool| && pool[p].datum.xperms.Some? ==> Known(pool[p].datum.xperms.value) && !Hollow(pool[p].datum.xperms.value)
  }

  lemma UntouchedAbsent(v: View, s: nat, t: nat, c: nat, x: nat, y: nat, r: XRule, k: nat, side: bool, part: Part)
    requires v.tm.InRange() && v.tm.Concrete(s) && v.tm.Concrete(t) && Untouched(v, s, t, c) && k < |v.conds|
    requires x in v.tm.typeAttr[s] && y in v.tm.typeAttr[t]
    ensures !Present(v.pool, ListOf(v.conds[k], side), XKey(x, y, c), r, part, true)
  {
    hide Has, Hits, ListsKnown;
  }

  /** What is found for an untouched pair is found in the table. */
  lemma UntouchedFinds(v: View, s: nat, t: nat, c: nat, x: nat, y: nat, r: XRule, f: Finding)
    requires v.tm.InRange() && v.tm.Concrete(s) && v.tm.Concrete(t) && Untouched(v, s, t, c)
    requires x in v.tm.typeAttr[s] && y in v.tm.typeAttr[t] && Found(v, XKey(x, y, c), r, f, true)
    ensures TableFinds(v, XKey(x, y, c), r, f)
  {
    hide Present, InTable, Untouched;
    if !TableFinds(v, XKey(x, y, c), r, f) {
      var k :| 0 <= k < |v.conds| && CondFinds(v.pool, v.conds[k], XKey(x, y, c), r, f, true);
      var lists := (ListOf(v.conds[k], true), ListOf(v.conds[k], false));
      forall side, part ensures !Present(v.pool, ListOf(v.conds[k], side), XKey(x, y, c), r, part, true) {
        UntouchedAbsent(v, s, t, c, x, y, r, k, side, part);
      }
    }
  }

  lemma EntryPermits(db: PolicyDb, asg: seq<bool>, s: nat, t: nat, c: nat, r: XRule)
    requires db.Valid() && |asg| == |db.bools| && SomeEntry(db.tm, db.te.pool, db.te.htable, s, t, c, r)
    ensures Permits(db, asg, s, t, c, r)
  {
    var p: nat :| Entry(db.tm, db.te.pool, db.te.htable, p, s, t, c, r);
    var n := db.te.pool[p];
    assert RuleOk(db.tm, n);
    var l: Kind :| OfKind(n.key.specified, l);
    AllowKind(n.key.specified, l);
    var k :| 0 <= k < |r.perms| && r.perms[k].tclass == c && Meets(r.perms[k].data, n.datum.data);
    MeetsSymmetric(n.datum.data, r.perms[k].data);
    hide OfKind, Meets, Has, Linked, RuleOk, CondDecides;
    var a := Access(s, t, c, Bits(Allow, r.perms[k].data));
    assert Speaks(db.tm, n, a);
    assert TableDecides(db.tm, db.te.pool, db.te.htable, a);
  }

  /** A clash in the table is a listed extended permission that is decided. */
  lemma ClashAsk(never: Xperms, list: Xperms) returns (ask: Query)
    requires Clash(never, list) && !Hollow(never) && !Hollow(list)
    ensures IsXAsk(ask) && XAnswers(never, ask) && XAnswers(list, ask)
  {
    ClashExactly(never, list);
    var q: Query :| (q.Ioctl? || q.Nlmsg?) && XAnswers(never, q) && XAnswers(list, q);
    ask := if q.Ioctl? then Ioctl(XAllow, q.driver, q.function_) else Nlmsg(XAllow, q.driver, q.function_);
    hide XAnswers;
    SameQuestion(never, q, ask);
    SameQuestion(list, q, ask);
  }

  lemma ClashPermits(db: PolicyDb, asg: seq<bool>, x: nat, y: nat, s: nat, t: nat, c: nat, r: XRule)
    requires db.Valid() && |asg| == |db.bools| && db.tm.Concrete(s) && db.tm.Concrete(t)
    requires x in db.tm.typeAttr[s] && y in db.tm.typeAttr[t] && Proper(db.te.pool) && !Hollow(r.never)
    requires InTable(db.te.pool, db.te.htable, XKey(x, y, c), r, Clashing)
    ensures PermitsListed(db, asg, s, t, c, r)
  {
    var p: nat :| Hit(db.te.pool, db.te.htable, XKey(x, y, c), p) && ListsKnown(r, Clashing, db.te.pool[p]);
    var n := db.te.pool[p];
    assert RuleOk(db.tm, n);
    ListedSpeaks(db.tm, n, x, y, s, t, c);
    var ask := ClashAsk(r.never, n.datum.xperms.value);
    hide XAnswers, Overlaps, OfKind, Linked, RuleOk, CondDecides, Hollow, Clash;
    assert Speaks(db.tm, n, Access(s, t, c, ask));
    assert TableDecides(db.tm, db.te.pool, db.te.htable, Access(s, t, c, ask));
  }

  lemma SameQuestion(x: Xperms, q: Query, ask: Query)
    requires (q.Ioctl? && ask == Ioctl(XAllow, q.driver, q.function_)) || (q.Nlmsg? && ask == Nlmsg(XAllow, q.driver, q.function_))
    ensures XAnswers(x, ask) <==> XAnswers(x, q)
  {
    hide PermBit;
  }

  /** For an untouched pair a decided extended rule is one of the table. */
  lemma DecidedListed(db: PolicyDb, asg: seq<bool>, s: nat, t: nat, c: nat, r: XRule)
    requires db.Valid() && |asg| == |db.bools| && db.tm.Concrete(s) && db.tm.Concrete(t)
    requires db.tm.InRange() && Untouched(ViewOf(db), s, t, c) && Proper(db.te.pool)
    requires db.Decides(asg, Access(s, t, c, SomeXperm(XAllow)))
    ensures PairFinds(ViewOf(db), s, t, c, r, Listed, true)
  {
    var v := ViewOf(db);
    ViewFits(db);
    RowsThere(v, s, t);
    hide *;
    ViewParts(db);
    var k, side, p := DecidedBy(db, asg, Access(s, t, c, SomeXperm(XAllow)));
    if k.None? {
      SpeakerListed(v, s, t, c, r, p);
    } else {
      BranchUntouched(v, s, t, c, k.value, side, p);
    }
  }

  lemma SpeakerListed(v: View, s: nat, t: nat, c: nat, r: XRule, p: nat)
    requires v.tm.InRange() && HasRows(v.tm, s, t) && ViewOk(v) && Proper(v.tePool)
    requires Linked(v.teTable, p) && p < |v.tePool| && Speaks(v.tm, v.tePool[p], Access(s, t, c, SomeXperm(XAllow)))
    ensures PairFinds(v, s, t, c, r, Listed, true)
  {
    var n := v.tePool[p];
    ExtendedBits(n.key.specified);
    hide Overlaps, Linked, Has, OfKind, Hollow, CondFinds;
    var x, y := n.key.source - 1, n.key.target - 1;
    SearchedExtended(XKey(x, y, c), n);
    assert ListsKnown(r, Listing, n);
    assert InTable(v.tePool, v.teTable, XKey(x, y, c), r, Listing);
    assert Found(v, XKey(x, y, c), r, Listed, true);
  }

  lemma BranchUntouched(v: View, s: nat, t: nat, c: nat, k: nat, side: bool, p: nat)
    requires v.tm.InRange() && v.tm.Concrete(s) && v.tm.Concrete(t) && Untouched(v, s, t, c)
    requires k < |v.conds| && p in ListOf(v.conds[k], side) && p < |v.pool|
    ensures !Speaks(v.tm, v.pool[p], Access(s, t, c, SomeXperm(XAllow)))
  {
    hide Has, OfKind, Overlaps;
    if Speaks(v.tm, v.pool[p], Access(s, t, c, SomeXperm(XAllow))) { ExtendedBits(v.pool[p].key.specified); }
  }

  /**
     Exactly when: for a pair that no conditional rule reaches, an entry fails for it if and
     only if the pair is allowed, under any assignment with defined conditions, what the rule
     is to prevent.
   */
  lemma FailsExactly(db: PolicyDb, asg: seq<bool>, s: nat, t: nat, c: nat, r: XRule)
    requires db.Valid() && |asg| == |db.bools| && AllDefined(db.condList, asg) && db.tm.Concrete(s) && db.tm.Concrete(t)
    requires db.tm.InRange() && Untouched(ViewOf(db), s, t, c) && Proper(db.te.pool) && !Hollow(r.never)
    ensures Violated(db, asg, s, t, c, r) <==>
      SomeEntry(db.tm, db.te.pool, db.te.htable, s, t, c, r) && XFails(ViewOf(db), s, t, c, r, false, true)
  {
    var v := ViewOf(db);
    ViewFits(db);
    RowsThere(v, s, t);
    hide PolicyDb.Valid, PolicyDb.Decides, Evaluate, Linked, ViewOk, Hollow, Found, Proper, Untouched, Entry, AllDefined, Permits, PermitsListed, InTable;
    if Violated(db, asg, s, t, c, r) {
      ViolatedFails(db, asg, s, t, c, r);
      NoCondEntry(db, s, t, c, r);
    }
    if SomeEntry(db.tm, db.te.pool, db.te.htable, s, t, c, r) && XFails(v, s, t, c, r, false, true) {
      EntryPermits(db, asg, s, t, c, r);
      if PairFinds(v, s, t, c, r, Forbidden, true) {
        var x: nat, y: nat :| x in v.tm.typeAttr[s] && y in v.tm.typeAttr[t] && Found(v, XKey(x, y, c), r, Forbidden, true);
        UntouchedFinds(v, s, t, c, x, y, r, Forbidden);
        ClashPermits(db, asg, x, y, s, t, c, r);
      } else if db.Decides(asg, Access(s, t, c, SomeXperm(XAllow))) {
        DecidedListed(db, asg, s, t, c, r);
      }
    }
  }

  lemma NoCondEntry(db: PolicyDb, s: nat, t: nat, c: nat, r: XRule)
    requires db.Valid() && db.tm.InRange() && db.tm.Concrete(s) && db.tm.Concrete(t) && Untouched(ViewOf(db), s, t, c)
    ensures !SomeEntry(db.tm, db.teCond.pool, db.teCond.htable, s, t, c, r)
  {
    hide Hits, Has;
    if p: nat :| Entry(db.tm, db.teCond.pool, db.teCond.htable, p, s, t, c, r) {
      var k := UsesOwner(db.condList, p);
      var list := ListOf(db.condList[k], p in db.condList[k].trueList);
    }
  }
}
