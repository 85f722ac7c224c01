/**
 Neverallow rules (src/assertion.c): a fast test over the rule tables, and, once it fires, a
 separate walk that enumerates and counts the offending pairs.
 */
module Assertion {
  import opened Prelude
  import opened Masks
  import opened Avtab
  import opened TypeMaps
  import opened CondExpr
  import opened PolicyDb
  import opened NeverXperms

  /** A rule of the source list; `self` and `notself` are its flags, `xperms` what an extended one lists. */
  datatype NeverRule = NeverRule(
    neverallow: bool, self: bool, notself: bool, stypes: set<nat>, ttypes: set<nat>, perms: seq<ClassPerm>, xperms: Option<Xperms>)

  function XRuleOf(r: NeverRule): XRule
    requires r.xperms.Some?
  {
    XRule(r.perms, r.xperms.value)
  }

  // ---------------------------------------------------------------- what a rule forbids

  /** The pairs of concrete types a rule is about. */
  predicate Forbids(r: NeverRule, s: nat, t: nat) {
    s in r.stypes && if r.notself then s != t && (r.ttypes == {} || t in r.ttypes) else t in r.ttypes || (r.self && s == t)
  }

  predicate HitsPerms(r: NeverRule, n: Node) {
    Hits(r.perms, n.key.tclass, n.datum.data)
  }

  /**
     An allow rule grants a forbidden permission to a forbidden pair; for a rule on extended
     permissions, to a pair that fails it.
   */
  ghost predicate Violates(v: View, n: Node, r: NeverRule, conditional: bool)
    requires KeyInRange(v.tm, n)
  {
    && Has(n.key.specified, ALLOWED) && HitsPerms(r, n) && SomePair(v.tm, n, r)
    && (r.xperms.Some? ==> SomePairFails(v, n, r, conditional, true))
  }

  /** One of the pairs walked for the entry fails the rule. */
  ghost predicate SomePairFails(v: View, n: Node, r: NeverRule, conditional: bool, strict: bool)
    requires KeyInRange(v.tm, n) && r.xperms.Some?
  {
    exists i: nat, j: nat :: (i, j) in Pairs(v.tm, n, r) && HasRows(v.tm, i, j) &&
      XFails(v, i, j, n.key.tclass, XRuleOf(r), conditional, strict)
  }

  ghost predicate SomePair(tm: TypeMaps, n: Node, r: NeverRule)
    requires KeyInRange(tm, n)
  {
    exists s: nat, t: nat :: s in tm.attrType[n.key.source - 1] && t in tm.attrType[n.key.target - 1] && Forbids(r, s, t)
  }

  // ---------------------------------------------------------------- the fast test

  lemma SingletonIs(s: set<nat>, x: nat)
    requires |s| == 1 && x in s
    ensures s == {x}
  {
    assert |s - {x}| == 0;
  }

  lemma TwoMembers(s: set<nat>, x: nat) returns (y: nat)
    requires |s| > 1
    ensures y in s && y != x
  {
    assert |s - {x}| > 0 by { if x !in s { assert s - {x} == s; } }
    y :| y in s - {x};
  }

  lemma Meeting(a: set<nat>, b: set<nat>)
    ensures a * b == {} <==> forall x: nat :: x in a ==> x !in b
  {
    if a * b == {} {
      forall x: nat | x in a ensures x !in b { assert x in a * b <==> x in b; }
    }
  }

  ghost predicate DifferentPair(a: set<nat>, b: set<nat>) {
    exists x: nat, y: nat :: x in a && y in b && x != y
  }

  /** A pair of different members: unless one set is empty or both are the same singleton. */
  lemma DifferentMembers(a: set<nat>, b: set<nat>)
    ensures DifferentPair(a, b) <==>
      |a| != 0 && |b| != 0 && !(|a| == 1 && |b| == 1 && |a * b| == 1)
  {
    if a != {} && b != {} {
      var x: nat :| x in a;
      var y: nat :| y in b;
      if |a| > 1 {
        var z := TwoMembers(a, y);
      } else if |b| > 1 {
        var z := TwoMembers(b, x);
      } else {
        SingletonIs(a, x);
        SingletonIs(b, y);
        assert a * b == if x == y then {x} else {};
      }
    }
  }

  /** Targets under `~self` and `{ attribute -self }`. */
  function NotselfTargets(tm: TypeMaps, n: Node, r: NeverRule): set<nat>
    requires KeyInRange(tm, n)
  {
    if r.ttypes == {} then tm.attrType[n.key.target - 1] else r.ttypes * tm.attrType[n.key.target - 1]
  }

  method CheckAssertionNotselfMatch(tm: TypeMaps, n: Node, r: NeverRule) returns (b: bool)
    requires KeyInRange(tm, n)
    ensures b <==> DifferentPair(r.stypes * tm.attrType[n.key.source - 1], NotselfTargets(tm, n, r))
  {
    var srcMatches := r.stypes * tm.attrType[n.key.source - 1];
    var tgtMatches;
    if r.ttypes == {} {
      tgtMatches := tm.attrType[n.key.target - 1];
    } else {
      tgtMatches := r.ttypes * tm.attrType[n.key.target - 1];
    }
    DifferentMembers(srcMatches, tgtMatches);
    if |srcMatches| == 0 || |tgtMatches| == 0 { return false; }
    if |srcMatches| == 1 && |tgtMatches| == 1 {
      if |srcMatches * tgtMatches| == 1 { return false; }
    }
    b := true;
  }

  lemma NotselfPair(tm: TypeMaps, n: Node, r: NeverRule)
    requires KeyInRange(tm, n) && r.notself
    ensures SomePair(tm, n, r) <==> DifferentPair(r.stypes * tm.attrType[n.key.source - 1], NotselfTargets(tm, n, r))
  {
    var src, tgt := tm.attrType[n.key.source - 1], tm.attrType[n.key.target - 1];
    if s: nat, t: nat :| s in src && t in tgt && Forbids(r, s, t) {
      assert s in r.stypes * src && t in NotselfTargets(tm, n, r);
    }
    if x: nat, y: nat :| x in r.stypes * src && y in NotselfTargets(tm, n, r) && x != y {
      assert Forbids(r, x, y);
    }
  }

  method CheckAssertionSelfMatch(tm: TypeMaps, n: Node, r: NeverRule) returns (b: bool)
    requires KeyInRange(tm, n)
    ensures b <==> exists s: nat :: s in r.stypes && s in tm.attrType[n.key.source - 1] && s in tm.attrType[n.key.target - 1]
  {
    var srcMatches := r.stypes * tm.attrType[n.key.source - 1];
    b := srcMatches * tm.attrType[n.key.target - 1] != {};
    Meeting(srcMatches, tm.attrType[n.key.target - 1]);
  }

  /** The part of the fast test that looks at types and permissions only. */
  method CheckPairs(tm: TypeMaps, n: Node, r: NeverRule) returns (b: bool)
    requires KeyInRange(tm, n)
    ensures b <==> Has(n.key.specified, ALLOWED) && HitsPerms(r, n) && SomePair(tm, n, r)
  {
    if !Has(n.key.specified, ALLOWED) { return false; }
    var hit := MatchAnyClassPermissions(r.perms, n.key.tclass, n.datum.data);
    if !hit { return false; }
    hide Has, Meets;
    var src, tgt := tm.attrType[n.key.source - 1], tm.attrType[n.key.target - 1];
    Meeting(r.stypes, src);
    Meeting(r.ttypes, tgt);
    if r.stypes * src == {} { return false; }
    ghost var s: nat :| s in r.stypes * src;
    if r.notself {
      var match_ := CheckAssertionNotselfMatch(tm, n, r);
      NotselfPair(tm, n, r);
      if !match_ { return false; }
    } else if r.ttypes * tgt == {} {
      if r.self && !r.notself {
        var match_ := CheckAssertionSelfMatch(tm, n, r);
        if !match_ { return false; }
        ghost var x: nat :| x in r.stypes && x in src && x in tgt;
        assert Forbids(r, x, x);
      } else {
        return false;
      }
    } else {
      ghost var t: nat :| t in r.ttypes * tgt;
      assert Forbids(r, s, t);
    }
    b := true;
    assert SomePair(tm, n, r);
  }

  /** The pairs of an entry, each looked up until one fails. */
  method CheckAssertionExtendedPermissions(db: PolicyDb, n: Node, r: NeverRule, conditional: bool) returns (b: bool)
    requires db.Valid() && KeyInRange(db.tm, n) && r.xperms.Some?
    ensures b <==> SomePairFails(ViewOf(db), n, r, conditional, true)
  {
    hide *;
    ghost var v := ViewOf(db);
    ViewParts(db);
    ViewFits(db);
    InRange(db.tm, n);
    var srcMatches := r.stypes * db.tm.attrType[n.key.source - 1];
    if srcMatches == {} { NothingFails(v, n, r, conditional); return false; }
    var tgtMatches := TargetMatches(db.tm, n, r, srcMatches);
    if tgtMatches == {} { NothingFails(v, n, r, conditional); return false; }
    PairsFrom(db.tm, n, r, srcMatches, tgtMatches);
    FailsStart(v, n, r, conditional);
    for i := 0 to db.tm.Nprim()
      invariant !FailsUpTo(v, n, r, conditional, i, 0)
    {
      FailsRow(v, n, r, conditional, i);
      for j := 0 to db.tm.Nprim()
        invariant !FailsUpTo(v, n, r, conditional, i, j)
      {
        FailsStep(v, n, r, conditional, i, j);
        if i in srcMatches && j in tgtMatches {
          if r.self && i != j { continue; }
          if r.notself && i == j { continue; }
          RowsAt(db.tm, i, j);
          b := CheckAssertionExtendedPermissionsAvtab(db, i, j, n.key.tclass, XRuleOf(r), conditional);
          if b { FailsAt(v, n, r, conditional, i, j); return; }
        }
      }
    }
    FailsWhole(v, n, r, conditional);
    b := false;
  }

  lemma InRange(tm: TypeMaps, n: Node)
    requires KeyInRange(tm, n)
    ensures tm.InRange() && 0 < n.key.source <= |tm.attrType| && 0 < n.key.target <= |tm.attrType|
  {
  }

  lemma RowsAt(tm: TypeMaps, i: nat, j: nat)
    requires tm.InRange() && i < tm.Nprim() && j < tm.Nprim()
    ensures HasRows(tm, i, j)
  {
  }

  /** The pairs before row `i`, and in row `i` before column `j`. */
  ghost predicate FailsUpTo(v: View, n: Node, r: NeverRule, conditional: bool, i: nat, j: nat)
    requires KeyInRange(v.tm, n) && r.xperms.Some?
  {
    exists x: nat, y: nat :: (x < i || (x == i && y < j)) && PairFails(v, n, r, conditional, x, y)
  }

  ghost predicate PairFails(v: View, n: Node, r: NeverRule, conditional: bool, x: nat, y: nat)
    requires KeyInRange(v.tm, n) && r.xperms.Some?
  {
    (x, y) in Pairs(v.tm, n, r) && HasRows(v.tm, x, y) && XFails(v, x, y, n.key.tclass, XRuleOf(r), conditional, true)
  }

  lemma FailsStart(v: View, n: Node, r: NeverRule, conditional: bool)
    requires KeyInRange(v.tm, n) && r.xperms.Some?
    ensures !FailsUpTo(v, n, r, conditional, 0, 0)
  {
  }

  lemma FailsStep(v: View, n: Node, r: NeverRule, conditional: bool, i: nat, j: nat)
    requires KeyInRange(v.tm, n) && r.xperms.Some?
    ensures FailsUpTo(v, n, r, conditional, i, j + 1) <==> FailsUpTo(v, n, r, conditional, i, j) || PairFails(v, n, r, conditional, i, j)
    ensures PairFails(v, n, r, conditional, i, j) <==>
      (i, j) in Pairs(v.tm, n, r) && HasRows(v.tm, i, j) && XFails(v, i, j, n.key.tclass, XRuleOf(r), conditional, true)
  {
    hide Pairs, XFails;
  }

  lemma FailsRow(v: View, n: Node, r: NeverRule, conditional: bool, i: nat)
    requires KeyInRange(v.tm, n) && r.xperms.Some?
    ensures FailsUpTo(v, n, r, conditional, i, v.tm.Nprim()) <==> FailsUpTo(v, n, r, conditional, i + 1, 0)
  {
    hide Pairs, XFails;
  }

  lemma FailsAt(v: View, n: Node, r: NeverRule, conditional: bool, i: nat, j: nat)
    requires KeyInRange(v.tm, n) && r.xperms.Some? && PairFails(v, n, r, conditional, i, j)
    ensures SomePairFails(v, n, r, conditional, true)
  {
    hide Pairs, XFails;
  }

  lemma FailsWhole(v: View, n: Node, r: NeverRule, conditional: bool)
    requires KeyInRange(v.tm, n) && r.xperms.Some?
    ensures FailsUpTo(v, n, r, conditional, v.tm.Nprim(), 0) <==> SomePairFails(v, n, r, conditional, true)
  {
    hide Pairs, XFails;
    if i: nat, j: nat :| (i, j) in Pairs(v.tm, n, r) && HasRows(v.tm, i, j) && XFails(v, i, j, n.key.tclass, XRuleOf(r), conditional, true) {
      assert PairFails(v, n, r, conditional, i, j);
    }
  }

  lemma NothingFails(v: View, n: Node, r: NeverRule, conditional: bool)
    requires KeyInRange(v.tm, n) && r.xperms.Some?
    requires r.stypes * v.tm.attrType[n.key.source - 1] == {} || Targets(v.tm, n, r) == {}
    ensures !SomePairFails(v, n, r, conditional, true)
  {
    NoPairs(v.tm, n, r);
    hide Pairs, XFails;
  }

  /** The fast test is exact: it fires for an entry exactly when the entry violates the rule. */
  method CheckAssertionAvtabMatch(db: PolicyDb, n: Node, r: NeverRule, conditional: bool) returns (b: bool)
    requires db.Valid() && KeyInRange(db.tm, n)
    ensures b <==> Violates(ViewOf(db), n, r, conditional)
  {
    hide SomePair, SomePairFails, Has, HitsPerms;
    b := CheckPairs(db.tm, n, r);
    if !b { return; }
    if r.xperms.Some? { b := CheckAssertionExtendedPermissions(db, n, r, conditional); }
  }

  // ---------------------------------------------------------------- the enumerating report

  /** The report's target matches. */
  function Targets(tm: TypeMaps, n: Node, r: NeverRule): set<nat>
    requires KeyInRange(tm, n)
  {
    var src, tgt := tm.attrType[n.key.source - 1], tm.attrType[n.key.target - 1];
    if r.notself then NotselfTargets(tm, n, r) else r.ttypes * tgt + if r.self then r.stypes * src * tgt else {}
  }

  /** The pairs the report walks for an entry. */
  function Pairs(tm: TypeMaps, n: Node, r: NeverRule): set<(nat, nat)>
    requires KeyInRange(tm, n)
  {
    set i, j | i in r.stypes * tm.attrType[n.key.source - 1] && j in Targets(tm, n, r) && (r.self ==> i == j) && (r.notself ==> i != j) :: (i, j)
  }

  function PermHits(perms: seq<ClassPerm>, tclass: nat, data: bv32): nat {
    if perms == [] then 0
    else
      var k := |perms| - 1;
      PermHits(perms[..k], tclass, data) + if perms[k].tclass == tclass && Meets(perms[k].data, data) then 1 else 0
  }

  lemma {:induction false} PermHitsSome(perms: seq<ClassPerm>, tclass: nat, data: bv32)
    ensures PermHits(perms, tclass, data) > 0 <==>
      exists k :: 0 <= k < |perms| && perms[k].tclass == tclass && Meets(perms[k].data, data)
  {
    hide Meets;
    if perms != [] {
      var k := |perms| - 1;
      PermHitsSome(perms[..k], tclass, data);
      if PermHits(perms[..k], tclass, data) > 0 {
        var j :| 0 <= j < k && perms[..k][j].tclass == tclass && Meets(perms[..k][j].data, data);
        assert perms[j] == perms[..k][j];
      }
      forall j | 0 <= j < k && perms[j].tclass == tclass && Meets(perms[j].data, data)
        ensures PermHits(perms[..k], tclass, data) > 0
      {
        assert perms[..k][j] == perms[j];
      }
    }
  }

  /** The failures reported for one pair and permission set. */
  ghost function Weight(v: View, n: Node, r: NeverRule, conditional: bool, i: nat, j: nat): nat
    requires v.tm.InRange() && HasRows(v.tm, i, j)
  {
    if r.xperms.None? then 1 else XErrors(v, i, j, n.key.tclass, XRuleOf(r), conditional)
  }

  ghost function RowWeights(v: View, n: Node, r: NeverRule, conditional: bool, i: nat): nat -> nat
    requires KeyInRange(v.tm, n)
  {
    (j: nat) => if (i, j) in Pairs(v.tm, n, r) && HasRows(v.tm, i, j) then Weight(v, n, r, conditional, i, j) else 0
  }

  ghost function GridWeights(v: View, n: Node, r: NeverRule, conditional: bool): nat -> nat
    requires KeyInRange(v.tm, n)
  {
    (i: nat) => Sum(v.tm.Nprim(), RowWeights(v, n, r, conditional, i))
  }

  /** Over all pairs. */
  ghost function PairsWeight(v: View, n: Node, r: NeverRule, conditional: bool): nat
    requires KeyInRange(v.tm, n)
  {
    Sum(v.tm.Nprim(), GridWeights(v, n, r, conditional))
  }

  /** The failures reported for one entry. */
  ghost function Failures(v: View, n: Node, r: NeverRule, conditional: bool): nat
    requires KeyInRange(v.tm, n)
  {
    if Has(n.key.specified, ALLOWED) then PermHits(r.perms, n.key.tclass, n.datum.data) * PairsWeight(v, n, r, conditional) else 0
  }

  /** A rule with `self` that also has `notself`, or whose `self` part does not reach the entry. */
  predicate Overlooked(tm: TypeMaps, n: Node, r: NeverRule)
    requires KeyInRange(tm, n)
  {
    r.self && (r.notself || r.stypes * tm.attrType[n.key.source - 1] * tm.attrType[n.key.target - 1] == {})
  }

  /** Some pair has failures. */
  ghost predicate SomeWeight(v: View, n: Node, r: NeverRule, conditional: bool)
    requires KeyInRange(v.tm, n)
  {
    exists i: nat, j: nat :: (i, j) in Pairs(v.tm, n, r) && HasRows(v.tm, i, j) && Weight(v, n, r, conditional, i, j) > 0
  }

  lemma WeightPositive(v: View, n: Node, r: NeverRule, conditional: bool)
    requires KeyInRange(v.tm, n)
    ensures PairsWeight(v, n, r, conditional) > 0 <==> SomeWeight(v, n, r, conditional)
  {
    var m, f := v.tm.Nprim(), GridWeights(v, n, r, conditional);
    SumPositive(m, f);
    forall i: nat ensures f(i) > 0 <==> RowWeighs(v, n, r, conditional, i) { RowWeight(v, n, r, conditional, i); }
    hide Sum, Pairs, Weight;
    if i: nat, j: nat :| (i, j) in Pairs(v.tm, n, r) && HasRows(v.tm, i, j) && Weight(v, n, r, conditional, i, j) > 0 {
      assert RowWeighs(v, n, r, conditional, i);
    }
    if i: nat :| i < m && f(i) > 0 { assert RowWeighs(v, n, r, conditional, i); }
  }

  ghost predicate RowWeighs(v: View, n: Node, r: NeverRule, conditional: bool, i: nat)
    requires KeyInRange(v.tm, n)
  {
    exists j: nat :: (i, j) in Pairs(v.tm, n, r) && HasRows(v.tm, i, j) && Weight(v, n, r, conditional, i, j) > 0
  }

  lemma RowWeight(v: View, n: Node, r: NeverRule, conditional: bool, i: nat)
    requires KeyInRange(v.tm, n)
    ensures Sum(v.tm.Nprim(), RowWeights(v, n, r, conditional, i)) > 0 <==> RowWeighs(v, n, r, conditional, i)
  {
    var m, f := v.tm.Nprim(), RowWeights(v, n, r, conditional, i);
    SumPositive(m, f);
    hide Sum, Pairs, Weight;
    if j: nat :| (i, j) in Pairs(v.tm, n, r) && HasRows(v.tm, i, j) && Weight(v, n, r, conditional, i, j) > 0 { assert f(j) > 0; }
    if j: nat :| j < m && f(j) > 0 { assert (i, j) in Pairs(v.tm, n, r); }
  }

  lemma PairsHaveRows(tm: TypeMaps, n: Node, r: NeverRule)
    requires KeyInRange(tm, n)
    ensures forall i: nat, j: nat :: (i, j) in Pairs(tm, n, r) ==> HasRows(tm, i, j)
  {
  }

  /**
     The report counts a failure for an entry exactly when the fast test fires for it, but for
     rules with `self` whose sources do not meet the entry's targets, or with both flags:
     there it counts nothing.
   */
  lemma ReportsExactly(v: View, n: Node, r: NeverRule, conditional: bool)
    requires KeyInRange(v.tm, n) && r.xperms.None?
    ensures Failures(v, n, r, conditional) > 0 <==> Violates(v, n, r, conditional) && !Overlooked(v.tm, n, r)
  {
    hide *;
    PermHitsSome(r.perms, n.key.tclass, n.datum.data);
    PairsExactly(v.tm, n, r);
    WeightPositive(v, n, r, conditional);
    PlainWeight(v, n, r, conditional);
    FailuresParts(v, n, r, conditional);
  }

  lemma PlainWeight(v: View, n: Node, r: NeverRule, conditional: bool)
    requires KeyInRange(v.tm, n) && r.xperms.None?
    ensures SomeWeight(v, n, r, conditional) <==> Pairs(v.tm, n, r) != {}
  {
    PairsHaveRows(v.tm, n, r);
    hide Pairs;
    if Pairs(v.tm, n, r) != {} {
      var p :| p in Pairs(v.tm, n, r);
      assert (p.0, p.1) in Pairs(v.tm, n, r);
    }
  }

  /**
     For rules on extended permissions: with extended rules that carry no permission bits,
     the report counts a failure wherever the fast test fires.
   */
  lemma ReportsExtended(v: View, n: Node, r: NeverRule, conditional: bool)
    requires KeyInRange(v.tm, n) && r.xperms.Some?
    ensures Failures(v, n, r, conditional) > 0 <==> Reported(v, n, r, conditional)
    ensures NoBits(v.pool) && Violates(v, n, r, conditional) ==> Failures(v, n, r, conditional) > 0
  {
    hide *;
    PermHitsSome(r.perms, n.key.tclass, n.datum.data);
    WeightPositive(v, n, r, conditional);
    ExtendedWeight(v, n, r, conditional);
    FailuresParts(v, n, r, conditional);
    ReportedParts(v, n, r, conditional);
  }

  lemma ReportedParts(v: View, n: Node, r: NeverRule, conditional: bool)
    requires KeyInRange(v.tm, n) && r.xperms.Some?
    ensures Reported(v, n, r, conditional) <==>
      Has(n.key.specified, ALLOWED) && HitsPerms(r, n) && SomePairFails(v, n, r, conditional, false)
  {
    hide Has, HitsPerms, SomePairFails;
  }

  lemma ExtendedWeight(v: View, n: Node, r: NeverRule, conditional: bool)
    requires KeyInRange(v.tm, n) && r.xperms.Some?
    ensures SomeWeight(v, n, r, conditional) <==> SomePairFails(v, n, r, conditional, false)
    ensures NoBits(v.pool) && SomePairFails(v, n, r, conditional, true) ==> SomePairFails(v, n, r, conditional, false)
  {
    hide Pairs, XFails, XErrors, NoBits;
    forall i: nat, j: nat | HasRows(v.tm, i, j)
      ensures Weight(v, n, r, conditional, i, j) > 0 <==> XFails(v, i, j, n.key.tclass, XRuleOf(r), conditional, false)
      ensures NoBits(v.pool) && XFails(v, i, j, n.key.tclass, XRuleOf(r), conditional, true) ==>
        XFails(v, i, j, n.key.tclass, XRuleOf(r), conditional, false)
    {
      XErrorsPositive(v, i, j, n.key.tclass, XRuleOf(r), conditional);
      if NoBits(v.pool) { ReportSeesMore(v, i, j, n.key.tclass, XRuleOf(r), conditional); }
    }
    hide HasRows, Weight;
  }

  lemma FailuresParts(v: View, n: Node, r: NeverRule, conditional: bool)
    requires KeyInRange(v.tm, n)
    ensures Failures(v, n, r, conditional) > 0 <==>
      Has(n.key.specified, ALLOWED) && PermHits(r.perms, n.key.tclass, n.datum.data) > 0 && PairsWeight(v, n, r, conditional) > 0
    ensures Violates(v, n, r, conditional) <==>
      && Has(n.key.specified, ALLOWED) && SomePair(v.tm, n, r) && HitsPerms(r, n)
      && (r.xperms.Some? ==> SomePairFails(v, n, r, conditional, true))
    ensures HitsPerms(r, n) <==>
      exists k :: 0 <= k < |r.perms| && r.perms[k].tclass == n.key.tclass && Meets(r.perms[k].data, n.datum.data)
  {
    hide PairsWeight, Has, Meets, PermHits, SomePair, SomePairFails;
    ProductPositive(PermHits(r.perms, n.key.tclass, n.datum.data), PairsWeight(v, n, r, conditional));
  }

  lemma ProductPositive(a: nat, b: nat)
    ensures a * b > 0 <==> a > 0 && b > 0
  {
  }

  lemma PairsExactly(tm: TypeMaps, n: Node, r: NeverRule)
    requires KeyInRange(tm, n)
    ensures Pairs(tm, n, r) != {} <==> !Overlooked(tm, n, r) && SomePair(tm, n, r)
  {
    var src, tgt := tm.attrType[n.key.source - 1], tm.attrType[n.key.target - 1];
    if Pairs(tm, n, r) != {} {
      var p :| p in Pairs(tm, n, r);
      assert Forbids(r, p.0, p.1);
      assert r.self ==> p.0 in r.stypes * src * tgt;
    }
    if s: nat, t: nat :| s in src && t in tgt && Forbids(r, s, t) {
      if !r.self {
        assert (s, t) in Pairs(tm, n, r);
      } else if !Overlooked(tm, n, r) {
        var x :| x in r.stypes * src * tgt;
        assert (x, x) in Pairs(tm, n, r);
      }
    }
  }

  lemma RowWeightsStep(v: View, n: Node, r: NeverRule, conditional: bool, i: nat, j: nat)
    requires KeyInRange(v.tm, n)
    ensures Sum(0, RowWeights(v, n, r, conditional, i)) == 0
    ensures Sum(j + 1, RowWeights(v, n, r, conditional, i)) == Sum(j, RowWeights(v, n, r, conditional, i))
      + if (i, j) in Pairs(v.tm, n, r) && HasRows(v.tm, i, j) then Weight(v, n, r, conditional, i, j) else 0
  {
    hide Pairs, Weight;
  }

  lemma GridWeightsStep(v: View, n: Node, r: NeverRule, conditional: bool, i: nat)
    requires KeyInRange(v.tm, n)
    ensures Sum(0, GridWeights(v, n, r, conditional)) == 0
    ensures Sum(i + 1, GridWeights(v, n, r, conditional)) == Sum(i, GridWeights(v, n, r, conditional))
      + Sum(v.tm.Nprim(), RowWeights(v, n, r, conditional, i))
  {
    hide RowWeights;
  }

  lemma WeightIs(v: View, n: Node, r: NeverRule, conditional: bool, i: nat, j: nat)
    requires v.tm.InRange() && HasRows(v.tm, i, j)
    ensures r.xperms.None? ==> Weight(v, n, r, conditional, i, j) == 1
    ensures r.xperms.Some? ==> Weight(v, n, r, conditional, i, j) == XErrors(v, i, j, n.key.tclass, XRuleOf(r), conditional)
  {
    hide XErrors;
  }

  lemma PairsWeightIs(v: View, n: Node, r: NeverRule, conditional: bool)
    requires KeyInRange(v.tm, n)
    ensures PairsWeight(v, n, r, conditional) == Sum(v.tm.Nprim(), GridWeights(v, n, r, conditional))
  {
    hide Sum;
  }

  /** The two nested walks for one class permission. */
  method ReportPairs(db: PolicyDb, n: Node, r: NeverRule, conditional: bool, src: set<nat>, tgt: set<nat>, errors: nat) returns (errors': nat)
    requires db.Valid() && KeyInRange(db.tm, n)
    requires forall i: nat, j: nat :: (i, j) in Pairs(db.tm, n, r) <==>
      i in src && j in tgt && (r.self ==> i == j) && (r.notself ==> i != j)
    ensures errors' == errors + PairsWeight(ViewOf(db), n, r, conditional)
  {
    hide *;
    ghost var v := ViewOf(db);
    ViewParts(db);
    ViewFits(db);
    InRange(db.tm, n);
    PairsHaveRows(db.tm, n, r);
    PairsWeightIs(v, n, r, conditional);
    GridWeightsStep(v, n, r, conditional, 0);
    errors' := errors;
    for i := 0 to db.tm.Nprim()
      invariant errors' == errors + Sum(i, GridWeights(v, n, r, conditional))
    {
      GridWeightsStep(v, n, r, conditional, i);
      RowWeightsStep(v, n, r, conditional, i, 0);
      ghost var before := errors';
      for j := 0 to db.tm.Nprim()
        invariant errors' == before + Sum(j, RowWeights(v, n, r, conditional, i))
      {
        RowWeightsStep(v, n, r, conditional, i, j);
        RowsAt(db.tm, i, j);
        WeightIs(v, n, r, conditional, i, j);
        if i in src && j in tgt {
          if r.self && i != j { continue; }
          if r.notself && i == j { continue; }
          if r.xperms.Some? {
            var more := ReportAssertionExtendedPermissions(db, i, j, n.key.tclass, XRuleOf(r), conditional);
            errors' := errors' + more;
          } else {
            errors' := errors' + 1;
          }
        }
      }
    }
  }

  lemma NoPairs(tm: TypeMaps, n: Node, r: NeverRule)
    requires KeyInRange(tm, n)
    requires (r.stypes * tm.attrType[n.key.source - 1] == {} || Targets(tm, n, r) == {})
    ensures Pairs(tm, n, r) == {}
  {
  }

  lemma NoWeight(v: View, n: Node, r: NeverRule, conditional: bool)
    requires KeyInRange(v.tm, n)
    requires (r.stypes * v.tm.attrType[n.key.source - 1] == {} || Targets(v.tm, n, r) == {})
    ensures PairsWeight(v, n, r, conditional) == 0
  {
    NoPairs(v.tm, n, r);
    WeightPositive(v, n, r, conditional);
    hide Pairs, PairsWeight;
  }

  /** The targets that the check and the report walk. */
  method TargetMatches(tm: TypeMaps, n: Node, r: NeverRule, srcMatches: set<nat>) returns (tgtMatches: set<nat>)
    requires KeyInRange(tm, n) && srcMatches == r.stypes * tm.attrType[n.key.source - 1]
    ensures tgtMatches == Targets(tm, n, r)
  {
    if r.notself {
      if r.ttypes == {} {
        tgtMatches := tm.attrType[n.key.target - 1];
      } else {
        tgtMatches := r.ttypes * tm.attrType[n.key.target - 1];
      }
    } else {
      tgtMatches := r.ttypes * tm.attrType[n.key.target - 1];
      if r.self {
        var selfMatches := srcMatches * tm.attrType[n.key.target - 1];
        if selfMatches != {} { tgtMatches := tgtMatches + selfMatches; }
      }
    }
  }

  /** Adds the failures of one entry to the count. */
  method ReportAssertionAvtabMatches(db: PolicyDb, n: Node, r: NeverRule, conditional: bool, errors: nat) returns (errors': nat)
    requires db.Valid() && KeyInRange(db.tm, n)
    ensures errors' == errors + Failures(ViewOf(db), n, r, conditional)
  {
    hide *;
    ghost var v := ViewOf(db);
    ViewParts(db);
    InRange(db.tm, n);
    FailuresIs(v, n, r, conditional);
    errors' := errors;
    if !Has(n.key.specified, ALLOWED) { return; }
    PermHitsSome(r.perms, n.key.tclass, n.datum.data);
    var hit := MatchAnyClassPermissions(r.perms, n.key.tclass, n.datum.data);
    if !hit { NothingTimes(PairsWeight(v, n, r, conditional)); return; }
    var srcMatches := r.stypes * db.tm.attrType[n.key.source - 1];
    if srcMatches == {} { NoWeight(v, n, r, conditional); return; }
    var tgtMatches := TargetMatches(db.tm, n, r, srcMatches);
    if tgtMatches == {} { NoWeight(v, n, r, conditional); return; }
    errors' := ReportPerms(db, n, r, conditional, srcMatches, tgtMatches, errors);
  }

  lemma FailuresIs(v: View, n: Node, r: NeverRule, conditional: bool)
    requires KeyInRange(v.tm, n)
    ensures Failures(v, n, r, conditional) ==
      if Has(n.key.specified, ALLOWED) then PermHits(r.perms, n.key.tclass, n.datum.data) * PairsWeight(v, n, r, conditional) else 0
  {
    hide Has, PermHits, PairsWeight;
  }

  lemma NothingTimes(b: nat)
    ensures 0 * b == 0
  {
  }

  method ReportPerms(db: PolicyDb, n: Node, r: NeverRule, conditional: bool, src: set<nat>, tgt: set<nat>, errors: nat) returns (errors': nat)
    requires db.Valid() && KeyInRange(db.tm, n) && src == r.stypes * db.tm.attrType[n.key.source - 1] && tgt == Targets(db.tm, n, r)
    ensures errors' == errors + PermHits(r.perms, n.key.tclass, n.datum.data) * PairsWeight(ViewOf(db), n, r, conditional)
  {
    hide *;
    ghost var v := ViewOf(db);
    ViewParts(db);
    ghost var w := PairsWeight(v, n, r, conditional);
    errors' := errors;
    PairsFrom(db.tm, n, r, src, tgt);
    HitsStart(r.perms, n.key.tclass, n.datum.data, w);
    for k := 0 to |r.perms|
      invariant errors' == errors + PermHits(r.perms[..k], n.key.tclass, n.datum.data) * w
    {
      HitsStep(r.perms, k, n.key.tclass, n.datum.data, w);
      if r.perms[k].tclass != n.key.tclass || !Meets(r.perms[k].data, n.datum.data) { continue; }
      errors' := ReportPairs(db, n, r, conditional, src, tgt, errors');
    }
    assert r.perms[..|r.perms|] == r.perms;
  }

  lemma PairsFrom(tm: TypeMaps, n: Node, r: NeverRule, src: set<nat>, tgt: set<nat>)
    requires KeyInRange(tm, n) && src == r.stypes * tm.attrType[n.key.source - 1] && tgt == Targets(tm, n, r)
    ensures forall i: nat, j: nat :: (i, j) in Pairs(tm, n, r) <==>
      i in src && j in tgt && (r.self ==> i == j) && (r.notself ==> i != j)
  {
  }

  lemma HitsStart(perms: seq<ClassPerm>, tclass: nat, data: bv32, m: nat)
    ensures PermHits(perms[..0], tclass, data) * m == 0
  {
    NothingTimes(m);
  }

  lemma HitsStep(perms: seq<ClassPerm>, k: nat, tclass: nat, data: bv32, m: nat)
    requires k < |perms|
    ensures PermHits(perms[..k + 1], tclass, data) * m == PermHits(perms[..k], tclass, data) * m
      + if perms[k].tclass == tclass && Meets(perms[k].data, data) then m else 0
  {
    hide Meets;
    assert perms[..k + 1][..k] == perms[..k];
    var a := PermHits(perms[..k], tclass, data);
    assert (a + 1) * m == a * m + m;
  }

  // ---------------------------------------------------------------- whole tables and rule lists

  ghost function ListFailures(v: View, pool: seq<Node>, list: seq<nat>, r: NeverRule, conditional: bool): nat
    requires AllInRange(v.tm, pool) && InPool(pool, list)
  {
    if list == [] then 0
    else ListFailures(v, pool, list[..|list| - 1], r, conditional) + Failures(v, pool[list[|list| - 1]], r, conditional)
  }

  ghost function TableFailures(v: View, pool: seq<Node>, htable: seq<seq<nat>>, r: NeverRule, conditional: bool): nat
    requires AllInRange(v.tm, pool) && forall i :: 0 <= i < |htable| ==> InPool(pool, htable[i])
  {
    if htable == [] then 0
    else TableFailures(v, pool, htable[..|htable| - 1], r, conditional) + ListFailures(v, pool, htable[|htable| - 1], r, conditional)
  }

  lemma ListStep(v: View, pool: seq<Node>, list: seq<nat>, k: nat, r: NeverRule, conditional: bool)
    requires AllInRange(v.tm, pool) && InPool(pool, list) && k < |list|
    ensures KeyInRange(v.tm, pool[list[k]])
    ensures ListFailures(v, pool, list[..k + 1], r, conditional) ==
      ListFailures(v, pool, list[..k], r, conditional) + Failures(v, pool[list[k]], r, conditional)
  {
    assert list[..k + 1][..k] == list[..k];
    hide Failures;
  }

  lemma TableStep(v: View, pool: seq<Node>, htable: seq<seq<nat>>, k: nat, r: NeverRule, conditional: bool)
    requires AllInRange(v.tm, pool) && k < |htable| && forall i :: 0 <= i < |htable| ==> InPool(pool, htable[i])
    ensures TableFailures(v, pool, htable[..k + 1], r, conditional) ==
      TableFailures(v, pool, htable[..k], r, conditional) + ListFailures(v, pool, htable[k], r, conditional)
  {
    assert htable[..k + 1][..k] == htable[..k];
    hide ListFailures;
  }

  method ReportChain(db: PolicyDb, tab: Avtab, i: nat, r: NeverRule, conditional: bool, errors: nat) returns (errors': nat)
    requires db.Valid() && i < |tab.htable| && AllInRange(db.tm, tab.pool) && InPool(tab.pool, tab.htable[i])
    ensures errors' == errors + ListFailures(ViewOf(db), tab.pool, tab.htable[i], r, conditional)
  {
    hide AllInRange, ListFailures, Failures, PolicyDb.Valid;
    ghost var v := ViewOf(db);
    errors' := errors;
    NoFailures(v, tab.pool, r, conditional);
    ghost var chain := tab.htable[i];
    for j := 0 to |tab.htable[i]|
      invariant errors' == errors + ListFailures(v, tab.pool, chain[..j], r, conditional)
    {
      ListStep(v, tab.pool, chain, j, r, conditional);
      errors' := ReportAssertionAvtabMatches(db, tab.pool[tab.htable[i][j]], r, conditional, errors');
    }
    assert chain[..|chain|] == chain;
  }

  method ReportWholeTable(db: PolicyDb, tab: Avtab, r: NeverRule, conditional: bool, errors: nat) returns (errors': nat)
    requires db.Valid() && AllInRange(db.tm, tab.pool) && forall i :: 0 <= i < |tab.htable| ==> InPool(tab.pool, tab.htable[i])
    ensures errors' == errors + TableFailures(ViewOf(db), tab.pool, tab.htable, r, conditional)
  {
    hide *;
    ghost var v := ViewOf(db);
    ViewParts(db);
    errors' := errors;
    NoFailures(v, tab.pool, r, conditional);
    for i := 0 to |tab.htable|
      invariant errors' == errors + TableFailures(v, tab.pool, tab.htable[..i], r, conditional)
    {
      TableStep(v, tab.pool, tab.htable, i, r, conditional);
      errors' := ReportChain(db, tab, i, r, conditional, errors');
    }
    assert tab.htable[..|tab.htable|] == tab.htable;
  }

  lemma NoFailures(v: View, pool: seq<Node>, r: NeverRule, conditional: bool)
    requires AllInRange(v.tm, pool)
    ensures TableFailures(v, pool, [], r, conditional) == 0 && ListFailures(v, pool, [], r, conditional) == 0
  {
  }

  /** Some linked entry violates the rule. */
  ghost predicate TableViolates(v: View, pool: seq<Node>, htable: seq<seq<nat>>, r: NeverRule, conditional: bool)
    requires AllInRange(v.tm, pool)
  {
    exists p: nat :: Linked(htable, p) && p < |pool| && Violates(v, pool[p], r, conditional)
  }

  /** Walks the table until the fast test fires. */
  method CheckTable(db: PolicyDb, tab: Avtab, r: NeverRule, conditional: bool) returns (b: bool)
    requires db.Valid() && AllInRange(db.tm, tab.pool) && forall i :: 0 <= i < |tab.htable| ==> InPool(tab.pool, tab.htable[i])
    ensures b <==> TableViolates(ViewOf(db), tab.pool, tab.htable, r, conditional)
  {
    hide Violates, KeyInRange, PolicyDb.Valid;
    ghost var v := ViewOf(db);
    for i := 0 to |tab.htable|
      invariant forall k, j :: 0 <= k < i && 0 <= j < |tab.htable[k]| ==> !Violates(v, tab.pool[tab.htable[k][j]], r, conditional)
    {
      for j := 0 to |tab.htable[i]|
        invariant forall m :: 0 <= m < j ==> !Violates(v, tab.pool[tab.htable[i][m]], r, conditional)
      {
        b := CheckAssertionAvtabMatch(db, tab.pool[tab.htable[i][j]], r, conditional);
        if b {
          assert Linked(tab.htable, tab.htable[i][j]);
          return;
        }
      }
    }
    b := false;
  }

  /** All failures of a rule, in both tables. */
  ghost function AllFailures(db: PolicyDb, r: NeverRule): nat
    requires db.Valid()
    reads db, db.te, db.teCond
  {
    PolicyInRange(db);
    ValidChains(db.teCond);
    var v := ViewOf(db);
    TableFailures(v, db.te.pool, db.te.htable, r, false) + TableFailures(v, db.teCond.pool, db.teCond.htable, r, true)
  }

  ghost predicate SomeEntryViolates(db: PolicyDb, r: NeverRule)
    requires db.Valid()
    reads db, db.te, db.teCond
  {
    PolicyInRange(db);
    var v := ViewOf(db);
    TableViolates(v, db.te.pool, db.te.htable, r, false) || TableViolates(v, db.teCond.pool, db.teCond.htable, r, true)
  }

  method ReportAssertionFailures(db: PolicyDb, r: NeverRule) returns (rc: int)
    requires db.Valid()
    ensures rc == ToInt(AllFailures(db, r))
    ensures AllFailures(db, r) < 0x8000_0000 ==> rc == AllFailures(db, r)
    ensures WrapsTo(AllFailures(db, r), rc)
  {
    hide WrapsTo;
    ToIntWraps(AllFailures(db, r));
    PolicyInRange(db);
    ValidChains(db.teCond);
    hide TableFailures, AllInRange, ToInt, PolicyDb.Valid;
    var errors := ReportWholeTable(db, db.te, r, false, 0);
    errors := ReportWholeTable(db, db.teCond, r, true, errors);
    rc := ToInt(errors);
  }

  method CheckAssertion(db: PolicyDb, r: NeverRule) returns (b: bool)
    requires db.Valid()
    ensures b <==> SomeEntryViolates(db, r)
  {
    PolicyInRange(db);
    ValidChains(db.teCond);
    hide TableViolates, AllInRange, PolicyDb.Valid;
    b := CheckTable(db, db.te, r, false);
    if !b { b := CheckTable(db, db.teCond, r, true); }
  }

  lemma {:induction false} ListPositive(v: View, pool: seq<Node>, list: seq<nat>, r: NeverRule, conditional: bool)
    requires AllInRange(v.tm, pool) && InPool(pool, list)
    ensures ListFailures(v, pool, list, r, conditional) > 0 <==>
      exists p: nat :: p in list && p < |pool| && Failures(v, pool[p], r, conditional) > 0
    decreases |list|
  {
    hide Failures;
    if list != [] {
      var k := |list| - 1;
      ListPositive(v, pool, list[..k], r, conditional);
      assert list == list[..k] + [list[k]];
    }
  }

  lemma {:induction false} TablePositive(v: View, pool: seq<Node>, htable: seq<seq<nat>>, r: NeverRule, conditional: bool)
    requires AllInRange(v.tm, pool) && forall i :: 0 <= i < |htable| ==> InPool(pool, htable[i])
    ensures TableFailures(v, pool, htable, r, conditional) > 0 <==>
      exists p: nat :: Linked(htable, p) && p < |pool| && Failures(v, pool[p], r, conditional) > 0
    decreases |htable|
  {
    hide Failures, ListFailures;
    if htable != [] {
      var k := |htable| - 1;
      TablePositive(v, pool, htable[..k], r, conditional);
      ListPositive(v, pool, htable[k], r, conditional);
      forall p: nat ensures Linked(htable, p) <==> Linked(htable[..k], p) || p in htable[k] {
        if Linked(htable, p) {
          var i :| 0 <= i < |htable| && p in htable[i];
          assert i < k ==> p in htable[..k][i];
        }
        if Linked(htable[..k], p) {
          var i :| 0 <= i < |htable[..k]| && p in htable[..k][i];
          assert p in htable[i];
        }
      }
      hide Linked;
    }
  }

  /** Some linked entry violates the rule and is not overlooked. */
  ghost predicate TableCaught(v: View, pool: seq<Node>, htable: seq<seq<nat>>, r: NeverRule, conditional: bool)
    requires AllInRange(v.tm, pool)
  {
    exists p: nat :: Linked(htable, p) && p < |pool| && Violates(v, pool[p], r, conditional) && !Overlooked(v.tm, pool[p], r)
  }

  lemma CountedCaught(v: View, pool: seq<Node>, htable: seq<seq<nat>>, r: NeverRule, conditional: bool)
    requires AllInRange(v.tm, pool) && (forall i :: 0 <= i < |htable| ==> InPool(pool, htable[i])) && r.xperms.None?
    ensures TableFailures(v, pool, htable, r, conditional) > 0 <==> TableCaught(v, pool, htable, r, conditional)
    ensures TableCaught(v, pool, htable, r, conditional) ==> TableViolates(v, pool, htable, r, conditional)
    ensures (r.self ==> !r.notself && r.ttypes == {}) ==>
      (TableCaught(v, pool, htable, r, conditional) <==> TableViolates(v, pool, htable, r, conditional))
  {
    TablePositive(v, pool, htable, r, conditional);
    hide Failures, Violates, Overlooked, TableFailures, Linked;
    forall p: nat | p < |pool|
      ensures Failures(v, pool[p], r, conditional) > 0 <==> Violates(v, pool[p], r, conditional) && !Overlooked(v.tm, pool[p], r)
      ensures (r.self ==> !r.notself && r.ttypes == {}) && Overlooked(v.tm, pool[p], r) ==> !Violates(v, pool[p], r, conditional)
    {
      ReportsExactly(v, pool[p], r, conditional);
      if (r.self ==> !r.notself && r.ttypes == {}) && Overlooked(v.tm, pool[p], r) {
        OverlookedSelf(v.tm, pool[p], r);
        SelfAlone(v, pool[p], r, conditional);
      }
    }
  }

  /** The report counts a failure for the entry: a pair fails, whatever allows the permission. */
  ghost predicate Reported(v: View, n: Node, r: NeverRule, conditional: bool)
    requires KeyInRange(v.tm, n) && r.xperms.Some?
  {
    Has(n.key.specified, ALLOWED) && HitsPerms(r, n) && SomePairFails(v, n, r, conditional, false)
  }

  ghost predicate TableReported(v: View, pool: seq<Node>, htable: seq<seq<nat>>, r: NeverRule, conditional: bool)
    requires AllInRange(v.tm, pool) && r.xperms.Some?
  {
    exists p: nat :: Linked(htable, p) && p < |pool| && Reported(v, pool[p], r, conditional)
  }

  ghost predicate SomeEntryReported(db: PolicyDb, r: NeverRule)
    requires db.Valid() && r.xperms.Some?
    reads db, db.te, db.teCond
  {
    PolicyInRange(db);
    var v := ViewOf(db);
    TableReported(v, db.te.pool, db.te.htable, r, false) || TableReported(v, db.teCond.pool, db.teCond.htable, r, true)
  }

  lemma CountedExtended(v: View, pool: seq<Node>, htable: seq<seq<nat>>, r: NeverRule, conditional: bool)
    requires AllInRange(v.tm, pool) && (forall i :: 0 <= i < |htable| ==> InPool(pool, htable[i])) && r.xperms.Some?
    ensures TableFailures(v, pool, htable, r, conditional) > 0 <==> TableReported(v, pool, htable, r, conditional)
    ensures NoBits(v.pool) && TableViolates(v, pool, htable, r, conditional) ==> TableFailures(v, pool, htable, r, conditional) > 0
  {
    TablePositive(v, pool, htable, r, conditional);
    hide Failures, Violates, Reported, TableFailures, Linked, NoBits;
    forall p: nat | p < |pool|
      ensures Failures(v, pool[p], r, conditional) > 0 <==> Reported(v, pool[p], r, conditional)
      ensures NoBits(v.pool) && Violates(v, pool[p], r, conditional) ==> Failures(v, pool[p], r, conditional) > 0
    {
      ReportsExtended(v, pool[p], r, conditional);
    }
  }

  lemma OverlookedSelf(tm: TypeMaps, n: Node, r: NeverRule)
    requires KeyInRange(tm, n) && Overlooked(tm, n, r)
    ensures r.self
  {
  }

  /** The fast test fires for an entry, and the failures counted do not wrap to none. */
  ghost predicate Caught(db: PolicyDb, r: NeverRule)
    requires db.Valid()
    reads db, db.te, db.teCond
  {
    SomeEntryViolates(db, r) && AllFailures(db, r) % 0x1_0000_0000 != 0
  }

  /**
     The whole check rejects exactly when for some neverallow rule the fast test fires and the
     failures then counted are not a multiple of 2^32.
   */
  method CheckAssertions(db: PolicyDb, rules: seq<NeverRule>) returns (rc: int)
    requires db.Valid()
    ensures rc == 0 || rc == -1
    ensures rc == -1 <==> exists k :: 0 <= k < |rules| && rules[k].neverallow && Caught(db, rules[k])
  {
    var errors := 0;
    hide AllFailures, SomeEntryViolates, PolicyDb.Valid;
    for k := 0 to |rules|
      invariant errors >= 0
      invariant errors > 0 <==> exists j :: 0 <= j < k && rules[j].neverallow && Caught(db, rules[j])
    {
      if !rules[k].neverallow { continue; }
      var found := CheckAssertion(db, rules[k]);
      if found {
        rc := ReportAssertionFailures(db, rules[k]);
        if rc < 0 { return -1; }
        errors := errors + rc;
      }
    }
    rc := if errors != 0 then -1 else 0;
  }

  ghost predicate SomeEntryCaught(db: PolicyDb, r: NeverRule)
    requires db.Valid()
    reads db, db.te, db.teCond
  {
    PolicyInRange(db);
    var v := ViewOf(db);
    TableCaught(v, db.te.pool, db.te.htable, r, false) || TableCaught(v, db.teCond.pool, db.teCond.htable, r, true)
  }

  /**
     When fewer than 2^32 failures are counted, a rule is caught exactly when an entry violates
     it outside the overlooked family; so exactly when an entry violates it, if it has no `self`
     flag, or `self` alone and no explicit targets. A rule on extended permissions is caught
     exactly when an entry violates it and one is reported, which is the same when the
     extended rules of the branches carry no permission bits.
   */
  lemma CaughtExactly(db: PolicyDb, r: NeverRule)
    requires db.Valid() && AllFailures(db, r) < 0x1_0000_0000
    ensures r.xperms.None? ==> (Caught(db, r) <==> SomeEntryCaught(db, r))
    ensures r.xperms.None? && (r.self ==> !r.notself && r.ttypes == {}) ==> (SomeEntryCaught(db, r) <==> SomeEntryViolates(db, r))
    ensures r.xperms.Some? ==> (Caught(db, r) <==> SomeEntryViolates(db, r) && SomeEntryReported(db, r))
    ensures r.xperms.Some? && NoBits(db.teCond.pool) ==> (Caught(db, r) <==> SomeEntryViolates(db, r))
  {
    hide *;
    if r.xperms.None? { PlainCaught(db, r); } else { ExtendedCaught(db, r); }
    CaughtIs(db, r);
    SmallCount(AllFailures(db, r));
  }

  lemma CaughtIs(db: PolicyDb, r: NeverRule)
    requires db.Valid()
    ensures Caught(db, r) <==> SomeEntryViolates(db, r) && AllFailures(db, r) % 0x1_0000_0000 != 0
  {
    hide SomeEntryViolates, AllFailures;
  }

  lemma SmallCount(n: nat)
    requires n < 0x1_0000_0000
    ensures n % 0x1_0000_0000 != 0 <==> n > 0
  {
  }

  lemma PlainCaught(db: PolicyDb, r: NeverRule)
    requires db.Valid() && r.xperms.None?
    ensures AllFailures(db, r) > 0 <==> SomeEntryCaught(db, r)
    ensures SomeEntryCaught(db, r) ==> SomeEntryViolates(db, r)
    ensures (r.self ==> !r.notself && r.ttypes == {}) ==> (SomeEntryCaught(db, r) <==> SomeEntryViolates(db, r))
  {
    PolicyInRange(db);
    ValidChains(db.teCond);
    hide TableFailures, TableViolates, TableCaught, AllInRange, PolicyDb.Valid;
    CountedCaught(ViewOf(db), db.te.pool, db.te.htable, r, false);
    CountedCaught(ViewOf(db), db.teCond.pool, db.teCond.htable, r, true);
  }

  lemma ExtendedCaught(db: PolicyDb, r: NeverRule)
    requires db.Valid() && r.xperms.Some?
    ensures AllFailures(db, r) > 0 <==> SomeEntryReported(db, r)
    ensures NoBits(db.teCond.pool) && SomeEntryViolates(db, r) ==> AllFailures(db, r) > 0
  {
    PolicyInRange(db);
    ValidChains(db.teCond);
    hide TableFailures, TableViolates, TableReported, AllInRange, PolicyDb.Valid, NoBits;
    CountedExtended(ViewOf(db), db.te.pool, db.te.htable, r, false);
    CountedExtended(ViewOf(db), db.teCond.pool, db.teCond.htable, r, true);
  }

  /** With `self` alone only a shared source and target type violates. */
  lemma SelfAlone(v: View, n: Node, r: NeverRule, conditional: bool)
    requires KeyInRange(v.tm, n) && r.self && !r.notself && r.ttypes == {} && Overlooked(v.tm, n, r)
    ensures !Violates(v, n, r, conditional)
  {
    hide SomePairFails, Has, HitsPerms;
    var src, tgt := v.tm.attrType[n.key.source - 1], v.tm.attrType[n.key.target - 1];
    forall s: nat, t: nat | s in src && t in tgt ensures !Forbids(r, s, t) {
      assert s in r.stypes * src * tgt <==> s in r.stypes && s in tgt;
    }
  }

  /** A rule forbidding type 1 access to type 2 and to itself misses an allow rule from 1 to 2. */
  lemma SelfWithTargetsMissed()
    ensures var tm := TypeMaps([Plain, Plain], [{0}, {1}], [{0}, {1}]);
      var n := Node(Key(1, 2, 1, ALLOWED), Datum(1, None));
      var r := NeverRule(true, true, false, {0}, {1}, [ClassPerm(1, 1)], None);
      var v := View(tm, [n], [[0]], [], []);
      KeyInRange(tm, n) && Violates(v, n, r, false) && Failures(v, n, r, false) == 0
  {
    var tm := TypeMaps([Plain, Plain], [{0}, {1}], [{0}, {1}]);
    var n := Node(Key(1, 2, 1, ALLOWED), Datum(1, None));
    var r := NeverRule(true, true, false, {0}, {1}, [ClassPerm(1, 1)], None);
    var v := View(tm, [n], [[0]], [], []);
    ReportsExactly(v, n, r, false);
    assert Has(ALLOWED, ALLOWED) && Meets(1, 1);
    assert r.perms[0].tclass == n.key.tclass;
    assert Forbids(r, 0, 1);
    assert r.stypes * tm.attrType[0] * tm.attrType[1] == {};
    hide Failures, Has, Meets;
  }

  /** An allow rule from type 1 to type 2, and extended rules on the pair that list one function each. */
  const SOME_ALLOW: Node := Node(Key(1, 2, 1, ALLOWED), Datum(1, None))
  const HARMLESS: Node := Node(XKey(0, 1, 1), Datum(1, Some(Xperms(IOCTLFUNCTION, 0, [1, 0, 0, 0, 0, 0, 0, 0]))))
  const HARMFUL: Node := Node(XKey(0, 1, 1), Datum(1, Some(Xperms(IOCTLFUNCTION, 0, [2, 0, 0, 0, 0, 0, 0, 0]))))

  /** A policy with the harmful list on a branch; its rules carry the bit of the permission they refine. */
  const LISTED_ON_BRANCH: View :=
    View(TypeMaps([Plain, Plain], [{0}, {1}], [{0}, {1}]), [SOME_ALLOW, HARMLESS], [[0, 1]], [HARMFUL],
         [CondNode(Undefined, [Push(1)], [0], [], [], [], 0, [], 0)])

  /** What lists the second function is forbidden. */
  const NEVER_SECOND: NeverRule :=
    NeverRule(true, false, false, {0}, {1}, [ClassPerm(1, 1)], Some(Xperms(IOCTLFUNCTION, 0, [2, 0, 0, 0, 0, 0, 0, 0])))

  lemma ListedFacts()
    ensures var v, x := LISTED_ON_BRANCH, XRuleOf(NEVER_SECOND);
      && ListsKnown(x, Clashing, HARMFUL) && !ListsKnown(x, Clashing, HARMLESS) && ListsKnown(x, Listing, HARMLESS)
      && Hits(x.perms, 1, 1) && Matches(XKey(0, 1, 1), HARMLESS.key) && !Matches(XKey(0, 1, 1), SOME_ALLOW.key)
      && Has(XPERMS_ALLOWED, XPERMS_ALLOWED) && !Has(XPERMS_ALLOWED, ALLOWED) && Has(ALLOWED, ALLOWED)
  {
    var x := XRuleOf(NEVER_SECOND);
    assert Meets(1, 1) && x.perms[0].tclass == 1;
    WordsShare(x.never.perms, HARMFUL.datum.xperms.value.perms);
    WordsShare(x.never.perms, HARMLESS.datum.xperms.value.perms);
    assert Meets(x.never.perms[0], HARMFUL.datum.xperms.value.perms[0]);
    hide Common;
  }

  lemma ListedFails()
    ensures var v, x := LISTED_ON_BRANCH, XRuleOf(NEVER_SECOND);
      v.tm.InRange() && HasRows(v.tm, 0, 1) && XFails(v, 0, 1, 1, x, false, true) && !XFails(v, 0, 1, 1, x, false, false)
  {
    var v, x, key := LISTED_ON_BRANCH, XRuleOf(NEVER_SECOND), XKey(0, 1, 1);
    ListedFacts();
    hide ListsKnown, Hits, Matches, Has;
    assert 0 in v.conds[0].trueList && v.pool[0] == HARMFUL;
    assert Present(v.pool, v.conds[0].trueList, key, x, Clashing, true);
    assert CondFinds(v.pool, v.conds[0], key, x, Forbidden, true);
    assert Found(v, key, x, Forbidden, true);
    assert 1 in v.teTable[0] && Hit(v.tePool, v.teTable, key, 1);
    assert InTable(v.tePool, v.teTable, key, x, Listing);
    assert Found(v, key, x, Listed, false);
    assert !Present(v.pool, v.conds[0].trueList, key, x, Clashing, false);
    assert !Present(v.pool, v.conds[0].falseList, key, x, Clashing, false);
    assert !InTable(v.tePool, v.teTable, key, x, Clashing);
    assert !Found(v, key, x, Forbidden, false);
  }

  /**
     With such rules the fast test fires and the report counts nothing: it takes the harmful
     list on the branch for a rule that allows the permission.
   */
  lemma ExtendedMissed()
    ensures KeyInRange(LISTED_ON_BRANCH.tm, SOME_ALLOW)
    ensures Violates(LISTED_ON_BRANCH, SOME_ALLOW, NEVER_SECOND, false) && Failures(LISTED_ON_BRANCH, SOME_ALLOW, NEVER_SECOND, false) == 0
  {
    hide *;
    ListedFails();
    ListedPairs();
    ReportsExtended(LISTED_ON_BRANCH, SOME_ALLOW, NEVER_SECOND, false);
    ListedParts();
  }

  lemma ListedPairs()
    ensures KeyInRange(LISTED_ON_BRANCH.tm, SOME_ALLOW) && NEVER_SECOND.xperms.Some?
    ensures Pairs(LISTED_ON_BRANCH.tm, SOME_ALLOW, NEVER_SECOND) == {(0, 1)} && SomePair(LISTED_ON_BRANCH.tm, SOME_ALLOW, NEVER_SECOND)
  {
    var tm, n, r := LISTED_ON_BRANCH.tm, SOME_ALLOW, NEVER_SECOND;
    assert Forbids(r, 0, 1);
    forall p ensures p in Pairs(tm, n, r) <==> p == (0, 1) { }
  }

  lemma ListedParts()
    requires KeyInRange(LISTED_ON_BRANCH.tm, SOME_ALLOW) && NEVER_SECOND.xperms.Some?
    requires Pairs(LISTED_ON_BRANCH.tm, SOME_ALLOW, NEVER_SECOND) == {(0, 1)} && SomePair(LISTED_ON_BRANCH.tm, SOME_ALLOW, NEVER_SECOND)
    requires var v, x := LISTED_ON_BRANCH, XRuleOf(NEVER_SECOND);
      v.tm.InRange() && HasRows(v.tm, 0, 1) && XFails(v, 0, 1, 1, x, false, true) && !XFails(v, 0, 1, 1, x, false, false)
    ensures Violates(LISTED_ON_BRANCH, SOME_ALLOW, NEVER_SECOND, false) && !Reported(LISTED_ON_BRANCH, SOME_ALLOW, NEVER_SECOND, false)
  {
    ListedFacts();
    hide XFails, Hits, Has, Pairs, SomePair, HasRows, ListsKnown, Matches;
    assert (0, 1) in Pairs(LISTED_ON_BRANCH.tm, SOME_ALLOW, NEVER_SECOND);
  }

  // ---------------------------------------------------------------- extended permissions

  /** A pair an entry allows a permission to is walked for it; under `self` the pair of a type with itself. */
  lemma PairWalked(tm: TypeMaps, n: Node, r: NeverRule, s: nat, t: nat)
    requires tm.Valid() && KeyInRange(tm, n) && tm.Concrete(s) && tm.Concrete(t) && tm.Applies(n.key, s, t, n.key.tclass)
    requires Forbids(r, s, t) && (r.self ==> !r.notself && s == t)
    ensures (s, t) in Pairs(tm, n, r) && SomePair(tm, n, r) && HasRows(tm, s, t)
  {
    assert s in tm.attrType[n.key.source - 1] && t in tm.attrType[n.key.target - 1];
  }

  lemma EntryViolates(v: View, pool: seq<Node>, htable: seq<seq<nat>>, r: NeverRule, conditional: bool, s: nat, t: nat, c: nat)
    requires v.tm.Valid() && AllInRange(v.tm, pool) && r.xperms.Some? && v.tm.Concrete(s) && v.tm.Concrete(t)
    requires Forbids(r, s, t) && (r.self ==> !r.notself && s == t)
    requires SomeEntry(v.tm, pool, htable, s, t, c, XRuleOf(r)) && XFails(v, s, t, c, XRuleOf(r), conditional, true)
    ensures TableViolates(v, pool, htable, r, conditional)
  {
    hide XFails, Linked, Hits, Has, Pairs, SomePair, TypeMaps.Applies, TypeMaps.Valid, Forbids;
    var p: nat :| Entry(v.tm, pool, htable, p, s, t, c, XRuleOf(r));
    var n := pool[p];
    EntryClass(v.tm, pool, htable, p, s, t, c, XRuleOf(r));
    PairWalked(v.tm, n, r, s, t);
    assert SomePairFails(v, n, r, conditional, true);
    assert Violates(v, n, r, conditional);
  }

  lemma EntryClass(tm: TypeMaps, pool: seq<Node>, htable: seq<seq<nat>>, p: nat, s: nat, t: nat, c: nat, r: XRule)
    requires tm.InRange() && Entry(tm, pool, htable, p, s, t, c, r)
    ensures pool[p].key.tclass == c
  {
    hide Hits, Has, Linked;
  }

  /**
     No rule on extended permissions is missed: if under some assignment with defined
     conditions a pair it is about is allowed what it is to prevent, some entry violates it.
   */
  lemma ExtendedSound(db: PolicyDb, asg: seq<bool>, r: NeverRule, s: nat, t: nat, c: nat)
    requires db.Valid() && |asg| == |db.bools| && AllDefined(db.condList, asg) && db.tm.Concrete(s) && db.tm.Concrete(t)
    requires r.xperms.Some? && Forbids(r, s, t) && (r.self ==> !r.notself && s == t)
    requires Violated(db, asg, s, t, c, XRuleOf(r))
    ensures SomeEntryViolates(db, r)
  {
    PolicyInRange(db);
    var v, x := ViewOf(db), XRuleOf(r);
    hide TableViolates, SomeEntry, XFails, AllInRange, Violated, Forbids, AllDefined;
    ViolatedFails(db, asg, s, t, c, x);
    if SomeEntry(db.tm, db.te.pool, db.te.htable, s, t, c, x) && XFails(v, s, t, c, x, false, true) {
      EntryViolates(v, db.te.pool, db.te.htable, r, false, s, t, c);
    } else {
      EntryViolates(v, db.teCond.pool, db.teCond.htable, r, true, s, t, c);
    }
  }
}
