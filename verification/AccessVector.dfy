/**
 The access vectors of one concrete pair, computed from both rule tables as
 context_struct_compute_av and cond_compute_av do (src/services.c, src/conditional.c).
 */
module AccessVector {
  import opened Prelude
  import opened Avtab
  import opened Masks
  import opened TypeMaps
  import opened AccessDecision
  import opened CondExpr
  import opened PolicyDb
  import opened Conditional
  import Optimize
  import opened OptimizeCond

  datatype Avd = Avd(allowed: bv32, auditallow: bv32, auditdeny: bv32)

  /** The defaults: nothing allowed or audited, every denial audited. */
  const NO_RULES: Avd := Avd(0, 0, 0xFFFF_FFFF)

  ghost predicate Grants(avd: Avd, k: Kind, m: bv32) {
    match k
    case Allow => Meets(avd.allowed, m)
    case AuditAllow => Meets(avd.auditallow, m)
    case AuditDeny => Meets(Invert(avd.auditdeny), m)
    case _ => false
  }

  lemma NothingGranted(k: Kind, m: bv32)
    ensures !Grants(NO_RULES, k, m)
  {
    hide Meets, Invert;
    NoneMet(m);
  }

  /** What one rule adds: permission masks grow, the auditdeny mask shrinks. */
  function AddRule(avd: Avd, k: Kind, data: bv32): Avd {
    match k
    case Allow => avd.(allowed := Union(avd.allowed, data))
    case AuditAllow => avd.(auditallow := Union(avd.auditallow, data))
    case AuditDeny => avd.(auditdeny := Intersection(avd.auditdeny, data))
    case _ => avd
  }

  lemma AddRuleGrants(avd: Avd, k: Kind, data: bv32, l: Kind, m: bv32)
    ensures Grants(AddRule(avd, k, data), l, m) <==>
      Grants(avd, l, m) || (IsAv(l) && l == k && Meets(Effect(k, data), m))
  {
    hide Meets, Invert, Union, Intersection;
    UnionMeets(avd.allowed, data, m);
    UnionMeets(avd.auditallow, data, m);
    IntersectionMeets(avd.auditdeny, data, m);
  }

  ghost predicate NodeGrants(n: Node, conditional: bool, l: Kind, m: bv32) {
    IsEnabled(n.key.specified) == conditional && Answers(n, Bits(l, m))
  }

  /** Whether a conditional node is of kind `l` and enabled. */
  predicate EnabledAs(x: bv16, l: Kind) {
    x & (KindBit(l) | ENABLED) == KindBit(l) | ENABLED
  }

  lemma ExactKind(x: bv16, k: Kind)
    ensures x == KindBit(k) <==> OfKind(x, k) && !IsEnabled(x)
  {
  }

  lemma EnabledKind(x: bv16, k: Kind, l: Kind)
    requires OfKind(x, k)
    ensures EnabledAs(x, l) <==> l == k && IsEnabled(x)
  {
  }

  /** One unconditional node: its specifier must be exactly one of the three. */
  method AddNode(avd: Avd, n: Node) returns (r: Avd)
    ensures forall l, m :: Grants(r, l, m) <==> Grants(avd, l, m) || NodeGrants(n, false, l, m)
  {
    var x := n.key.specified;
    forall l ensures x == KindBit(l) <==> OfKind(x, l) && !IsEnabled(x) { ExactKind(x, l); }
    ghost var k: Kind;
    r := avd;
    if x == ALLOWED {
      r, k := avd.(allowed := Union(avd.allowed, n.datum.data)), Allow;
    } else if x == AUDITALLOW {
      r, k := avd.(auditallow := Union(avd.auditallow, n.datum.data)), AuditAllow;
    } else if x == AUDITDENY {
      r, k := avd.(auditdeny := Intersection(avd.auditdeny, n.datum.data)), AuditDeny;
    } else {
      forall l, m ensures !NodeGrants(n, false, l, m) { }
      return;
    }
    assert x == KindBit(k);
    forall l, m ensures Grants(r, l, m) <==> Grants(avd, l, m) || NodeGrants(n, false, l, m) {
      AddRuleGrants(avd, k, n.datum.data, l, m);
      OnlyKind(n, k, l);
    }
  }

  lemma OnlyKind(n: Node, k: Kind, l: Kind)
    requires OfKind(n.key.specified, k)
    ensures OfKind(n.key.specified, l) ==> l == k
  {
    if OfKind(n.key.specified, l) { KindUnique(n.key.specified, k, l); }
  }

  /** One conditional node: three independent tests, each needing the enabled flag. */
  method AddCondNode(avd: Avd, n: Node) returns (r: Avd)
    requires OneKind(n.key.specified)
    ensures forall l, m :: Grants(r, l, m) <==> Grants(avd, l, m) || NodeGrants(n, true, l, m)
  {
    var x := n.key.specified;
    ghost var k: Kind :| OfKind(x, k);
    hide *;
    AddRuleOther(avd, k, n.datum.data);
    EnabledKind(x, k, Allow);
    EnabledKind(x, k, AuditDeny);
    EnabledKind(x, k, AuditAllow);
    r := avd;
    if EnabledAs(x, Allow) { r := AddRule(r, Allow, n.datum.data); }
    if EnabledAs(x, AuditDeny) { r := AddRule(r, AuditDeny, n.datum.data); }
    if EnabledAs(x, AuditAllow) { r := AddRule(r, AuditAllow, n.datum.data); }
    assert r == if IsEnabled(x) then AddRule(avd, k, n.datum.data) else avd;
    forall l, m ensures Grants(r, l, m) <==> Grants(avd, l, m) || NodeGrants(n, true, l, m) {
      AddRuleGrants(avd, k, n.datum.data, l, m);
      KindGrants(n, k, l, m);
    }
  }

  lemma AddRuleOther(avd: Avd, k: Kind, data: bv32)
    ensures k != Allow && k != AuditAllow && k != AuditDeny ==> AddRule(avd, k, data) == avd
  {
  }

  lemma KindGrants(n: Node, k: Kind, l: Kind, m: bv32)
    requires OfKind(n.key.specified, k)
    ensures NodeGrants(n, true, l, m) <==>
      IsEnabled(n.key.specified) && IsAv(l) && l == k && Meets(Effect(k, n.datum.data), m)
  {
    OnlyKind(n, k, l);
  }

  /** The rules for one exact pair of types or attributes, in either table. */
  ghost predicate PairGrants(pool: seq<Node>, htable: seq<seq<nat>>, key: Key, conditional: bool, l: Kind, m: bv32) {
    exists p: nat :: Hit(pool, htable, key, p) && NodeGrants(pool[p], conditional, l, m)
  }

  /** cond_compute_av, and the same walk over the unconditional table. */
  method AddPair(tab: Avtab, key: Key, conditional: bool, avd: Avd) returns (r: Avd)
    requires tab.Valid() && forall p :: 0 <= p < |tab.pool| ==> OneKind(tab.pool[p].key.specified)
    ensures forall l, m :: Grants(r, l, m) <==> Grants(avd, l, m) || PairGrants(tab.pool, tab.htable, key, conditional, l, m)
  {
    hide Grants, NodeGrants, Matches, Linked;
    var ps := tab.Enumerate(key);
    r := avd;
    for i := 0 to |ps|
      invariant forall l, m :: Grants(r, l, m) <==>
        Grants(avd, l, m) || exists j :: 0 <= j < i && ps[j] < |tab.pool| && NodeGrants(tab.pool[ps[j]], conditional, l, m)
    {
      assert ps[i] in ps;
      if conditional { r := AddCondNode(r, tab.pool[ps[i]]); } else { r := AddNode(r, tab.pool[ps[i]]); }
    }
    forall l, m ensures Grants(r, l, m) <==> Grants(avd, l, m) || PairGrants(tab.pool, tab.htable, key, conditional, l, m) {
      if PairGrants(tab.pool, tab.htable, key, conditional, l, m) {
        var p: nat :| Hit(tab.pool, tab.htable, key, p) && NodeGrants(tab.pool[p], conditional, l, m);
        var j :| 0 <= j < |ps| && ps[j] == p;
      }
      if j :| 0 <= j < |ps| && ps[j] < |tab.pool| && NodeGrants(tab.pool[ps[j]], conditional, l, m) {
        assert ps[j] in ps;
      }
    }
  }

  /** Some rule whose source and target both lie in the processed part contributes. */
  ghost predicate RowGrants(db: PolicyDb, s: nat, t: nat, c: nat, i: nat, j: nat, l: Kind, m: bv32)
    requires db.tm.InRange() && s < db.tm.Nprim() && t < db.tm.Nprim()
    reads db, db.te, db.teCond
  {
    exists x: nat, y: nat :: x in db.tm.typeAttr[s] && y in db.tm.typeAttr[t] && (x < i || (x == i && y < j)) &&
      BothGrant(db, x, y, c, l, m)
  }

  ghost predicate BothGrant(db: PolicyDb, x: nat, y: nat, c: nat, l: Kind, m: bv32)
    reads db, db.te, db.teCond
  {
    var key := Key(x + 1, y + 1, c, AV);
    PairGrants(db.te.pool, db.te.htable, key, false, l, m) || PairGrants(db.teCond.pool, db.teCond.htable, key, true, l, m)
  }

  /** The unconditional table carries no enabled flags. */
  ghost predicate NoFlags(pool: seq<Node>) {
    forall p :: 0 <= p < |pool| ==> !IsEnabled(pool[p].key.specified)
  }

  /**
     The computed vectors are the declared decision under the current booleans: a permission
     bit is allowed, audited or exempted exactly when some reaching rule in force says so.
   */
  method ComputeAv(db: PolicyDb, s: nat, t: nat, c: nat) returns (avd: Avd)
    requires Synced(db) && NoFlags(db.te.pool) && db.tm.Concrete(s) && db.tm.Concrete(t)
    ensures forall l, m :: IsAv(l) ==> (Grants(avd, l, m) <==> db.Decides(db.bools, Access(s, t, c, Bits(l, m))))
  {
    avd := NO_RULES;
    forall l, m ensures !Grants(avd, l, m) { NothingGranted(l, m); }
    var tm, n := db.tm, db.tm.Nprim();
    forall p | 0 <= p < |db.te.pool| ensures OneKind(db.te.pool[p].key.specified) { assert RuleOk(tm, db.te.pool[p]); }
    forall p | 0 <= p < |db.teCond.pool| ensures OneKind(db.teCond.pool[p].key.specified) { assert RuleOk(tm, db.teCond.pool[p]); }
    hide Grants, PairGrants, Synced, OneKind;
    for i := 0 to n
      invariant forall l, m :: Grants(avd, l, m) <==> RowGrants(db, s, t, c, i, 0, l, m)
    {
      if i in tm.typeAttr[s] {
        for j := 0 to n
          invariant forall l, m :: Grants(avd, l, m) <==> RowGrants(db, s, t, c, i, j, l, m)
        {
          ghost var before := avd;
          if j in tm.typeAttr[t] {
            avd := AddPair(db.te, Key(i + 1, j + 1, c, AV), false, avd);
            avd := AddPair(db.teCond, Key(i + 1, j + 1, c, AV), true, avd);
          }
          forall l, m ensures Grants(avd, l, m) <==> RowGrants(db, s, t, c, i, j + 1, l, m) {
            RowStep(db, s, t, c, i, j, l, m);
          }
        }
        forall l, m ensures RowGrants(db, s, t, c, i, n, l, m) <==> RowGrants(db, s, t, c, i + 1, 0, l, m) {
          RowEnd(db, s, t, c, i, l, m);
        }
      } else {
        forall l, m ensures RowGrants(db, s, t, c, i, 0, l, m) <==> RowGrants(db, s, t, c, i + 1, 0, l, m) {
          RowEnd(db, s, t, c, i, l, m);
        }
      }
    }
    forall l, m | IsAv(l) ensures Grants(avd, l, m) <==> db.Decides(db.bools, Access(s, t, c, Bits(l, m))) {
      RowsDecide(db, s, t, c, l, m);
    }
  }

  lemma RowStep(db: PolicyDb, s: nat, t: nat, c: nat, i: nat, j: nat, l: Kind, m: bv32)
    requires db.tm.InRange() && s < db.tm.Nprim() && t < db.tm.Nprim() && i in db.tm.typeAttr[s]
    ensures RowGrants(db, s, t, c, i, j + 1, l, m) <==>
      RowGrants(db, s, t, c, i, j, l, m) || (j in db.tm.typeAttr[t] && BothGrant(db, i, j, c, l, m))
  {
    hide BothGrant;
  }

  lemma RowEnd(db: PolicyDb, s: nat, t: nat, c: nat, i: nat, l: Kind, m: bv32)
    requires db.tm.InRange() && s < db.tm.Nprim() && t < db.tm.Nprim()
    ensures RowGrants(db, s, t, c, i, db.tm.Nprim(), l, m) <==> RowGrants(db, s, t, c, i + 1, 0, l, m)
    ensures i !in db.tm.typeAttr[s] ==> (RowGrants(db, s, t, c, i, 0, l, m) <==> RowGrants(db, s, t, c, i + 1, 0, l, m))
  {
    hide BothGrant;
  }

  lemma AvMaskMatches(x: bv16, k: Kind)
    requires OfKind(x, k)
    ensures Overlaps(AV, x) <==> IsAv(k)
  {
  }

  /** A linked rule with the right flag that speaks about the pair. */
  ghost predicate FlagSpeaks(tm: TypeMaps, pool: seq<Node>, htable: seq<seq<nat>>, conditional: bool, p: nat, a: Access)
    requires tm.InRange()
  {
    Linked(htable, p) && p < |pool| && IsEnabled(pool[p].key.specified) == conditional && Speaks(tm, pool[p], a)
  }

  /** A hit for the access-vector mask is a reaching rule of one of the three kinds. */
  lemma HitReaches(tm: TypeMaps, pool: seq<Node>, htable: seq<seq<nat>>, a: Access, x: nat, y: nat, p: nat, conditional: bool)
    requires tm.InRange() && tm.Concrete(a.s) && tm.Concrete(a.t) && a.q.Bits? && IsAv(a.q.kind)
    ensures x in tm.typeAttr[a.s] && y in tm.typeAttr[a.t] &&
      Hit(pool, htable, Key(x + 1, y + 1, a.c, AV), p) && NodeGrants(pool[p], conditional, a.q.kind, a.q.mask)
      <==> FlagSpeaks(tm, pool, htable, conditional, p, a) && pool[p].key.source == x + 1 && pool[p].key.target == y + 1
  {
    hide Linked, OfKind, Overlaps, IsEnabled, Meets, Effect;
    if p < |pool| && OfKind(pool[p].key.specified, a.q.kind) {
      AvMaskMatches(pool[p].key.specified, a.q.kind);
    }
  }

  lemma TableRows(tm: TypeMaps, pool: seq<Node>, htable: seq<seq<nat>>, a: Access, conditional: bool)
    requires tm.InRange() && tm.Concrete(a.s) && tm.Concrete(a.t) && a.q.Bits? && IsAv(a.q.kind)
    ensures (exists x: nat, y: nat :: x in tm.typeAttr[a.s] && y in tm.typeAttr[a.t] &&
              PairGrants(pool, htable, Key(x + 1, y + 1, a.c, AV), conditional, a.q.kind, a.q.mask))
      <==> exists p: nat :: FlagSpeaks(tm, pool, htable, conditional, p, a)
  {
    hide Linked, Matches, NodeGrants;
    if x: nat, y: nat :|
      (x in tm.typeAttr[a.s] && y in tm.typeAttr[a.t] &&
       PairGrants(pool, htable, Key(x + 1, y + 1, a.c, AV), conditional, a.q.kind, a.q.mask)) {
      var p: nat :| Hit(pool, htable, Key(x + 1, y + 1, a.c, AV), p) && NodeGrants(pool[p], conditional, a.q.kind, a.q.mask);
      HitReaches(tm, pool, htable, a, x, y, p, conditional);
    }
    if p: nat :| FlagSpeaks(tm, pool, htable, conditional, p, a) {
      var x, y := pool[p].key.source - 1, pool[p].key.target - 1;
      HitReaches(tm, pool, htable, a, x, y, p, conditional);
      assert PairGrants(pool, htable, Key(x + 1, y + 1, a.c, AV), conditional, a.q.kind, a.q.mask);
    }
  }

  lemma RowsDecide(db: PolicyDb, s: nat, t: nat, c: nat, l: Kind, m: bv32)
    requires Synced(db) && NoFlags(db.te.pool) && db.tm.Concrete(s) && db.tm.Concrete(t) && IsAv(l)
    ensures RowGrants(db, s, t, c, db.tm.Nprim(), 0, l, m) <==> db.Decides(db.bools, Access(s, t, c, Bits(l, m)))
  {
    var tm, a := db.tm, Access(s, t, c, Bits(l, m));
    TableRows(tm, db.te.pool, db.te.htable, a, false);
    TableRows(tm, db.teCond.pool, db.teCond.htable, a, true);
    FlaggedDecides(db, a);
    UnflaggedDecides(tm, db.te.pool, db.te.htable, a);
    RowsSplit(db, a);
    hide RowGrants, FlagSpeaks, PairGrants, TableDecides, CondDecides;
  }

  lemma UnflaggedDecides(tm: TypeMaps, pool: seq<Node>, htable: seq<seq<nat>>, a: Access)
    requires tm.InRange() && NoFlags(pool)
    ensures TableDecides(tm, pool, htable, a) <==> exists p: nat :: FlagSpeaks(tm, pool, htable, false, p, a)
  {
    hide Speaks, Linked, IsEnabled;
    if TableDecides(tm, pool, htable, a) {
      var p: nat :| Linked(htable, p) && p < |pool| && Speaks(tm, pool[p], a);
      assert FlagSpeaks(tm, pool, htable, false, p, a);
    }
  }

  lemma RowsSplit(db: PolicyDb, a: Access)
    requires db.tm.InRange() && db.tm.Concrete(a.s) && db.tm.Concrete(a.t) && a.q.Bits?
    ensures RowGrants(db, a.s, a.t, a.c, db.tm.Nprim(), 0, a.q.kind, a.q.mask) <==>
      || (exists x: nat, y: nat :: x in db.tm.typeAttr[a.s] && y in db.tm.typeAttr[a.t] &&
           PairGrants(db.te.pool, db.te.htable, Key(x + 1, y + 1, a.c, AV), false, a.q.kind, a.q.mask))
      || (exists x: nat, y: nat :: x in db.tm.typeAttr[a.s] && y in db.tm.typeAttr[a.t] &&
           PairGrants(db.teCond.pool, db.teCond.htable, Key(x + 1, y + 1, a.c, AV), true, a.q.kind, a.q.mask))
  {
    hide PairGrants;
  }

  /** Enabled conditional rules are exactly the rules of the active branches. */
  lemma FlaggedDecides(db: PolicyDb, a: Access)
    requires Synced(db)
    ensures CondDecides(db.tm, db.teCond.pool, db.condList, db.bools, a) <==>
      exists p: nat :: FlagSpeaks(db.tm, db.teCond.pool, db.teCond.htable, true, p, a)
  {
    var conds, pool := db.condList, db.teCond.pool;
    hide Speaks, IsEnabled, Linked, RulesOk;
    if CondDecides(db.tm, pool, conds, db.bools, a) {
      var i :| 0 <= i < |conds| && ListDecides(db.tm, pool, Branch(conds[i], Evaluate(conds[i].expr, db.bools)), a);
      var p: nat :| p in Branch(conds[i], Evaluate(conds[i].expr, db.bools)) && p < |pool| && Speaks(db.tm, pool[p], a);
      assert NodeFlagged(pool, conds[i]);
      UsesOf(conds, i, p);
      assert FlagSpeaks(db.tm, pool, db.teCond.htable, true, p, a);
    }
    if p: nat :| FlagSpeaks(db.tm, pool, db.teCond.htable, true, p, a) {
      var i := UsesOwner(conds, p);
      assert NodeFlagged(pool, conds[i]);
      assert p in Branch(conds[i], Evaluate(conds[i].expr, db.bools));
      assert ListDecides(db.tm, pool, Branch(conds[i], Evaluate(conds[i].expr, db.bools)), a);
    }
  }

  /** The three vectors are determined by the masks they grant. */
  lemma VectorsDetermined(a: Avd, b: Avd)
    requires forall l, m :: IsAv(l) ==> (Grants(a, l, m) <==> Grants(b, l, m))
    ensures a == b
  {
    hide Meets, Invert;
    forall m: bv32
      ensures Meets(a.allowed, m) <==> Meets(b.allowed, m)
      ensures Meets(a.auditallow, m) <==> Meets(b.auditallow, m)
      ensures Meets(Invert(a.auditdeny), m) <==> Meets(Invert(b.auditdeny), m)
    {
      assert Grants(a, Allow, m) <==> Grants(b, Allow, m);
      assert Grants(a, AuditAllow, m) <==> Grants(b, AuditAllow, m);
      assert Grants(a, AuditDeny, m) <==> Grants(b, AuditDeny, m);
    }
    MasksDetermine(a.allowed, b.allowed);
    MasksDetermine(a.auditallow, b.auditallow);
    MasksDetermine(Invert(a.auditdeny), Invert(b.auditdeny));
    InvertInjective(a.auditdeny, b.auditdeny);
  }

  /**
     Around the optimiser the computed vectors are the decisions of the policy given and of the
     policy left, and over closed rows they are the same words.
   */
  method VectorsAroundOptimize(db: PolicyDb, s: nat, t: nat, c: nat, policyType: PolicyType, policyVers: nat)
    returns (before: Avd, ok: bool, after: Avd)
    requires Synced(db) && NoFlags(db.te.pool) && db.tm.Concrete(s) && db.tm.Concrete(t)
    modifies db`condList, db.te, db.teCond
    ensures Synced(db) && Optimize.SameKeys(old(db.te.pool), db.te.pool)
    ensures ok <==> policyType == Kern && !(20 <= policyVers <= 23)
    ensures ok && UniqueKeys(old(db.te.pool), old(db.te.htable)) ==>
      Optimal(db, Optimize.SingleKeys(old(db.te.pool), old(db.te.htable)))
    ensures forall l, m :: IsAv(l) ==> (Grants(before, l, m) <==> old(db.Decides(db.bools, Access(s, t, c, Bits(l, m)))))
    ensures forall l, m :: IsAv(l) ==> (Grants(after, l, m) <==> db.Decides(db.bools, Access(s, t, c, Bits(l, m))))
    ensures db.tm.RowsClosed() ==> before == after
  {
    before := ComputeAv(db, s, t, c);
    ghost var bools := db.bools;
    assert forall l, m :: IsAv(l) ==> (Grants(before, l, m) <==> db.Decides(bools, Access(s, t, c, Bits(l, m))));
    ok := PolicydbOptimize(db, policyType, policyVers);
    after := ComputeAv(db, s, t, c);
    hide Grants;
    if db.tm.RowsClosed() { VectorsDetermined(before, after); }
  }
}
