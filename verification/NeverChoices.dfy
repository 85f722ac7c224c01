/**
 When a neverallow rule on extended permissions can be violated for a pair at all: an exact
 condition on the rules, to hold against what the check asks (src/assertion.c).
 */
module NeverChoices {
  import opened Prelude
  import opened Masks
  import opened Avtab
  import opened TypeMaps
  import opened AccessDecision
  import opened CondExpr
  import opened PolicyDb
  import opened NeverXperms

  /** Where a rule stands: in the table or on a branch of a conditional. */
  datatype Site = Table | Branch(k: nat, side: bool)

  /** A rule at the site reaches the pair and counts as `part`. */
  ghost predicate SiteHas(v: View, site: Site, s: nat, t: nat, c: nat, r: XRule, part: Part)
    requires v.tm.InRange() && v.tm.Concrete(s) && v.tm.Concrete(t)
  {
    match site
    case Table =>
      exists p: nat :: Linked(v.teTable, p) && p < |v.tePool| && v.tm.Applies(v.tePool[p].key, s, t, c) && Plays(r, part, v.tePool[p], true)
    case Branch(k, side) =>
      k < |v.conds| &&
      exists p: nat :: p in ListOf(v.conds[k], side) && p < |v.pool| && v.tm.Applies(v.pool[p].key, s, t, c) && Plays(r, part, v.pool[p], true)
  }

  /** The table is always in force, a branch when it is chosen. */
  predicate Active(choice: seq<bool>, site: Site) {
    site.Table? || (site.k < |choice| && choice[site.k] == site.side)
  }

  ghost predicate Under(v: View, choice: seq<bool>, s: nat, t: nat, c: nat, r: XRule, part: Part)
    requires v.tm.InRange() && v.tm.Concrete(s) && v.tm.Concrete(t)
  {
    exists site :: Active(choice, site) && SiteHas(v, site, s, t, c, r, part)
  }

  /** Under a choice of branches the permission is allowed, with something forbidden listed or with nothing listed. */
  ghost predicate ViolatedUnder(v: View, choice: seq<bool>, s: nat, t: nat, c: nat, r: XRule)
    requires v.tm.InRange() && v.tm.Concrete(s) && v.tm.Concrete(t)
  {
    Under(v, choice, s, t, c, r, Base) && (Under(v, choice, s, t, c, r, Clashing) || !Under(v, choice, s, t, c, r, Listing))
  }

  // ---------------------------------------------------------------- the condition on the rules

  /** Some choice has both sites in force. */
  predicate Together(a: Site, b: Site) {
    a.Table? || b.Table? || a.k != b.k || a.side == b.side
  }

  /** Some choice has site `a` in force and nothing listed. */
  ghost predicate Unlisted(v: View, a: Site, s: nat, t: nat, c: nat, r: XRule)
    requires v.tm.InRange() && v.tm.Concrete(s) && v.tm.Concrete(t)
  {
    !SiteHas(v, Table, s, t, c, r, Listing) && forall k: nat :: k < |v.conds| ==> Spares(v, a, k, s, t, c, r)
  }

  /** A branch of conditional `k` that goes with site `a` lists nothing. */
  ghost predicate Spares(v: View, a: Site, k: nat, s: nat, t: nat, c: nat, r: XRule)
    requires v.tm.InRange() && v.tm.Concrete(s) && v.tm.Concrete(t)
  {
    exists side :: Together(a, Branch(k, side)) && !SiteHas(v, Branch(k, side), s, t, c, r, Listing)
  }

  /**
     A rule that allows the permission can be in force together with a list of something
     forbidden, or without any list.
   */
  ghost predicate Violable(v: View, s: nat, t: nat, c: nat, r: XRule)
    requires v.tm.InRange() && v.tm.Concrete(s) && v.tm.Concrete(t)
  {
    exists a :: SiteHas(v, a, s, t, c, r, Base) &&
      (Unlisted(v, a, s, t, c, r) || exists x :: SiteHas(v, x, s, t, c, r, Clashing) && Together(a, x))
  }

  /** The choice that has two sites in force. */
  function Joining(n: nat, a: Site, b: Site): (choice: seq<bool>)
    ensures |choice| == n
  {
    seq(n, k => if a.Branch? && a.k == k then a.side else if b.Branch? && b.k == k then b.side else true)
  }

  lemma SiteInRange(v: View, site: Site, s: nat, t: nat, c: nat, r: XRule, part: Part)
    requires v.tm.InRange() && v.tm.Concrete(s) && v.tm.Concrete(t) && SiteHas(v, site, s, t, c, r, part)
    ensures site.Branch? ==> site.k < |v.conds|
  {
  }

  lemma JoinedActive(n: nat, a: Site, b: Site)
    requires Together(a, b) && (a.Branch? ==> a.k < n) && (b.Branch? ==> b.k < n)
    ensures Active(Joining(n, a, b), a) && Active(Joining(n, a, b), b)
  {
  }

  /** The choice that has site `a` in force and, where it is free, the branch that lists nothing. */
  ghost function Avoiding(v: View, a: Site, s: nat, t: nat, c: nat, r: XRule): (choice: seq<bool>)
    requires v.tm.InRange() && v.tm.Concrete(s) && v.tm.Concrete(t)
    ensures |choice| == |v.conds|
  {
    seq(|v.conds|, k requires 0 <= k < |v.conds| =>
      if a.Branch? && a.k == k then a.side else !SiteHas(v, Branch(k, true), s, t, c, r, Listing))
  }

  lemma AvoidingLists(v: View, a: Site, s: nat, t: nat, c: nat, r: XRule)
    requires v.tm.InRange() && v.tm.Concrete(s) && v.tm.Concrete(t) && Unlisted(v, a, s, t, c, r)
    ensures !Under(v, Avoiding(v, a, s, t, c, r), s, t, c, r, Listing)
  {
    hide SiteHas;
    var choice := Avoiding(v, a, s, t, c, r);
    forall site | Active(choice, site) ensures !SiteHas(v, site, s, t, c, r, Listing) {
      if site.Branch? {
        assert Spares(v, a, site.k, s, t, c, r);
        var side :| Together(a, Branch(site.k, side)) && !SiteHas(v, Branch(site.k, side), s, t, c, r, Listing);
      }
    }
  }

  /** Exactly when: some choice of branches violates the rule if and only if the rules can be so combined. */
  lemma ViolableExactly(v: View, s: nat, t: nat, c: nat, r: XRule)
    requires v.tm.InRange() && v.tm.Concrete(s) && v.tm.Concrete(t)
    ensures (exists choice: seq<bool> :: |choice| == |v.conds| && ViolatedUnder(v, choice, s, t, c, r)) <==> Violable(v, s, t, c, r)
  {
    hide SiteHas;
    if choice: seq<bool> :| |choice| == |v.conds| && ViolatedUnder(v, choice, s, t, c, r) {
      var a :| Active(choice, a) && SiteHas(v, a, s, t, c, r, Base);
      if Under(v, choice, s, t, c, r, Clashing) {
        var x :| Active(choice, x) && SiteHas(v, x, s, t, c, r, Clashing);
        assert Together(a, x);
      } else {
        assert Active(choice, Table);
        forall k: nat | k < |v.conds| ensures Spares(v, a, k, s, t, c, r) {
          assert Active(choice, Branch(k, choice[k]));
          assert Together(a, Branch(k, choice[k]));
        }
        assert Unlisted(v, a, s, t, c, r);
      }
    }
    if Violable(v, s, t, c, r) {
      var a :| SiteHas(v, a, s, t, c, r, Base) &&
        (Unlisted(v, a, s, t, c, r) || exists x :: SiteHas(v, x, s, t, c, r, Clashing) && Together(a, x));
      SiteInRange(v, a, s, t, c, r, Base);
      if Unlisted(v, a, s, t, c, r) {
        AvoidingLists(v, a, s, t, c, r);
        assert Active(Avoiding(v, a, s, t, c, r), a);
        assert ViolatedUnder(v, Avoiding(v, a, s, t, c, r), s, t, c, r);
      } else {
        var x :| SiteHas(v, x, s, t, c, r, Clashing) && Together(a, x);
        SiteInRange(v, x, s, t, c, r, Clashing);
        JoinedActive(|v.conds|, a, x);
        assert ViolatedUnder(v, Joining(|v.conds|, a, x), s, t, c, r);
      }
    }
  }

  // ---------------------------------------------------------------- choices and assignments

  /** A rule that answers the question is in force at the site. */
  ghost predicate SiteSpeaks(v: View, site: Site, a: Access)
    requires v.tm.InRange()
  {
    match site
    case Table => exists p: nat :: Linked(v.teTable, p) && p < |v.tePool| && Speaks(v.tm, v.tePool[p], a)
    case Branch(k, side) => k < |v.conds| && exists p: nat :: p in ListOf(v.conds[k], side) && p < |v.pool| && Speaks(v.tm, v.pool[p], a)
  }

  lemma BranchTaken(conds: seq<CondNode>, asg: seq<bool>, k: nat, side: bool)
    requires ExprsInScope(conds, |asg|) && AllDefined(conds, asg) && k < |conds|
    ensures Taken(conds, asg)[k] == side <==> Evaluate(conds[k].expr, asg) == Defined(side)
  {
    hide Evaluate;
    assert Evaluate(conds[k].expr, asg) != Undefined;
  }

  lemma SiteDecides(db: PolicyDb, asg: seq<bool>, site: Site, a: Access)
    requires db.Valid() && |asg| == |db.bools| && AllDefined(db.condList, asg) && ExprsInScope(db.condList, |asg|)
    requires Active(Taken(db.condList, asg), site) && SiteSpeaks(ViewOf(db), site, a)
    ensures db.Decides(asg, a)
  {
    hide Speaks, Evaluate, Linked, AllDefined, Taken, CondDecides;
    if site.Branch? {
      BranchTaken(db.condList, asg, site.k, site.side);
      var p: nat :| p in ListOf(db.condList[site.k], site.side) && p < |db.teCond.pool| && Speaks(db.tm, db.teCond.pool[p], a);
      hide PolicyDb.Valid;
      ActiveBranch(db, asg, site.k, site.side, p, a);
    } else {
      assert TableDecides(db.tm, db.te.pool, db.te.htable, a);
    }
  }

  lemma DecidingSite(db: PolicyDb, asg: seq<bool>, a: Access) returns (site: Site)
    requires db.Valid() && |asg| == |db.bools| && AllDefined(db.condList, asg) && db.Decides(asg, a)
    ensures db.tm.InRange() && ExprsInScope(db.condList, |asg|)
    ensures Active(Taken(db.condList, asg), site) && SiteSpeaks(ViewOf(db), site, a)
  {
    hide Speaks, Evaluate, Linked, AllDefined, Taken, PolicyDb.Decides;
    var k, side, p := DecidedBy(db, asg, a);
    site := if k.None? then Table else Branch(k.value, side);
    if k.Some? { BranchTaken(db.condList, asg, k.value, side); }
  }

  /** A decision is made by a rule of an active site. */
  lemma DecidesSites(db: PolicyDb, asg: seq<bool>, a: Access)
    requires db.Valid() && |asg| == |db.bools| && AllDefined(db.condList, asg)
    requires db.tm.InRange() && ExprsInScope(db.condList, |asg|)
    ensures db.Decides(asg, a) <==> exists site :: Active(Taken(db.condList, asg), site) && SiteSpeaks(ViewOf(db), site, a)
  {
    hide *;
    ViewParts(db);
    if db.Decides(asg, a) { var site := DecidingSite(db, asg, a); }
    if site :| Active(Taken(db.condList, asg), site) && SiteSpeaks(ViewOf(db), site, a) { SiteDecides(db, asg, site, a); }
  }

  /** A rule that reaches the pair allows a permission of the rule exactly when it counts as such. */
  lemma BaseSpeaks(tm: TypeMaps, n: Node, s: nat, t: nat, c: nat, r: XRule)
    requires tm.InRange() && tm.Concrete(s) && tm.Concrete(t) && RuleOk(tm, n) && tm.Applies(n.key, s, t, c)
    ensures Plays(r, Base, n, true) <==>
      exists k :: 0 <= k < |r.perms| && r.perms[k].tclass == c && Speaks(tm, n, Access(s, t, c, Bits(Allow, r.perms[k].data)))
  {
    var l: Kind :| OfKind(n.key.specified, l);
    AllowKind(n.key.specified, l);
    forall k | 0 <= k < |r.perms|
      ensures Meets(n.datum.data, r.perms[k].data) <==> Meets(r.perms[k].data, n.datum.data)
      ensures OfKind(n.key.specified, Allow) <==> l == Allow
    {
      MeetsSymmetric(n.datum.data, r.perms[k].data);
      if OfKind(n.key.specified, Allow) { KindUnique(n.key.specified, Allow, l); }
    }
    hide OfKind, Meets, Has;
    if Plays(r, Base, n, true) {
      var k :| 0 <= k < |r.perms| && r.perms[k].tclass == c && Meets(r.perms[k].data, n.datum.data);
      assert Speaks(tm, n, Access(s, t, c, Bits(Allow, r.perms[k].data)));
    }
  }

  lemma ListsExtended(tm: TypeMaps, n: Node, r: XRule)
    requires RuleOk(tm, n)
    ensures OfKind(n.key.specified, XAllow) <==> Has(n.key.specified, XPERMS_ALLOWED)
    ensures OfKind(n.key.specified, XAllow) ==> !IsBase(r, n, true) && n.datum.xperms.Some?
  {
    var l: Kind :| OfKind(n.key.specified, l);
    XpermsOwned(tm, n);
    AllowKind(n.key.specified, l);
    if Has(n.key.specified, XPERMS_ALLOWED) { ExtendedKind(n.key.specified, l); }
    if OfKind(n.key.specified, XAllow) { ExtendedBits(n.key.specified); }
    hide OfKind, Has, Hits;
  }

  lemma ListingSpeaks(tm: TypeMaps, n: Node, s: nat, t: nat, c: nat, r: XRule)
    requires tm.InRange() && tm.Concrete(s) && tm.Concrete(t) && RuleOk(tm, n) && tm.Applies(n.key, s, t, c)
    requires n.datum.xperms.Some? ==> Known(n.datum.xperms.value)
    ensures Plays(r, Listing, n, true) <==> Speaks(tm, n, Access(s, t, c, SomeXperm(XAllow)))
  {
    ListsExtended(tm, n, r);
    hide OfKind, Has, IsBase;
  }

  lemma ClashingSpeaks(tm: TypeMaps, n: Node, s: nat, t: nat, c: nat, r: XRule)
    requires tm.InRange() && tm.Concrete(s) && tm.Concrete(t) && RuleOk(tm, n) && tm.Applies(n.key, s, t, c)
    requires n.datum.xperms.Some? ==> Known(n.datum.xperms.value) && !Hollow(n.datum.xperms.value)
    requires !Hollow(r.never)
    ensures Plays(r, Clashing, n, true) <==>
      exists q: Query :: AsksListed(r, q) && Speaks(tm, n, Access(s, t, c, q))
  {
    ListsExtended(tm, n, r);
    hide OfKind, Has, IsBase, XAnswers, Clash, Hollow;
    if n.datum.xperms.Some? { ClashExactly(r.never, n.datum.xperms.value); }
    if Plays(r, Clashing, n, true) {
      var q: Query :| (q.Ioctl? || q.Nlmsg?) && XAnswers(r.never, q) && XAnswers(n.datum.xperms.value, q);
      var ask := if q.Ioctl? then Ioctl(XAllow, q.driver, q.function_) else Nlmsg(XAllow, q.driver, q.function_);
      SameQuestion(r.never, q, ask);
      SameQuestion(n.datum.xperms.value, q, ask);
      assert Speaks(tm, n, Access(s, t, c, ask));
    }
  }

  ghost predicate ProperRule(tm: TypeMaps, n: Node) {
    RuleOk(tm, n) && (n.datum.xperms.Some? ==> Known(n.datum.xperms.value) && !Hollow(n.datum.xperms.value))
  }

  /** What a rule that reaches the pair counts as is what it answers. */
  ghost predicate RuleAnswers(tm: TypeMaps, n: Node, s: nat, t: nat, c: nat, r: XRule)
    requires tm.InRange() && tm.Concrete(s) && tm.Concrete(t)
  {
    && (tm.Applies(n.key, s, t, c) && Plays(r, Base, n, true) <==>
          exists k :: 0 <= k < |r.perms| && r.perms[k].tclass == c && Speaks(tm, n, Access(s, t, c, Bits(Allow, r.perms[k].data))))
    && (tm.Applies(n.key, s, t, c) && Plays(r, Listing, n, true) <==> Speaks(tm, n, Access(s, t, c, SomeXperm(XAllow))))
    && (tm.Applies(n.key, s, t, c) && Plays(r, Clashing, n, true) <==>
          exists q: Query :: AsksListed(r, q) && Speaks(tm, n, Access(s, t, c, q)))
  }

  lemma RuleAnswersIt(tm: TypeMaps, n: Node, s: nat, t: nat, c: nat, r: XRule)
    requires tm.InRange() && tm.Concrete(s) && tm.Concrete(t) && ProperRule(tm, n) && !Hollow(r.never)
    ensures RuleAnswers(tm, n, s, t, c, r)
  {
    hide Plays, XAnswers, Answers, Hollow;
    if tm.Applies(n.key, s, t, c) {
      BaseSpeaks(tm, n, s, t, c, r);
      ListingSpeaks(tm, n, s, t, c, r);
      ClashingSpeaks(tm, n, s, t, c, r);
    }
  }

  ghost predicate ProperView(v: View) {
    (forall p :: 0 <= p < |v.tePool| ==> ProperRule(v.tm, v.tePool[p])) && forall p :: 0 <= p < |v.pool| ==> ProperRule(v.tm, v.pool[p])
  }

  lemma ProperViewOf(db: PolicyDb)
    requires db.Valid() && Proper(db.te.pool) && Proper(db.teCond.pool)
    ensures ProperView(ViewOf(db))
  {
    hide Hollow, RuleOk;
  }

  /** An extended permission of the rule's list is asked for. */
  ghost predicate AsksListed(r: XRule, q: Query) {
    IsXAsk(q) && XAnswers(r.never, q)
  }

  /** A rule that the site has counts as what it answers, and conversely. */
  lemma SiteBase(v: View, site: Site, s: nat, t: nat, c: nat, r: XRule)
    requires v.tm.InRange() && v.tm.Concrete(s) && v.tm.Concrete(t) && ProperView(v) && !Hollow(r.never)
    ensures SiteHas(v, site, s, t, c, r, Base) <==>
      exists k :: 0 <= k < |r.perms| && r.perms[k].tclass == c && SiteSpeaks(v, site, Access(s, t, c, Bits(Allow, r.perms[k].data)))
  {
    hide Linked, Plays, ProperRule, Hollow, Answers, TypeMaps.Applies;
    forall n: Node | ProperRule(v.tm, n)
      ensures v.tm.Applies(n.key, s, t, c) && Plays(r, Base, n, true) <==>
        exists k :: 0 <= k < |r.perms| && r.perms[k].tclass == c && Speaks(v.tm, n, Access(s, t, c, Bits(Allow, r.perms[k].data)))
    {
      RuleAnswersIt(v.tm, n, s, t, c, r);
    }
    hide Speaks;
  }

  lemma SiteListing(v: View, site: Site, s: nat, t: nat, c: nat, r: XRule)
    requires v.tm.InRange() && v.tm.Concrete(s) && v.tm.Concrete(t) && ProperView(v) && !Hollow(r.never)
    ensures SiteHas(v, site, s, t, c, r, Listing) <==> SiteSpeaks(v, site, Access(s, t, c, SomeXperm(XAllow)))
  {
    hide Linked, Plays, ProperRule, Hollow, Answers, TypeMaps.Applies;
    forall n: Node | ProperRule(v.tm, n)
      ensures v.tm.Applies(n.key, s, t, c) && Plays(r, Listing, n, true) <==> Speaks(v.tm, n, Access(s, t, c, SomeXperm(XAllow)))
    {
      RuleAnswersIt(v.tm, n, s, t, c, r);
    }
    hide Speaks;
  }

  lemma SiteClashing(v: View, site: Site, s: nat, t: nat, c: nat, r: XRule)
    requires v.tm.InRange() && v.tm.Concrete(s) && v.tm.Concrete(t) && ProperView(v) && !Hollow(r.never)
    ensures SiteHas(v, site, s, t, c, r, Clashing) <==> exists q: Query :: AsksListed(r, q) && SiteSpeaks(v, site, Access(s, t, c, q))
  {
    hide Linked, Plays, ProperRule, Hollow, Answers, TypeMaps.Applies, XAnswers;
    forall n: Node | ProperRule(v.tm, n)
      ensures v.tm.Applies(n.key, s, t, c) && Plays(r, Clashing, n, true) <==>
        exists q: Query :: AsksListed(r, q) && Speaks(v.tm, n, Access(s, t, c, q))
    {
      RuleAnswersIt(v.tm, n, s, t, c, r);
    }
    hide Speaks, AsksListed;
  }

  /**
     With lists of known kinds that name something, the rule is violated under an assignment
     with defined conditions exactly when it is under the branches the assignment takes.
   */
  lemma ViolatedExactly(db: PolicyDb, asg: seq<bool>, s: nat, t: nat, c: nat, r: XRule)
    requires db.Valid() && |asg| == |db.bools| && AllDefined(db.condList, asg) && db.tm.Concrete(s) && db.tm.Concrete(t)
    requires Proper(db.te.pool) && Proper(db.teCond.pool) && !Hollow(r.never)
    ensures db.tm.InRange() && ExprsInScope(db.condList, |asg|)
    ensures Violated(db, asg, s, t, c, r) <==> ViolatedUnder(ViewOf(db), Taken(db.condList, asg), s, t, c, r)
  {
    ViewFits(db);
    var v, choice := ViewOf(db), Taken(db.condList, asg);
    hide *;
    ViewParts(db);
    ProperViewOf(db);
    PermitsSites(db, asg, s, t, c, r);
    UnderParts(v, choice, s, t, c, r);
    DecidesSites(db, asg, Access(s, t, c, SomeXperm(XAllow)));
    forall site ensures SiteHas(v, site, s, t, c, r, Listing) <==> SiteSpeaks(v, site, Access(s, t, c, SomeXperm(XAllow))) {
      SiteListing(v, site, s, t, c, r);
    }
    ViolatedIs(db, asg, s, t, c, r);
  }

  lemma ViolatedIs(db: PolicyDb, asg: seq<bool>, s: nat, t: nat, c: nat, r: XRule)
    requires db.Valid() && |asg| == |db.bools|
    ensures Violated(db, asg, s, t, c, r) <==>
      Permits(db, asg, s, t, c, r) && (PermitsListed(db, asg, s, t, c, r) || !db.Decides(asg, Access(s, t, c, SomeXperm(XAllow))))
  {
    hide Permits, PermitsListed, PolicyDb.Decides;
  }

  lemma UnderParts(v: View, choice: seq<bool>, s: nat, t: nat, c: nat, r: XRule)
    requires v.tm.InRange() && v.tm.Concrete(s) && v.tm.Concrete(t)
    ensures Under(v, choice, s, t, c, r, Listing) <==> exists site :: Active(choice, site) && SiteHas(v, site, s, t, c, r, Listing)
    ensures ViolatedUnder(v, choice, s, t, c, r) <==>
      Under(v, choice, s, t, c, r, Base) && (Under(v, choice, s, t, c, r, Clashing) || !Under(v, choice, s, t, c, r, Listing))
  {
    hide SiteHas, Active;
  }

  lemma PermitsSites(db: PolicyDb, asg: seq<bool>, s: nat, t: nat, c: nat, r: XRule)
    requires db.Valid() && |asg| == |db.bools| && AllDefined(db.condList, asg) && db.tm.Concrete(s) && db.tm.Concrete(t)
    requires db.tm.InRange() && ExprsInScope(db.condList, |asg|) && ProperView(ViewOf(db)) && !Hollow(r.never)
    ensures Permits(db, asg, s, t, c, r) <==> Under(ViewOf(db), Taken(db.condList, asg), s, t, c, r, Base)
    ensures PermitsListed(db, asg, s, t, c, r) <==> Under(ViewOf(db), Taken(db.condList, asg), s, t, c, r, Clashing)
  {
    var v := ViewOf(db);
    hide PolicyDb.Valid, PolicyDb.Decides, SiteHas, SiteSpeaks, Active, Taken, XAnswers, Hollow, AllDefined, ExprsInScope, ProperView;
    forall a ensures db.Decides(asg, a) <==> exists site :: Active(Taken(db.condList, asg), site) && SiteSpeaks(v, site, a) {
      DecidesSites(db, asg, a);
    }
    forall site
      ensures SiteHas(v, site, s, t, c, r, Base) <==>
        exists k :: 0 <= k < |r.perms| && r.perms[k].tclass == c && SiteSpeaks(v, site, Access(s, t, c, Bits(Allow, r.perms[k].data)))
      ensures SiteHas(v, site, s, t, c, r, Clashing) <==> exists q: Query :: AsksListed(r, q) && SiteSpeaks(v, site, Access(s, t, c, q))
    {
      SiteBase(v, site, s, t, c, r);
      SiteClashing(v, site, s, t, c, r);
    }
  }

  // ---------------------------------------------------------------- what the check asks

  /** An entry that allows the pair a permission of the rule fails for it. */
  ghost predicate Fires(v: View, s: nat, t: nat, c: nat, r: XRule)
    requires v.tm.InRange() && v.tm.Concrete(s) && v.tm.Concrete(t)
  {
    || (SiteHas(v, Table, s, t, c, r, Base) && XFails(v, s, t, c, r, false, true))
    || ((exists k, side :: SiteHas(v, Branch(k, side), s, t, c, r, Base)) && XFails(v, s, t, c, r, true, true))
  }

  lemma ListOverlaps(x: bv16)
    requires Has(x, XPERMS_ALLOWED)
    ensures Overlaps(XPERMS_ALLOWED, x)
  {
  }

  /** A list at a site is found for its key. */
  lemma SiteFound(v: View, site: Site, s: nat, t: nat, c: nat, r: XRule)
    requires v.tm.InRange() && v.tm.Concrete(s) && v.tm.Concrete(t) && SiteHas(v, site, s, t, c, r, Clashing)
    ensures PairFinds(v, s, t, c, r, Forbidden, true)
  {
    hide Linked, ListsKnown, IsBase, Has, Overlaps;
    match site
    case Table =>
      var p: nat :| Linked(v.teTable, p) && p < |v.tePool| && v.tm.Applies(v.tePool[p].key, s, t, c) && Plays(r, Clashing, v.tePool[p], true);
      var key := XKey(v.tePool[p].key.source - 1, v.tePool[p].key.target - 1, c);
      ListOverlaps(v.tePool[p].key.specified);
      assert InTable(v.tePool, v.teTable, key, r, Clashing);
      assert Found(v, key, r, Forbidden, true);
    case Branch(k, side) =>
      var p: nat :| p in ListOf(v.conds[k], side) && p < |v.pool| && v.tm.Applies(v.pool[p].key, s, t, c) && Plays(r, Clashing, v.pool[p], true);
      var key := XKey(v.pool[p].key.source - 1, v.pool[p].key.target - 1, c);
      assert Present(v.pool, ListOf(v.conds[k], side), key, r, Clashing, true);
      assert CondFinds(v.pool, v.conds[k], key, r, Forbidden, true);
      assert Found(v, key, r, Forbidden, true);
  }

  lemma PresentSite(v: View, k: nat, side: bool, x: nat, y: nat, s: nat, t: nat, c: nat, r: XRule)
    requires v.tm.InRange() && v.tm.Concrete(s) && v.tm.Concrete(t) && k < |v.conds|
    requires x in v.tm.typeAttr[s] && y in v.tm.typeAttr[t] && Present(v.pool, ListOf(v.conds[k], side), XKey(x, y, c), r, Listing, true)
    ensures SiteHas(v, Branch(k, side), s, t, c, r, Listing)
  {
    hide Plays;
  }

  lemma InTableSite(v: View, x: nat, y: nat, s: nat, t: nat, c: nat, r: XRule)
    requires v.tm.InRange() && v.tm.Concrete(s) && v.tm.Concrete(t) && ProperView(v)
    requires x in v.tm.typeAttr[s] && y in v.tm.typeAttr[t] && InTable(v.tePool, v.teTable, XKey(x, y, c), r, Listing)
    ensures SiteHas(v, Table, s, t, c, r, Listing)
  {
    var p: nat :| Hit(v.tePool, v.teTable, XKey(x, y, c), p) && ListsKnown(r, Listing, v.tePool[p]);
    assert ProperRule(v.tm, v.tePool[p]);
    ListedSpeaks(v.tm, v.tePool[p], x, y, s, t, c);
    ListsExtended(v.tm, v.tePool[p], r);
    hide OfKind, Has, Overlaps, IsBase, ListsKnown, Linked;
  }

  /** Where nothing need be listed, no list is found whatever the branches. */
  lemma UnlistedFinds(v: View, a: Site, s: nat, t: nat, c: nat, r: XRule)
    requires v.tm.InRange() && v.tm.Concrete(s) && v.tm.Concrete(t) && ProperView(v) && Unlisted(v, a, s, t, c, r)
    ensures !PairFinds(v, s, t, c, r, Listed, true)
  {
    hide SiteHas, Present, InTable, ProperView;
    if x: nat, y: nat :| x in v.tm.typeAttr[s] && y in v.tm.typeAttr[t] && Found(v, XKey(x, y, c), r, Listed, true) {
      if InTable(v.tePool, v.teTable, XKey(x, y, c), r, Listing) {
        InTableSite(v, x, y, s, t, c, r);
      } else {
        var k :| 0 <= k < |v.conds| && CondFinds(v.pool, v.conds[k], XKey(x, y, c), r, Listed, true);
        PresentSite(v, k, true, x, y, s, t, c, r);
        PresentSite(v, k, false, x, y, s, t, c, r);
        var spared := Spares(v, a, k, s, t, c, r);
      }
    }
  }

  /** A branch that allows the permission where nothing need be listed is in conflict. */
  lemma UnlistedConflicts(v: View, k: nat, side: bool, s: nat, t: nat, c: nat, r: XRule)
    requires v.tm.InRange() && v.tm.Concrete(s) && v.tm.Concrete(t)
    requires SiteHas(v, Branch(k, side), s, t, c, r, Base) && Unlisted(v, Branch(k, side), s, t, c, r)
    ensures PairFinds(v, s, t, c, r, Conflict, true)
  {
    hide Plays;
    var p: nat :| p in ListOf(v.conds[k], side) && p < |v.pool| && v.tm.Applies(v.pool[p].key, s, t, c) && Plays(r, Base, v.pool[p], true);
    var x, y := v.pool[p].key.source - 1, v.pool[p].key.target - 1;
    var key, list := XKey(x, y, c), ListOf(v.conds[k], side);
    assert Present(v.pool, list, key, r, Base, true);
    hide SiteHas;
    assert Spares(v, Branch(k, side), k, s, t, c, r);
    if Present(v.pool, list, key, r, Listing, true) { PresentSite(v, k, side, x, y, s, t, c, r); }
    assert Bare(v.pool, list, key, r, true);
    hide Present;
    assert CondFinds(v.pool, v.conds[k], key, r, Conflict, true);
    assert Found(v, key, r, Conflict, true);
  }

  /** Whatever can be violated, by some choice of branches, the check rejects. */
  lemma ViolableFires(v: View, s: nat, t: nat, c: nat, r: XRule)
    requires v.tm.InRange() && v.tm.Concrete(s) && v.tm.Concrete(t) && ProperView(v) && Violable(v, s, t, c, r)
    ensures Fires(v, s, t, c, r)
  {
    hide SiteHas, Unlisted, Together, PairFinds, ProperView;
    var a :| SiteHas(v, a, s, t, c, r, Base) &&
      (Unlisted(v, a, s, t, c, r) || exists x :: SiteHas(v, x, s, t, c, r, Clashing) && Together(a, x));
    if Unlisted(v, a, s, t, c, r) {
      UnlistedFinds(v, a, s, t, c, r);
      if a.Branch? { UnlistedConflicts(v, a.k, a.side, s, t, c, r); }
    } else {
      var x :| SiteHas(v, x, s, t, c, r, Clashing) && Together(a, x);
      SiteFound(v, x, s, t, c, r);
    }
    if a.Branch? { assert a == Branch(a.k, a.side); }
  }

  // ---------------------------------------------------------------- a false alarm

  const ALLOWING: Node := Node(Key(1, 2, 1, ALLOWED), Datum(1, None))
  const LISTING_FIRST: Node := Node(XKey(0, 1, 1), Datum(0, Some(Xperms(IOCTLFUNCTION, 0, [1, 0, 0, 0, 0, 0, 0, 0]))))

  /** The permission is allowed on a branch, a list with one function stands in the table. */
  const ALLOWED_ON_BRANCH: View :=
    View(TypeMaps([Plain, Plain], [{0}, {1}], [{0}, {1}]), [LISTING_FIRST], [[0]], [ALLOWING],
         [CondNode(Undefined, [Push(1)], [0], [], [], [], 0, [], 0)])

  /** Another function is forbidden. */
  const FORBID_SECOND: XRule := XRule([ClassPerm(1, 1)], Xperms(IOCTLFUNCTION, 0, [2, 0, 0, 0, 0, 0, 0, 0]))

  lemma AlarmFacts()
    ensures Plays(FORBID_SECOND, Base, ALLOWING, true) && !Plays(FORBID_SECOND, Listing, ALLOWING, true)
    ensures !Plays(FORBID_SECOND, Clashing, ALLOWING, true) && !Plays(FORBID_SECOND, Clashing, LISTING_FIRST, true)
    ensures Plays(FORBID_SECOND, Listing, LISTING_FIRST, true) && !Plays(FORBID_SECOND, Base, LISTING_FIRST, true)
  {
    var r := FORBID_SECOND;
    assert Meets(1, 1) && r.perms[0].tclass == 1;
    assert Has(ALLOWED, ALLOWED) && !Has(ALLOWED, XPERMS_ALLOWED) && Has(XPERMS_ALLOWED, XPERMS_ALLOWED) && !Has(XPERMS_ALLOWED, ALLOWED);
    WordsShare(r.never.perms, LISTING_FIRST.datum.xperms.value.perms);
    hide Common;
  }

  /** The check rejects it, and no choice of branches violates the rule: the list is always there. */
  lemma FalseAlarm()
    ensures var v := ALLOWED_ON_BRANCH;
      && v.tm.InRange() && v.tm.Concrete(0) && v.tm.Concrete(1)
      && Fires(v, 0, 1, 1, FORBID_SECOND) && !Violable(v, 0, 1, 1, FORBID_SECOND)
  {
    var v, r, key := ALLOWED_ON_BRANCH, FORBID_SECOND, XKey(0, 1, 1);
    AlarmFacts();
    hide Plays;
    assert v.conds[0].trueList == ListOf(v.conds[0], true) == [0] && v.conds[0].falseList == ListOf(v.conds[0], false) == [];
    assert 0 in v.conds[0].trueList && v.pool[0] == ALLOWING && 0 in v.teTable[0];
    assert SiteHas(v, Branch(0, true), 0, 1, 1, r, Base);
    assert Linked(v.teTable, 0) && v.tePool[0] == LISTING_FIRST && v.tm.Applies(v.tePool[0].key, 0, 1, 1);
    assert SiteHas(v, Table, 0, 1, 1, r, Listing);
    assert Present(v.pool, v.conds[0].trueList, key, r, Base, true) && !Present(v.pool, v.conds[0].trueList, key, r, Listing, true);
    assert CondFinds(v.pool, v.conds[0], key, r, Conflict, true);
    assert Found(v, key, r, Conflict, true);
    forall site ensures !SiteHas(v, site, 0, 1, 1, r, Clashing) { }
  }
}
