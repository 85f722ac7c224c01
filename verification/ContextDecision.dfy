/**
 The access vectors of two security contexts (context_struct_compute_av and
 type_attribute_bounds_av in src/services.c): what the rules say about the types, less what
 constraints, role rules and the bounds of the types prohibit.
 */
module ContextDecision {
  import opened Prelude
  import opened Masks
  import opened Avtab
  import opened TypeMaps
  import opened AccessDecision
  import opened PolicyDb
  import opened Conditional
  import opened AccessVector
  import Hierarchy

  /** A security context; types are numbered from 1. */
  datatype Context = Context(user: nat, role: nat, type_: nat, range: string)

  const EINVAL := 22

  // ---------------------------------------------------------------- constraints

  const CEXPR_MAXDEPTH: nat := 5

  /** A test compares users, roles, types or levels of the two contexts. */
  datatype Symbol = Not | And | Or | Test(holds: (Context, Context) -> bool)

  datatype Constraint = Constraint(permissions: bv32, expr: seq<Symbol>)

  /** What the stack machine answers. A malformed program ends in an error code, which reads as true. */
  predicate Run(expr: seq<Symbol>, stack: seq<bool>, s: Context, t: Context)
    decreases |expr|
  {
    if expr == [] then |stack| > 0 && stack[0]
    else
      var n := |stack|;
      match expr[0]
      case Not => n < 1 || Run(expr[1..], stack[n - 1 := !stack[n - 1]], s, t)
      case And => n < 2 || Run(expr[1..], stack[..n - 2] + [stack[n - 2] && stack[n - 1]], s, t)
      case Or => n < 2 || Run(expr[1..], stack[..n - 2] + [stack[n - 2] || stack[n - 1]], s, t)
      case Test(holds) => n != CEXPR_MAXDEPTH && Run(expr[1..], stack + [holds(s, t)], s, t)
  }

  predicate Satisfied(expr: seq<Symbol>, s: Context, t: Context) {
    Run(expr, [], s, t)
  }

  /** A constraint as written. */
  datatype Tree = Leaf(holds: (Context, Context) -> bool) | Negation(e: Tree) | Both(l: Tree, r: Tree) | Either(l: Tree, r: Tree)

  predicate Holds(e: Tree, s: Context, t: Context) {
    match e
    case Leaf(holds) => holds(s, t)
    case Negation(e) => !Holds(e, s, t)
    case Both(l, r) => Holds(l, s, t) && Holds(r, s, t)
    case Either(l, r) => Holds(l, s, t) || Holds(r, s, t)
  }

  function Postfix(e: Tree): seq<Symbol> {
    match e
    case Leaf(holds) => [Test(holds)]
    case Negation(e) => Postfix(e) + [Not]
    case Both(l, r) => Postfix(l) + Postfix(r) + [And]
    case Either(l, r) => Postfix(l) + Postfix(r) + [Or]
  }

  /** The stack an expression needs. */
  function Need(e: Tree): nat {
    match e
    case Leaf(_) => 1
    case Negation(e) => Need(e)
    case Both(l, r) => if Need(l) > 1 + Need(r) then Need(l) else 1 + Need(r)
    case Either(l, r) => if Need(l) > 1 + Need(r) then Need(l) else 1 + Need(r)
  }

  lemma {:induction false} RunPostfix(e: Tree, rest: seq<Symbol>, stack: seq<bool>, s: Context, t: Context)
    requires |stack| <= CEXPR_MAXDEPTH
    ensures Run(Postfix(e) + rest, stack, s, t) ==
      (|stack| + Need(e) <= CEXPR_MAXDEPTH && Run(rest, stack + [Holds(e, s, t)], s, t))
    decreases e, 1
  {
    match e
    case Leaf(holds) =>
      assert ([Test(holds)] + rest)[1..] == rest;
    case Negation(e') =>
      assert Postfix(e) + rest == Postfix(e') + ([Not] + rest);
      RunPostfix(e', [Not] + rest, stack, s, t);
      assert ([Not] + rest)[1..] == rest;
      var v := Holds(e', s, t);
      assert (stack + [v])[|stack| := !v] == stack + [!v];
    case Both(l, r) =>
      assert Postfix(e) + rest == Postfix(l) + (Postfix(r) + ([And] + rest));
      RunPair(e, l, r, And, rest, stack, s, t);
    case Either(l, r) =>
      assert Postfix(e) + rest == Postfix(l) + (Postfix(r) + ([Or] + rest));
      RunPair(e, l, r, Or, rest, stack, s, t);
  }

  lemma {:induction false} RunPair(e: Tree, l: Tree, r: Tree, op: Symbol, rest: seq<Symbol>, stack: seq<bool>, s: Context, t: Context)
    requires |stack| <= CEXPR_MAXDEPTH && e == if op == And then Both(l, r) else Either(l, r)
    requires op == And || op == Or
    ensures Run(Postfix(l) + (Postfix(r) + ([op] + rest)), stack, s, t) ==
      (|stack| + Need(e) <= CEXPR_MAXDEPTH && Run(rest, stack + [Holds(e, s, t)], s, t))
    decreases e, 0
  {
    var a, b := Holds(l, s, t), Holds(r, s, t);
    RunPostfix(l, Postfix(r) + ([op] + rest), stack, s, t);
    if |stack| + Need(l) <= CEXPR_MAXDEPTH {
      NeedPositive(l);
      RunPostfix(r, [op] + rest, stack + [a], s, t);
      assert ([op] + rest)[1..] == rest;
      assert (stack + [a] + [b])[..|stack|] == stack;
    }
  }

  lemma NeedPositive(e: Tree)
    ensures Need(e) > 0
  {
  }

  /** A constraint is satisfied exactly when it fits the stack and holds. */
  lemma SatisfiedHolds(e: Tree, s: Context, t: Context)
    ensures Satisfied(Postfix(e), s, t) <==> Need(e) <= CEXPR_MAXDEPTH && Holds(e, s, t)
  {
    RunPostfix(e, [], [], s, t);
    assert Postfix(e) + [] == Postfix(e);
  }

  /**
   What the operators mean: on two constraints that fit the stack, the second with a slot to
   spare, AND is satisfied when both are, OR when one is, NOT when its operand is not.
   */
  lemma {:induction false} OperatorsSatisfied(l: Tree, r: Tree, s: Context, t: Context)
    requires Need(l) <= 5 && Need(r) <= 4
    ensures Satisfied(Postfix(l) + Postfix(r) + [And], s, t) <==> Satisfied(Postfix(l), s, t) && Satisfied(Postfix(r), s, t)
    ensures Satisfied(Postfix(l) + Postfix(r) + [Or], s, t) <==> Satisfied(Postfix(l), s, t) || Satisfied(Postfix(r), s, t)
    ensures Satisfied(Postfix(l) + [Not], s, t) <==> !Satisfied(Postfix(l), s, t)
  {
    SatisfiedHolds(l, s, t);
    SatisfiedHolds(r, s, t);
    SatisfiedHolds(Both(l, r), s, t);
    SatisfiedHolds(Either(l, r), s, t);
    SatisfiedHolds(Negation(l), s, t);
  }

  /** Tests alone: the first decides, and the sixth makes the whole fail. */
  lemma {:induction false} TestsSatisfied(expr: seq<Symbol>, s: Context, t: Context)
    requires expr != [] && forall i :: 0 <= i < |expr| ==> expr[i].Test?
    ensures Satisfied(expr, s, t) <==> |expr| <= 5 && expr[0].holds(s, t)
  {
    RunTests(expr[1..], [expr[0].holds(s, t)], s, t);
    assert [] + [expr[0].holds(s, t)] == [expr[0].holds(s, t)];
  }

  lemma {:induction false} RunTests(expr: seq<Symbol>, stack: seq<bool>, s: Context, t: Context)
    requires 0 < |stack| <= CEXPR_MAXDEPTH && forall i :: 0 <= i < |expr| ==> expr[i].Test?
    ensures Run(expr, stack, s, t) <==> |stack| + |expr| <= 5 && stack[0]
    decreases |expr|
  {
    if expr != [] && |stack| < CEXPR_MAXDEPTH { RunTests(expr[1..], stack + [expr[0].holds(s, t)], s, t); }
  }

  /** An operator without its operands is an error, which counts as satisfied; nothing at all is not. */
  lemma MalformedSatisfied(rest: seq<Symbol>, a: Symbol, s: Context, t: Context)
    requires a.Test?
    ensures Satisfied([Not] + rest, s, t) && Satisfied([And] + rest, s, t) && Satisfied([Or] + rest, s, t)
    ensures Satisfied([a, And] + rest, s, t) && Satisfied([a, Or] + rest, s, t)
    ensures !Satisfied([], s, t)
  {
    forall op | op == And || op == Or ensures Satisfied([a, op] + rest, s, t) {
      assert ([a, op] + rest)[1..] == [op] + rest;
    }
  }

  /** The stack machine over an array of five. */
  method EvalConstraint(expr: seq<Symbol>, s: Context, t: Context) returns (rc: int)
    ensures rc != 0 <==> Satisfied(expr, s, t)
  {
    hide *;
    SatisfiedIs(expr, s, t);
    var a := new bool[CEXPR_MAXDEPTH](_ => false);
    var n := 0;
    for k := 0 to |expr|
      invariant 0 <= n <= CEXPR_MAXDEPTH
      invariant n == 0 ==> !a[0]
      invariant Satisfied(expr, s, t) == Run(expr[k..], a[..n], s, t)
    {
      assert expr[k..][0] == expr[k] && expr[k..][1..] == expr[k + 1..];
      ghost var stack := a[..n];
      RunUnfold(expr[k..], stack, s, t);
      match expr[k]
      case Not =>
        if n < 1 { return -EINVAL; }
        a[n - 1] := !a[n - 1];
        assert a[..n] == stack[n - 1 := !stack[n - 1]];
      case And =>
        if n < 2 { return -EINVAL; }
        n := n - 1;
        a[n - 1] := a[n - 1] && a[n];
        assert a[..n] == stack[..n - 1] + [stack[n - 1] && stack[n]];
      case Or =>
        if n < 2 { return -EINVAL; }
        n := n - 1;
        a[n - 1] := a[n - 1] || a[n];
        assert a[..n] == stack[..n - 1] + [stack[n - 1] || stack[n]];
      case Test(holds) =>
        if n == CEXPR_MAXDEPTH { return 0; }
        a[n] := holds(s, t);
        n := n + 1;
        assert a[..n] == stack + [holds(s, t)];
    }
    RunEnd(a[..n], s, t);
    assert expr[|expr|..] == [];
    rc := if a[0] then 1 else 0;
  }

  lemma SatisfiedIs(expr: seq<Symbol>, s: Context, t: Context)
    ensures Satisfied(expr, s, t) == Run(expr, [], s, t) && CEXPR_MAXDEPTH == 5 && EINVAL == 22
  {
  }

  lemma RunEnd(stack: seq<bool>, s: Context, t: Context)
    ensures Run([], stack, s, t) == (|stack| > 0 && stack[0])
  {
  }

  lemma RunUnfold(expr: seq<Symbol>, stack: seq<bool>, s: Context, t: Context)
    requires expr != []
    ensures var n, rest := |stack|, expr[1..];
      Run(expr, stack, s, t) == match expr[0]
        case Not => n < 1 || Run(rest, stack[n - 1 := !stack[n - 1]], s, t)
        case And => n < 2 || Run(rest, stack[..n - 2] + [stack[n - 2] && stack[n - 1]], s, t)
        case Or => n < 2 || Run(rest, stack[..n - 2] + [stack[n - 2] || stack[n - 1]], s, t)
        case Test(holds) => n != CEXPR_MAXDEPTH && Run(rest, stack + [holds(s, t)], s, t)
  {
  }

  // ---------------------------------------------------------------- one level

  /** What is decided beside the rule tables: constraints and transitions by class, role rules, bounds by type. */
  datatype Extra = Extra(
    constraints: seq<seq<Constraint>>, processClass: nat, transitions: bv32, roleAllow: seq<(nat, nat)>, bounds: seq<nat>)

  ghost predicate TypesFit(tm: TypeMaps, s: Context, t: Context) {
    s.type_ > 0 && t.type_ > 0 && tm.Concrete(s.type_ - 1) && tm.Concrete(t.type_ - 1)
  }

  /** The rules on the types allow the permission. */
  ghost predicate TypesAllow(db: PolicyDb, s: Context, t: Context, c: nat, bit: nat)
    requires db.Valid() && TypesFit(db.tm, s, t)
    reads db, db.te, db.teCond
  {
    bit < 32 && db.Decides(db.bools, Access(s.type_ - 1, t.type_ - 1, c, Bits(Allow, Single(bit))))
  }

  /** Every constraint on the permission is satisfied, up to constraint `k`. */
  predicate ConstraintsAllow(cs: seq<Constraint>, k: nat, s: Context, t: Context, bit: nat)
    requires k <= |cs|
  {
    forall i :: 0 <= i < k && BitSet(cs[i].permissions, bit) ==> Satisfied(cs[i].expr, s, t)
  }

  /** A transition to another role needs a role rule. */
  predicate RolesAllow(x: Extra, s: Context, t: Context, c: nat, bit: nat) {
    c == x.processClass && s.role != t.role && BitSet(x.transitions, bit) ==> (s.role, t.role) in x.roleAllow
  }

  ghost predicate LevelAllows(db: PolicyDb, x: Extra, s: Context, t: Context, c: nat, bit: nat)
    requires db.Valid() && TypesFit(db.tm, s, t) && 0 < c <= |x.constraints|
    reads db, db.te, db.teCond
  {
    && TypesAllow(db, s, t, c, bit)
    && ConstraintsAllow(x.constraints[c - 1], |x.constraints[c - 1]|, s, t, bit)
    && RolesAllow(x, s, t, c, bit)
  }

  // ---------------------------------------------------------------- the bounds of the types

  function BoundOf(bounds: seq<nat>, type_: nat): nat {
    if 0 < type_ <= |bounds| then bounds[type_ - 1] else 0
  }

  /** The source with its bound for a type, and the target with its bound if it has one. */
  function Above(bounds: seq<nat>, s: Context): Context {
    if BoundOf(bounds, s.type_) == 0 then s else s.(type_ := BoundOf(bounds, s.type_))
  }

  /** Bounds of types are types. */
  ghost predicate BoundsFit(tm: TypeMaps, bounds: seq<nat>) {
    forall i :: 0 <= i < |bounds| && bounds[i] != 0 ==> tm.Concrete(bounds[i] - 1)
  }

  /** The chain of bounds from a type ends within `n` steps. */
  ghost predicate ChainEnds(bounds: seq<nat>, type_: nat, n: nat)
    decreases n
  {
    BoundOf(bounds, type_) == 0 || (n > 0 && ChainEnds(bounds, BoundOf(bounds, type_), n - 1))
  }

  lemma AboveFits(tm: TypeMaps, bounds: seq<nat>, s: Context, t: Context)
    requires BoundsFit(tm, bounds) && TypesFit(tm, s, t)
    ensures TypesFit(tm, Above(bounds, s), Above(bounds, t))
  {
  }

  /** The permission is allowed here and, while the source type has a bound, all the way up. */
  ghost predicate Allowed(db: PolicyDb, x: Extra, s: Context, t: Context, c: nat, bit: nat, n: nat)
    requires db.Valid() && TypesFit(db.tm, s, t) && 0 < c <= |x.constraints|
    requires BoundsFit(db.tm, x.bounds) && ChainEnds(x.bounds, s.type_, n)
    reads db, db.te, db.teCond
    decreases n
  {
    && LevelAllows(db, x, s, t, c, bit)
    && (BoundOf(x.bounds, s.type_) != 0 ==>
          (AboveFits(db.tm, x.bounds, s, t);
           Allowed(db, x, Above(x.bounds, s), Above(x.bounds, t), c, bit, n - 1)))
  }

  /** The bound a type has, 0 for none; types are numbered from 1. */
  lemma BoundIs(bounds: seq<nat>, s: Context)
    requires 0 < s.type_ <= |bounds|
    ensures BoundOf(bounds, s.type_) == bounds[s.type_ - 1]
    ensures Above(bounds, s) == s.(type_ := if bounds[s.type_ - 1] != 0 then bounds[s.type_ - 1] else s.type_)
  {
  }

  /** What it takes at one level: the rules, every constraint on the permission, and for another role a rule. */
  lemma LevelParts(db: PolicyDb, x: Extra, s: Context, t: Context, c: nat, bit: nat)
    requires db.Valid() && TypesFit(db.tm, s, t) && 0 < c <= |x.constraints|
    ensures var cs := x.constraints[c - 1];
      LevelAllows(db, x, s, t, c, bit) <==>
      && bit < 32 && db.Decides(db.bools, Access(s.type_ - 1, t.type_ - 1, c, Bits(Allow, Single(bit))))
      && (forall i :: 0 <= i < |cs| && BitSet(cs[i].permissions, bit) ==> Satisfied(cs[i].expr, s, t))
      && (c == x.processClass && s.role != t.role && BitSet(x.transitions, bit) ==> (s.role, t.role) in x.roleAllow)
  {
    hide BitSet, Satisfied, PolicyDb.Decides, PolicyDb.Valid;
  }

  /** And up the bounds: what the source may do to the target its bound may do to the target's bound, or to the target. */
  lemma AllowedParts(db: PolicyDb, x: Extra, s: Context, t: Context, c: nat, bit: nat, n: nat)
    requires db.Valid() && TypesFit(db.tm, s, t) && 0 < c <= |x.constraints|
    requires BoundsFit(db.tm, x.bounds) && ChainEnds(x.bounds, s.type_, n) && s.type_ <= |x.bounds| && t.type_ <= |x.bounds|
    ensures x.bounds[s.type_ - 1] == 0 ==> (Allowed(db, x, s, t, c, bit, n) <==> LevelAllows(db, x, s, t, c, bit))
    ensures x.bounds[s.type_ - 1] != 0 ==>
      var above := s.(type_ := x.bounds[s.type_ - 1]);
      var target := if x.bounds[t.type_ - 1] != 0 then t.(type_ := x.bounds[t.type_ - 1]) else t;
      && n > 0 && TypesFit(db.tm, above, target) && ChainEnds(x.bounds, above.type_, n - 1)
      && (Allowed(db, x, s, t, c, bit, n) <==> LevelAllows(db, x, s, t, c, bit) && Allowed(db, x, above, target, c, bit, n - 1))
  {
    AboveFits(db.tm, x.bounds, s, t);
    BoundIs(x.bounds, s);
    BoundIs(x.bounds, t);
    hide LevelAllows, TypesFit, PolicyDb.Valid, BoundsFit, Above, BoundOf;
  }

  // ---------------------------------------------------------------- the computation

  /** Removes what unsatisfied constraints prohibit. */
  method ApplyConstraints(cs: seq<Constraint>, s: Context, t: Context, allowed: bv32) returns (left: bv32)
    ensures forall bit: nat :: BitSet(left, bit) <==> BitSet(allowed, bit) && ConstraintsAllow(cs, |cs|, s, t, bit)
    ensures forall bit: nat :: BitSet(left, bit) <==>
      BitSet(allowed, bit) && !exists i :: 0 <= i < |cs| && BitSet(cs[i].permissions, bit) && !Satisfied(cs[i].expr, s, t)
  {
    hide BitSet, Satisfied;
    left := allowed;
    for k := 0 to |cs|
      invariant forall bit: nat :: BitSet(left, bit) <==> BitSet(allowed, bit) && ConstraintsAllow(cs, k, s, t, bit)
    {
      var rc := EvalConstraint(cs[k].expr, s, t);
      ghost var before := left;
      if Meets(cs[k].permissions, left) && rc == 0 {
        left := Clear(left, cs[k].permissions);
        forall bit: nat { BitClear(before, cs[k].permissions, bit); }
      } else if rc == 0 {
        SharedBit(cs[k].permissions, left);
      }
    }
  }

  /** Removes transitions to a role for which there is no rule. */
  method ApplyRoles(x: Extra, s: Context, t: Context, c: nat, allowed: bv32) returns (left: bv32)
    ensures forall bit: nat :: BitSet(left, bit) <==> BitSet(allowed, bit) && RolesAllow(x, s, t, c, bit)
    ensures c != x.processClass || s.role == t.role || (s.role, t.role) in x.roleAllow ==> left == allowed
    ensures c == x.processClass && s.role != t.role && (s.role, t.role) !in x.roleAllow ==>
      forall bit: nat :: BitSet(left, bit) <==> BitSet(allowed, bit) && !BitSet(x.transitions, bit)
  {
    hide BitSet;
    left := allowed;
    if c == x.processClass && Meets(left, x.transitions) && s.role != t.role {
      var k := 0;
      while k < |x.roleAllow| && x.roleAllow[k] != (s.role, t.role)
        invariant 0 <= k <= |x.roleAllow| && (s.role, t.role) !in x.roleAllow[..k]
      {
        k := k + 1;
      }
      if k == |x.roleAllow| {
        assert x.roleAllow[..k] == x.roleAllow;
        left := Clear(left, x.transitions);
        forall bit: nat { BitClear(allowed, x.transitions, bit); }
      }
    } else if !Meets(left, x.transitions) {
      SharedBit(left, x.transitions);
    }
  }

  /** Why a requested permission is missing. */
  datatype Reason = Reason(types: bool, constraints: bool, roles: bool, bounds: bool)

  /** What the three levels of tests leave, and which of them took a requested permission away. */
  ghost predicate LevelDone(db: PolicyDb, x: Extra, s: Context, t: Context, c: nat, requested: bv32, left: bv32, reason: Reason)
    requires db.Valid() && TypesFit(db.tm, s, t) && 0 < c <= |x.constraints|
    reads db, db.te, db.teCond
  {
    var cs := x.constraints[c - 1];
    && (forall bit: nat :: BitSet(left, bit) <==> LevelAllows(db, x, s, t, c, bit))
    && (reason.types <==> exists bit: nat :: BitSet(requested, bit) && !TypesAllow(db, s, t, c, bit))
    && (reason.constraints <==> exists bit: nat ::
          BitSet(requested, bit) && TypesAllow(db, s, t, c, bit) && !ConstraintsAllow(cs, |cs|, s, t, bit))
    && (reason.roles <==> exists bit: nat ::
          BitSet(requested, bit) && TypesAllow(db, s, t, c, bit) && ConstraintsAllow(cs, |cs|, s, t, bit) && !RolesAllow(x, s, t, c, bit))
  }

  /** Whether a requested permission is not allowed, and the requested ones that are. */
  method Narrow(requested: bv32, allowed: bv32) returns (missing: bool, left: bv32)
    ensures missing <==> exists bit: nat :: BitSet(requested, bit) && !BitSet(allowed, bit)
    ensures forall bit: nat :: BitSet(left, bit) <==> BitSet(requested, bit) && BitSet(allowed, bit)
  {
    hide *;
    missing, left := Clear(requested, allowed) != 0, Intersection(requested, allowed);
    SomeBit(Clear(requested, allowed));
    forall bit: nat
      ensures BitSet(Clear(requested, allowed), bit) <==> BitSet(requested, bit) && !BitSet(allowed, bit)
      ensures BitSet(left, bit) <==> BitSet(requested, bit) && BitSet(allowed, bit)
    {
      BitClear(requested, allowed, bit);
      BitIntersection(requested, allowed, bit);
    }
  }

  /** The rules, the constraints and the role rules, in this order. */
  method LevelAv(db: PolicyDb, x: Extra, s: Context, t: Context, c: nat, requested: bv32) returns (avd: Avd, reason: Reason, left: bv32)
    requires Synced(db) && NoFlags(db.te.pool) && TypesFit(db.tm, s, t) && 0 < c <= |x.constraints|
    ensures LevelDone(db, x, s, t, c, requested, avd.allowed, reason) && !reason.bounds
    ensures AuditsDecided(db, s, t, c, avd)
    ensures forall bit: nat :: BitSet(left, bit) <==> BitSet(requested, bit) && BitSet(avd.allowed, bit)
  {
    hide *;
    FitFacts(db, s, t);
    avd := ComputeAv(db, s.type_ - 1, t.type_ - 1, c);
    AllowedBits(db, s, t, c, avd);
    var byTypes, left1 := Narrow(requested, avd.allowed);
    var allowed := ApplyConstraints(x.constraints[c - 1], s, t, avd.allowed);
    var byConstraints, left2 := Narrow(left1, allowed);
    var allowed2 := ApplyRoles(x, s, t, c, allowed);
    var byRoles;
    byRoles, left := Narrow(left2, allowed2);
    reason := Reason(byTypes, byConstraints, byRoles, false);
    OtherGrants(db, s, t, c, avd, allowed2);
    avd := avd.(allowed := allowed2);
    LevelIs(db, x, s, t, c, requested, allowed2, reason);
  }

  lemma FitFacts(db: PolicyDb, s: Context, t: Context)
    requires Synced(db) && TypesFit(db.tm, s, t)
    ensures s.type_ > 0 && t.type_ > 0 && db.tm.Concrete(s.type_ - 1) && db.tm.Concrete(t.type_ - 1) && db.Valid()
  {
  }

  /** The two audit vectors are the decisions. */
  ghost predicate AuditsDecided(db: PolicyDb, s: Context, t: Context, c: nat, avd: Avd)
    requires db.Valid() && TypesFit(db.tm, s, t)
    reads db, db.te, db.teCond
  {
    forall l, m :: l == AuditAllow || l == AuditDeny ==>
      (Grants(avd, l, m) <==> db.Decides(db.bools, Access(s.type_ - 1, t.type_ - 1, c, Bits(l, m))))
  }

  lemma AllowedBits(db: PolicyDb, s: Context, t: Context, c: nat, avd: Avd)
    requires db.Valid() && TypesFit(db.tm, s, t)
    requires forall l, m :: IsAv(l) ==> (Grants(avd, l, m) <==> db.Decides(db.bools, Access(s.type_ - 1, t.type_ - 1, c, Bits(l, m))))
    ensures forall bit: nat :: BitSet(avd.allowed, bit) <==> TypesAllow(db, s, t, c, bit)
    ensures AuditsDecided(db, s, t, c, avd)
  {
    hide Meets, PolicyDb.Decides, Single;
    forall bit: nat ensures BitSet(avd.allowed, bit) <==> TypesAllow(db, s, t, c, bit) {
      if bit < 32 { assert Grants(avd, Allow, Single(bit)) <==> Meets(avd.allowed, Single(bit)); }
    }
  }

  lemma OtherGrants(db: PolicyDb, s: Context, t: Context, c: nat, avd: Avd, allowed: bv32)
    requires db.Valid() && TypesFit(db.tm, s, t) && AuditsDecided(db, s, t, c, avd)
    ensures AuditsDecided(db, s, t, c, avd.(allowed := allowed))
  {
    hide Meets, Invert, PolicyDb.Decides;
    forall l, m | l == AuditAllow || l == AuditDeny ensures Grants(avd.(allowed := allowed), l, m) <==> Grants(avd, l, m) { }
  }

  lemma LevelIs(db: PolicyDb, x: Extra, s: Context, t: Context, c: nat, requested: bv32, left: bv32, reason: Reason)
    requires db.Valid() && TypesFit(db.tm, s, t) && 0 < c <= |x.constraints|
    requires var cs := x.constraints[c - 1];
      && (forall bit: nat :: BitSet(left, bit) <==>
            TypesAllow(db, s, t, c, bit) && ConstraintsAllow(cs, |cs|, s, t, bit) && RolesAllow(x, s, t, c, bit))
      && (reason.types <==> exists bit: nat :: BitSet(requested, bit) && !TypesAllow(db, s, t, c, bit))
      && (reason.constraints <==> exists bit: nat ::
            BitSet(requested, bit) && TypesAllow(db, s, t, c, bit) && !ConstraintsAllow(cs, |cs|, s, t, bit))
      && (reason.roles <==> exists bit: nat ::
            BitSet(requested, bit) && TypesAllow(db, s, t, c, bit) && ConstraintsAllow(cs, |cs|, s, t, bit) && !RolesAllow(x, s, t, c, bit))
    ensures LevelDone(db, x, s, t, c, requested, left, reason)
  {
    hide BitSet, TypesAllow, ConstraintsAllow, RolesAllow;
  }

  /** What the computation answers for a class there is. */
  ghost predicate Answered(db: PolicyDb, x: Extra, s: Context, t: Context, c: nat, avd: Avd, n: nat)
    requires db.Valid() && TypesFit(db.tm, s, t) && 0 < c <= |x.constraints|
    requires BoundsFit(db.tm, x.bounds) && ChainEnds(x.bounds, s.type_, n)
    reads db, db.te, db.teCond
  {
    (forall bit: nat :: BitSet(avd.allowed, bit) <==> Allowed(db, x, s, t, c, bit, n)) && AuditsDecided(db, s, t, c, avd)
  }

  /**
     The access vectors of two contexts: a permission is allowed exactly when the rules, the
     constraints and the role rules allow it here and at every level of bounds above, and the
     reason names the tests that took something away.
   */
  method ContextStructComputeAv(db: PolicyDb, x: Extra, s: Context, t: Context, c: nat, requested: bv32, ghost n: nat)
    returns (rc: int, avd: Avd, reason: Reason)
    requires Synced(db) && NoFlags(db.te.pool) && TypesFit(db.tm, s, t)
    requires BoundsFit(db.tm, x.bounds) && ChainEnds(x.bounds, s.type_, n)
    ensures rc == if 0 < c <= |x.constraints| then 0 else -EINVAL
    ensures rc == 0 ==> Answered(db, x, s, t, c, avd, n)
    ensures rc == 0 ==>
      exists level: bv32 :: LevelDone(db, x, s, t, c, requested, level, reason) &&
        (reason.bounds <==> exists bit: nat :: BitSet(level, bit) && !BitSet(avd.allowed, bit))
    decreases n, 1
  {
    hide *;
    ErrorNonzero();
    if !(0 < c <= |x.constraints|) { return -EINVAL, NO_RULES, Reason(false, false, false, false); }
    var left;
    avd, reason, left := LevelAv(db, x, s, t, c, requested);
    ghost var level := avd.allowed;
    var allowed, masked := TypeAttributeBoundsAv(db, x, s, t, c, left, avd.allowed, n);
    FitFacts(db, s, t);
    OtherGrants(db, s, t, c, avd, allowed);
    avd, reason := avd.(allowed := allowed), reason.(bounds := masked);
    LevelReason(db, x, s, t, c, requested, level, reason.(bounds := false), masked);
    AnsweredBits(db, x, s, t, c, level, avd, n, requested, reason);
    rc := 0;
  }

  lemma ErrorNonzero()
    ensures -EINVAL != 0
  {
  }

  /** Masks what the bound of the source may not do to the target, or to the target's bound. */
  method TypeAttributeBoundsAv(db: PolicyDb, x: Extra, s: Context, t: Context, c: nat, requested: bv32, allowed: bv32, ghost n: nat)
    returns (left: bv32, masked: bool)
    requires Synced(db) && NoFlags(db.te.pool) && TypesFit(db.tm, s, t) && 0 < c <= |x.constraints|
    requires BoundsFit(db.tm, x.bounds) && ChainEnds(x.bounds, s.type_, n)
    ensures forall bit: nat :: BitSet(left, bit) <==> BitSet(allowed, bit) && AboveAllows(db, x, s, t, c, bit, n)
    ensures masked <==> exists bit: nat :: BitSet(allowed, bit) && !BitSet(left, bit)
    decreases n, 0
  {
    hide *;
    left, masked := allowed, false;
    if BoundOf(x.bounds, s.type_) == 0 {
      NothingAbove(db, x, s, t, c, n);
      return;
    }
    StepUp(db, x, s, t, n);
    var rc, lo, _ := ContextStructComputeAv(db, x, Above(x.bounds, s), Above(x.bounds, t), c, requested, n - 1);
    AnsweredAbove(db, x, s, t, c, lo, n);
    var bad := Clear(allowed, lo.allowed);
    SomeBit(bad);
    forall bit: nat
      ensures BitSet(bad, bit) <==> BitSet(allowed, bit) && !BitSet(lo.allowed, bit)
      ensures BitSet(Clear(allowed, bad), bit) <==> BitSet(allowed, bit) && !BitSet(bad, bit)
    {
      BitClear(allowed, lo.allowed, bit);
      BitClear(allowed, bad, bit);
    }
    if bad == 0 { return; }
    left, masked := Clear(allowed, bad), true;
  }

  /** What the levels above say. */
  ghost predicate AboveAllows(db: PolicyDb, x: Extra, s: Context, t: Context, c: nat, bit: nat, n: nat)
    requires db.Valid() && TypesFit(db.tm, s, t) && 0 < c <= |x.constraints|
    requires BoundsFit(db.tm, x.bounds) && ChainEnds(x.bounds, s.type_, n)
    reads db, db.te, db.teCond
  {
    BoundOf(x.bounds, s.type_) != 0 ==>
      (AboveFits(db.tm, x.bounds, s, t);
       Allowed(db, x, Above(x.bounds, s), Above(x.bounds, t), c, bit, n - 1))
  }

  lemma NothingAbove(db: PolicyDb, x: Extra, s: Context, t: Context, c: nat, n: nat)
    requires Synced(db) && TypesFit(db.tm, s, t) && 0 < c <= |x.constraints|
    requires BoundsFit(db.tm, x.bounds) && ChainEnds(x.bounds, s.type_, n) && BoundOf(x.bounds, s.type_) == 0
    ensures db.Valid() && forall bit: nat :: AboveAllows(db, x, s, t, c, bit, n)
  {
  }

  lemma StepUp(db: PolicyDb, x: Extra, s: Context, t: Context, n: nat)
    requires Synced(db) && TypesFit(db.tm, s, t)
    requires BoundsFit(db.tm, x.bounds) && ChainEnds(x.bounds, s.type_, n) && BoundOf(x.bounds, s.type_) != 0
    ensures db.Valid() && n > 0 && TypesFit(db.tm, Above(x.bounds, s), Above(x.bounds, t))
    ensures ChainEnds(x.bounds, Above(x.bounds, s).type_, n - 1)
  {
    AboveFits(db.tm, x.bounds, s, t);
  }

  lemma AnsweredAbove(db: PolicyDb, x: Extra, s: Context, t: Context, c: nat, lo: Avd, n: nat)
    requires db.Valid() && TypesFit(db.tm, s, t) && 0 < c <= |x.constraints|
    requires BoundsFit(db.tm, x.bounds) && ChainEnds(x.bounds, s.type_, n) && BoundOf(x.bounds, s.type_) != 0
    requires n > 0 && TypesFit(db.tm, Above(x.bounds, s), Above(x.bounds, t)) && ChainEnds(x.bounds, Above(x.bounds, s).type_, n - 1)
    requires Answered(db, x, Above(x.bounds, s), Above(x.bounds, t), c, lo, n - 1)
    ensures forall bit: nat :: BitSet(lo.allowed, bit) <==> AboveAllows(db, x, s, t, c, bit, n)
  {
    hide BitSet, Allowed, TypesFit, BoundsFit, Above;
  }

  lemma LevelReason(db: PolicyDb, x: Extra, s: Context, t: Context, c: nat, requested: bv32, level: bv32, reason: Reason, masked: bool)
    requires db.Valid() && TypesFit(db.tm, s, t) && 0 < c <= |x.constraints|
    requires LevelDone(db, x, s, t, c, requested, level, reason)
    ensures LevelDone(db, x, s, t, c, requested, level, reason.(bounds := masked))
  {
    hide BitSet, LevelAllows, TypesAllow, ConstraintsAllow, RolesAllow;
  }

  lemma AnsweredBits(db: PolicyDb, x: Extra, s: Context, t: Context, c: nat, level: bv32, avd: Avd, n: nat, requested: bv32, reason: Reason)
    requires db.Valid() && TypesFit(db.tm, s, t) && 0 < c <= |x.constraints|
    requires BoundsFit(db.tm, x.bounds) && ChainEnds(x.bounds, s.type_, n)
    requires LevelDone(db, x, s, t, c, requested, level, reason) && AuditsDecided(db, s, t, c, avd)
    requires forall bit: nat :: BitSet(avd.allowed, bit) <==> BitSet(level, bit) && AboveAllows(db, x, s, t, c, bit, n)
    ensures Answered(db, x, s, t, c, avd, n)
  {
    hide BitSet, LevelAllows, TypesAllow, ConstraintsAllow, RolesAllow, TypesFit, BoundsFit, Above, AuditsDecided;
  }

  // ---------------------------------------------------------------- bounds that mask nothing

  /** The constraints do not look at types. */
  ghost predicate TypeBlind(cs: seq<Constraint>) {
    forall i, s: Context, t: Context, u: nat, v: nat :: 0 <= i < |cs| ==>
      (Satisfied(cs[i].expr, s, t) <==> Satisfied(cs[i].expr, s.(type_ := u), t.(type_ := v)))
  }

  /** Every type that has a bound is bounded by it, under the current booleans. */
  ghost predicate AllBounded(db: PolicyDb, bounds: seq<nat>)
    requires db.Valid()
    reads db, db.te, db.teCond
  {
    forall i :: 0 <= i < |bounds| && bounds[i] != 0 ==> Hierarchy.Bounded(db, bounds, i + 1, bounds[i], db.bools)
  }

  /** What the types allow, their bounds allow. */
  lemma BoundAllows(db: PolicyDb, bounds: seq<nat>, s: Context, t: Context, c: nat, bit: nat)
    requires db.Valid() && TypesFit(db.tm, s, t) && BoundsFit(db.tm, bounds) && AllBounded(db, bounds)
    requires BoundOf(bounds, s.type_) != 0 && TypesAllow(db, s, t, c, bit)
    ensures TypesFit(db.tm, Above(bounds, s), Above(bounds, t)) && TypesAllow(db, Above(bounds, s), Above(bounds, t), c, bit)
  {
    AboveFits(db.tm, bounds, s, t);
    var p := Hierarchy.Perm(t.type_ - 1, c, bit);
    hide PolicyDb.Valid, PolicyDb.Decides, Single;
    assert Hierarchy.Bounded(db, bounds, s.type_, bounds[s.type_ - 1], db.bools);
    assert Hierarchy.Askable(db.tm, bounds, p);
  }

  /**
     Where every type is bounded by its bound and the constraints do not look at types, the
     bounds mask nothing: what one level allows is allowed.
   */
  lemma {:induction false} BoundsIdle(db: PolicyDb, x: Extra, s: Context, t: Context, c: nat, bit: nat, n: nat)
    requires db.Valid() && TypesFit(db.tm, s, t) && 0 < c <= |x.constraints|
    requires BoundsFit(db.tm, x.bounds) && ChainEnds(x.bounds, s.type_, n)
    requires AllBounded(db, x.bounds) && TypeBlind(x.constraints[c - 1])
    ensures Allowed(db, x, s, t, c, bit, n) <==> LevelAllows(db, x, s, t, c, bit)
    decreases n
  {
    hide PolicyDb.Valid, AllBounded, Satisfied, TypesAllow, BitSet, BoundsFit;
    if LevelAllows(db, x, s, t, c, bit) && BoundOf(x.bounds, s.type_) != 0 {
      BoundAllows(db, x.bounds, s, t, c, bit);
      var s', t' := Above(x.bounds, s), Above(x.bounds, t);
      assert s' == s.(type_ := s'.type_) && t' == t.(type_ := t'.type_);
      assert LevelAllows(db, x, s', t', c, bit);
      BoundsIdle(db, x, s', t', c, bit, n - 1);
    }
  }

  /**
     So a policy whose compile-time bounds check is clean, with parents counted by their allow
     rules, has nothing masked at run time.
   */
  lemma CleanBoundsIdle(db: PolicyDb, x: Extra, s: Context, t: Context, c: nat, bit: nat, n: nat)
    requires db.Valid() && TypesFit(db.tm, s, t) && 0 < c <= |x.constraints|
    requires BoundsFit(db.tm, x.bounds) && ChainEnds(x.bounds, s.type_, n) && |x.bounds| == db.tm.Nprim()
    requires TypeBlind(x.constraints[c - 1]) && AllDefined(db.condList, db.bools)
    requires forall i :: 0 <= i < |x.bounds| && x.bounds[i] != 0 ==> CleanAt(db, x.bounds, i)
    ensures Allowed(db, x, s, t, c, bit, n) <==> LevelAllows(db, x, s, t, c, bit)
  {
    forall i | 0 <= i < |x.bounds| && x.bounds[i] != 0 ensures Hierarchy.Bounded(db, x.bounds, i + 1, x.bounds[i], db.bools) {
      assert CleanAt(db, x.bounds, i);
      Hierarchy.BoundsSound(db, x.bounds, i + 1, x.bounds[i]);
    }
    hide *;
    BoundsIdle(db, x, s, t, c, bit, n);
  }

  /** Type `i` is one that is checked, and its check is clean. */
  ghost predicate CleanAt(db: PolicyDb, bounds: seq<nat>, i: nat)
    requires db.Valid() && i < |bounds| && bounds[i] != 0
    reads db, db.te, db.teCond
  {
    && db.tm.Concrete(i) && db.tm.Concrete(bounds[i] - 1)
    && (PolicyInRange(db);
        Hierarchy.Clean(db, bounds, i + 1, bounds[i], true))
  }
}
