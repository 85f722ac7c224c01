/**
 Normalising a conditional: a trailing NOT is traded for swapped branches and the truth table
 over at most five booleans is computed by trying every setting (src/conditional.c). Two
 conditionals are then compared through their tables.
 */
module Normalize {
  import opened Prelude
  import opened Masks
  import opened CondExpr
  import opened PolicyDb

  const MAX_BOOLS: nat := 5

  /** The distinct booleans of a program, in order of first use. */
  function IdsOf(ops: seq<Op>): (ids: seq<nat>)
    ensures forall i, j :: 0 <= i < j < |ids| ==> ids[i] != ids[j]
    ensures forall b :: b in ids <==> Push(b) in ops
  {
    if ops == [] then []
    else
      var n := |ops| - 1;
      var ids := IdsOf(ops[..n]);
      assert ops == ops[..n] + [ops[n]];
      match ops[n]
      case Push(b) => if b in ids then ids else ids + [b]
      case _ => ids
  }

  predicate BitOf(t: nat, j: nat) {
    if j == 0 then t % 2 == 1 else BitOf(t / 2, j - 1)
  }

  /** The assignment a test number stands for: bit `j` is boolean `ids[j]`. */
  function Setting(bools: seq<bool>, ids: seq<nat>, t: nat, k: nat): (r: seq<bool>)
    requires k <= |ids| && forall i :: 0 <= i < |ids| ==> 0 < ids[i] <= |bools|
    ensures |r| == |bools|
  {
    if k == 0 then bools else Setting(bools, ids, t, k - 1)[ids[k - 1] - 1 := BitOf(t, k - 1)]
  }

  /** The test number of an assignment. */
  function Index(asg: seq<bool>, ids: seq<nat>): (t: nat)
    requires forall i :: 0 <= i < |ids| ==> 0 < ids[i] <= |asg|
    ensures t < Pow2(|ids|)
  {
    if ids == [] then 0 else (if asg[ids[0] - 1] then 1 else 0) + 2 * Index(asg, ids[1..])
  }

  lemma {:induction false} IndexBit(asg: seq<bool>, ids: seq<nat>, j: nat)
    requires j < |ids| && forall i :: 0 <= i < |ids| ==> 0 < ids[i] <= |asg|
    ensures BitOf(Index(asg, ids), j) == asg[ids[j] - 1]
    decreases j
  {
    var rest := Index(asg, ids[1..]);
    assert Index(asg, ids) / 2 == rest;
    if j > 0 {
      IndexBit(asg, ids[1..], j - 1);
    }
  }

  lemma {:induction false} SettingAt(bools: seq<bool>, ids: seq<nat>, t: nat, k: nat, j: nat)
    requires j < k <= |ids| && forall i :: 0 <= i < |ids| ==> 0 < ids[i] <= |bools|
    requires NoDuplicates(ids)
    ensures Setting(bools, ids, t, k)[ids[j] - 1] == BitOf(t, j)
    decreases k
  {
    if j < k - 1 { SettingAt(bools, ids, t, k - 1, j); }
  }

  lemma {:induction false} SettingElsewhere(bools: seq<bool>, ids: seq<nat>, t: nat, k: nat, p: nat)
    requires k <= |ids| && p < |bools| && forall i :: 0 <= i < |ids| ==> 0 < ids[i] <= |bools|
    requires forall i :: 0 <= i < |ids| ==> ids[i] != p + 1
    ensures Setting(bools, ids, t, k)[p] == bools[p]
    decreases k
  {
    if k > 0 { SettingElsewhere(bools, ids, t, k - 1, p); }
  }

  lemma {:induction false} BitOfNumber(t: nat)
    ensures BitOf(t, 0) <==> t % 2 == 1
    ensures BitOf(t, 1) <==> t / 2 % 2 == 1
    ensures BitOf(t, 2) <==> t / 4 % 2 == 1
    ensures BitOf(t, 3) <==> t / 8 % 2 == 1
    ensures BitOf(t, 4) <==> t / 16 % 2 == 1
  {
    var a, b, c, d := t / 2, t / 4, t / 8, t / 16;
    assert BitOf(t, 0) <==> t % 2 == 1;
    assert BitOf(t, 1) == BitOf(a, 0);
    assert a / 2 == b && BitOf(t, 2) == BitOf(a, 1) == BitOf(b, 0);
    assert b / 2 == c && BitOf(t, 3) == BitOf(a, 2) == BitOf(b, 1) == BitOf(c, 0);
    assert c / 2 == d && BitOf(t, 4) == BitOf(a, 3) == BitOf(b, 2) == BitOf(c, 1) == BitOf(d, 0);
  }

  /** Setting `t` gives the recorded booleans the binary digits of `t`, lowest first, and leaves the others. */
  lemma {:induction false} SettingDigits(bools: seq<bool>, ids: seq<nat>, t: nat, p: nat)
    requires |ids| <= 5 && NoDuplicates(ids) && p < |bools| && forall i :: 0 <= i < |ids| ==> 0 < ids[i] <= |bools|
    ensures var s := Setting(bools, ids, t, |ids|);
      && (|ids| > 0 && ids[0] == p + 1 ==> s[p] == (t % 2 == 1))
      && (|ids| > 1 && ids[1] == p + 1 ==> s[p] == (t / 2 % 2 == 1))
      && (|ids| > 2 && ids[2] == p + 1 ==> s[p] == (t / 4 % 2 == 1))
      && (|ids| > 3 && ids[3] == p + 1 ==> s[p] == (t / 8 % 2 == 1))
      && (|ids| > 4 && ids[4] == p + 1 ==> s[p] == (t / 16 % 2 == 1))
      && (p + 1 !in ids ==> s[p] == bools[p])
  {
    hide Setting, BitOf;
    BitOfNumber(t);
    forall j: nat | j < |ids| && ids[j] == p + 1 ensures Setting(bools, ids, t, |ids|)[p] == BitOf(t, j) {
      SettingAt(bools, ids, t, |ids|, j);
    }
    if p + 1 !in ids { SettingElsewhere(bools, ids, t, |ids|, p); }
  }

  /** Evaluation reads no boolean outside the program. */
  lemma {:induction false} RunAgrees(ops: seq<Op>, stack: seq<bool>, a: seq<bool>, b: seq<bool>)
    requires |a| == |b| && InScope(ops, |a|) && |stack| <= MAXDEPTH
    requires forall i :: 0 <= i < |ops| && ops[i].Push? ==> a[ops[i].b - 1] == b[ops[i].b - 1]
    ensures Run(ops, stack, a) == Run(ops, stack, b)
    decreases |ops|
  {
    if ops != [] {
      assert Step(ops[0], stack, a) == Step(ops[0], stack, b);
      var s := Step(ops[0], stack, a);
      if s.Some? { RunAgrees(ops[1..], s.value, a, b); }
    }
  }

  lemma IdsInScope(ops: seq<Op>, n: nat)
    requires InScope(ops, n)
    ensures forall i :: 0 <= i < |IdsOf(ops)| ==> 0 < IdsOf(ops)[i] <= n
  {
    var ids := IdsOf(ops);
    hide IdsOf;
    forall i | 0 <= i < |ids| ensures 0 < ids[i] <= n {
      assert ids[i] in ids;
      var k :| 0 <= k < |ops| && ops[k] == Push(ids[i]);
    }
  }

  lemma EvaluateAgrees(ops: seq<Op>, a: seq<bool>, b: seq<bool>)
    requires |a| == |b| && InScope(ops, |a|)
    requires forall i :: 0 <= i < |ops| && ops[i].Push? ==> a[ops[i].b - 1] == b[ops[i].b - 1]
    ensures Evaluate(ops, a) == Evaluate(ops, b)
  {
    RunAgrees(ops, [], a, b);
  }

  lemma IndexedReads(ids: seq<nat>, bools: seq<bool>, asg: seq<bool>, j: nat)
    requires |asg| == |bools| && NoDuplicates(ids) && j < |ids|
    requires forall i :: 0 <= i < |ids| ==> 0 < ids[i] <= |bools|
    ensures Setting(bools, ids, Index(asg, ids), |ids|)[ids[j] - 1] == asg[ids[j] - 1]
  {
    hide *;
    SettingAt(bools, ids, Index(asg, ids), |ids|, j);
    IndexBit(asg, ids, j);
  }

  lemma InScopeFacts(ops: seq<Op>, n: nat)
    requires InScope(ops, n)
    ensures forall i :: 0 <= i < |ops| && ops[i].Push? ==> 0 < ops[i].b <= n
  {
  }

  /** The setting numbered by an assignment evaluates like the assignment. */
  lemma SettingEvaluates(ops: seq<Op>, ids: seq<nat>, bools: seq<bool>, asg: seq<bool>)
    requires InScope(ops, |bools|) && |asg| == |bools| && NoDuplicates(ids)
    requires forall i :: 0 <= i < |ids| ==> 0 < ids[i] <= |bools|
    requires forall i :: 0 <= i < |ops| && ops[i].Push? ==> ops[i].b in ids
    ensures Evaluate(ops, Setting(bools, ids, Index(asg, ids), |ids|)) == Evaluate(ops, asg)
  {
    hide *;
    InScopeFacts(ops, |bools|);
    var s := Setting(bools, ids, Index(asg, ids), |ids|);
    forall i | 0 <= i < |ops| && ops[i].Push? ensures s[ops[i].b - 1] == asg[ops[i].b - 1] {
      var j :| 0 <= j < |ids| && ids[j] == ops[i].b;
      IndexedReads(ids, bools, asg, j);
    }
    EvaluateAgrees(ops, s, asg);
  }

  lemma IdsCover(ops: seq<Op>)
    ensures NoDuplicates(IdsOf(ops))
    ensures forall i :: 0 <= i < |ops| && ops[i].Push? ==> ops[i].b in IdsOf(ops)
  {
    forall i | 0 <= i < |ops| && ops[i].Push? ensures ops[i].b in IdsOf(ops) {
      assert ops[i] == Push(ops[i].b) && ops[i] in ops;
    }
  }

  method BoolPresent(target: nat, ids: seq<nat>, num: nat) returns (r: bool)
    requires num <= MAX_BOOLS ==> num <= |ids|
    ensures r <==> num <= 5 && target in ids[..num]
  {
    if num > MAX_BOOLS { return false; }
    var i := 0;
    while i < num && target != ids[i]
      invariant i <= num && target !in ids[..i]
    {
      i := i + 1;
    }
    r := i != num;
  }

  /** Counting the distinct booleans; past five the count is only known to be past five. */
  method FindBools(ops: seq<Op>) returns (nbools: nat, ids: seq<nat>)
    ensures nbools <= 5 <==> |IdsOf(ops)| <= 5
    ensures nbools <= 5 ==> nbools == |IdsOf(ops)| && ids == IdsOf(ops)
    ensures nbools > 5 ==> |ids| == 5
  {
    nbools, ids := 0, [];
    for i := 0 to |ops|
      invariant nbools <= MAX_BOOLS ==> nbools == |ids| && ids == IdsOf(ops[..i])
      invariant nbools > MAX_BOOLS ==> |ids| == MAX_BOOLS && |IdsOf(ops[..i])| > MAX_BOOLS
    {
      ghost var before := ops[..i];
      assert ops[..i + 1] == before + [ops[i]];
      assert (before + [ops[i]])[..|before|] == before;
      if ops[i].Push? {
        var present := BoolPresent(ops[i].b, ids, nbools);
        assert nbools <= MAX_BOOLS ==> ids[..nbools] == ids;
        if !present {
          if nbools < MAX_BOOLS { ids := ids + [ops[i].b]; }
          nbools := nbools + 1;
        }
      }
    }
    assert ops[..|ops|] == ops;
  }

  /** Bit `t` of the table is set exactly for the settings that evaluate true. */
  ghost predicate TableUpTo(table: bv32, ops: seq<Op>, bools: seq<bool>, ids: seq<nat>, n: nat)
    requires InScope(ops, |bools|) && forall i :: 0 <= i < |ids| ==> 0 < ids[i] <= |bools|
  {
    forall t: nat :: t < 32 ==> (Meets(table, Single(t)) <==>
      t < n && Evaluate(ops, Setting(bools, ids, t, |ids|)) == Defined(true))
  }

  lemma TableStep(table: bv32, ops: seq<Op>, bools: seq<bool>, ids: seq<nat>, n: nat, k: bool)
    requires InScope(ops, |bools|) && forall i :: 0 <= i < |ids| ==> 0 < ids[i] <= |bools|
    requires n < 32 && TableUpTo(table, ops, bools, ids, n)
    requires Evaluate(ops, Setting(bools, ids, n, |ids|)) == Defined(k)
    ensures TableUpTo(if k then Union(table, Single(n)) else table, ops, bools, ids, n + 1)
  {
    hide Meets, Union, Single, Setting, Run;
    forall t: nat | t < 32 ensures Meets(Union(table, Single(n)), Single(t)) <==> Meets(table, Single(t)) || t == n {
      UnionMeets(table, Single(n), Single(t));
      SingleMeets(n, t);
    }
  }

  lemma EmptyTable(ops: seq<Op>, bools: seq<bool>, ids: seq<nat>)
    requires InScope(ops, |bools|) && forall i :: 0 <= i < |ids| ==> 0 < ids[i] <= |bools|
    ensures TableUpTo(0, ops, bools, ids, 0)
  {
    hide Meets, Single;
    forall t: nat | t < 32 ensures !Meets(0, Single(t)) { ZeroMeets(0, Single(t)); }
  }

  lemma TestsFit(n: nat)
    requires n <= MAX_BOOLS
    ensures Pow2(n) <= 32
  {
    assert Pow2(5) == 32;
    if n < 5 { Pow2Grows(n, 5); }
  }

  /** The booleans hold the first setting whose evaluation is undefined. */
  ghost predicate LeftAtFailure(ops: seq<Op>, bools0: seq<bool>, ids: seq<nat>, bools: seq<bool>)
    requires InScope(ops, |bools0|) && forall i :: 0 <= i < |ids| ==> 0 < ids[i] <= |bools0|
  {
    exists t: nat :: FailsFirst(ops, bools0, ids, t) && bools == Setting(bools0, ids, t, |ids|)
  }

  ghost predicate FailsFirst(ops: seq<Op>, bools0: seq<bool>, ids: seq<nat>, t: nat)
    requires InScope(ops, |bools0|) && forall i :: 0 <= i < |ids| ==> 0 < ids[i] <= |bools0|
  {
    && t < Pow2(|ids|) && Evaluate(ops, Setting(bools0, ids, t, |ids|)) == Undefined
    && forall u: nat :: u < t ==> Evaluate(ops, Setting(bools0, ids, u, |ids|)) != Undefined
  }

  /** Tries every setting; the booleans are left at the last one, or the first failing one. */
  method Precompute(db: PolicyDb, ops: seq<Op>, ids: seq<nat>, ghost bools0: seq<bool>) returns (ok: bool, table: bv32)
    requires InScope(ops, |bools0|) && db.bools == bools0
    requires |ids| <= MAX_BOOLS && NoDuplicates(ids)
    requires forall i :: 0 <= i < |ids| ==> 0 < ids[i] <= |bools0|
    modifies db`bools
    ensures |db.bools| == |bools0|
    ensures forall p :: 0 <= p < |bools0| && (forall i :: 0 <= i < |ids| ==> ids[i] != p + 1) ==> db.bools[p] == bools0[p]
    ensures ok ==> TableUpTo(table, ops, bools0, ids, Pow2(|ids|))
    ensures ok <==> forall t: nat :: t < Pow2(|ids|) ==> Evaluate(ops, Setting(bools0, ids, t, |ids|)) != Undefined
    ensures !ok ==> LeftAtFailure(ops, bools0, ids, db.bools)
  {
    table := 0;
    EmptyTable(ops, bools0, ids);
    TestsFit(|ids|);
    hide TableUpTo, Run, Evaluate;
    for test := 0 to Pow2(|ids|)
      invariant |db.bools| == |bools0|
      invariant db.bools == bools0 || (exists t: nat :: db.bools == Setting(bools0, ids, t, |ids|))
      invariant TableUpTo(table, ops, bools0, ids, test)
      invariant forall t: nat :: t < test ==> Evaluate(ops, Setting(bools0, ids, t, |ids|)) != Undefined
    {
      ApplySetting(db, ids, test, bools0);
      var k := CondEvaluateExpr(ops, db.bools);
      if k == Undefined {
        Untouched(bools0, db.bools, ids);
        assert FailsFirst(ops, bools0, ids, test);
        return false, table;
      }
      TableStep(table, ops, bools0, ids, test, k.value);
      if k.value { table := Union(table, Single(test)); }
    }
    Untouched(bools0, db.bools, ids);
    ok := true;
  }

  lemma Untouched(bools0: seq<bool>, bools: seq<bool>, ids: seq<nat>)
    requires |bools| == |bools0| && forall i :: 0 <= i < |ids| ==> 0 < ids[i] <= |bools0|
    requires bools == bools0 || (exists t: nat :: bools == Setting(bools0, ids, t, |ids|))
    ensures forall p :: 0 <= p < |bools0| && (forall i :: 0 <= i < |ids| ==> ids[i] != p + 1) ==> bools[p] == bools0[p]
  {
    if t: nat :| bools == Setting(bools0, ids, t, |ids|) {
      forall p | 0 <= p < |bools0| && (forall i :: 0 <= i < |ids| ==> ids[i] != p + 1) ensures bools[p] == bools0[p] {
        SettingElsewhere(bools0, ids, t, |ids|, p);
      }
    }
  }

  /** Overwrites the booleans of the expression with the bits of `test`. */
  method ApplySetting(db: PolicyDb, ids: seq<nat>, test: nat, ghost bools0: seq<bool>)
    requires |db.bools| == |bools0| && forall i :: 0 <= i < |ids| ==> 0 < ids[i] <= |bools0|
    requires db.bools == bools0 || (exists t: nat :: db.bools == Setting(bools0, ids, t, |ids|))
    requires NoDuplicates(ids)
    modifies db`bools
    ensures db.bools == Setting(bools0, ids, test, |ids|)
  {
    ghost var start := db.bools;
    for j := 0 to |ids|
      invariant db.bools == Setting(start, ids, test, j)
    {
      db.bools := db.bools[ids[j] - 1 := BitOf(test, j)];
    }
    SettingOverrides(bools0, start, ids, test);
  }

  lemma SettingOverrides(bools0: seq<bool>, start: seq<bool>, ids: seq<nat>, test: nat)
    requires |start| == |bools0| && forall i :: 0 <= i < |ids| ==> 0 < ids[i] <= |bools0|
    requires start == bools0 || (exists t: nat :: start == Setting(bools0, ids, t, |ids|))
    requires NoDuplicates(ids)
    ensures Setting(start, ids, test, |ids|) == Setting(bools0, ids, test, |ids|)
  {
    hide *;
    var a, b := Setting(start, ids, test, |ids|), Setting(bools0, ids, test, |ids|);
    Untouched(bools0, start, ids);
    forall p | 0 <= p < |bools0| ensures a[p] == b[p] {
      if j :| 0 <= j < |ids| && ids[j] == p + 1 {
        SettingAt(start, ids, test, |ids|, j);
        SettingAt(bools0, ids, test, |ids|, j);
      } else {
        SettingElsewhere(start, ids, test, |ids|, p);
        SettingElsewhere(bools0, ids, test, |ids|, p);
      }
    }
  }

  // ---------------------------------------------------------------- cond_normalize_expr

  function AvBranch(cn: CondNode, o: Outcome): seq<nat> {
    match o
    case Defined(true) => cn.avtrueList
    case Defined(false) => cn.avfalseList
    case Undefined => []
  }

  /** The table of a short conditional answers for every assignment. */
  ghost predicate TableOk(cn: CondNode, n: nat) {
    && InScope(cn.expr, n)
    && cn.nbools == |IdsOf(cn.expr)| <= MAX_BOOLS
    && cn.boolIds == IdsOf(cn.expr)
    && (forall i :: 0 <= i < |cn.boolIds| ==> 0 < cn.boolIds[i] <= n)
    && (forall asg: seq<bool> :: |asg| == n ==> TableAnswers(cn, asg))
  }

  ghost predicate TableAnswers(cn: CondNode, asg: seq<bool>)
    requires InScope(cn.expr, |asg|) && |cn.boolIds| <= MAX_BOOLS
    requires forall i :: 0 <= i < |cn.boolIds| ==> 0 < cn.boolIds[i] <= |asg|
  {
    TestsFit(|cn.boolIds|);
    Evaluate(cn.expr, asg) == Defined(Meets(cn.preComp, Single(Index(asg, cn.boolIds))))
  }

  lemma TableCovers(cn: CondNode, bools: seq<bool>, asg: seq<bool>)
    requires InScope(cn.expr, |bools|) && |asg| == |bools|
    requires cn.boolIds == IdsOf(cn.expr) && |cn.boolIds| <= MAX_BOOLS
    requires forall i :: 0 <= i < |cn.boolIds| ==> 0 < cn.boolIds[i] <= |bools|
    requires TableUpTo(cn.preComp, cn.expr, bools, cn.boolIds, Pow2(|cn.boolIds|))
    requires forall t: nat :: t < Pow2(|cn.boolIds|) ==>
      Evaluate(cn.expr, Setting(bools, cn.boolIds, t, |cn.boolIds|)) != Undefined
    ensures TableAnswers(cn, asg)
  {
    TestsFit(|cn.boolIds|);
    IdsCover(cn.expr);
    hide IdsOf, Setting, Meets, Single, Evaluate;
    SettingEvaluates(cn.expr, cn.boolIds, bools, asg);
    var t := Index(asg, cn.boolIds);
    assert Meets(cn.preComp, Single(t)) <==> Evaluate(cn.expr, Setting(bools, cn.boolIds, t, |cn.boolIds|)) == Defined(true);
  }

  /** Dropping a trailing NOT negates a well-formed program's value. */
  lemma TrailingNot(ops: seq<Op>, t: Tree, asg: seq<bool>)
    requires ops == Postfix(t) && InScope(ops, |asg|) && ops[|ops| - 1] == Negate
    ensures t.Not? && ops[..|ops| - 1] == Postfix(t.t) && InScope(ops[..|ops| - 1], |asg|)
    ensures Evaluate(ops, asg) == match Evaluate(ops[..|ops| - 1], asg) case Defined(v) => Defined(!v) case Undefined => Undefined
  {
    assert t.Not?;
    assert ops[..|ops| - 1] == Postfix(t.t);
    PostfixInScope(t, |asg|);
    EvaluatePostfix(t, asg);
    EvaluatePostfix(t.t, asg);
  }

  /** The node without its trailing NOT, with both pairs of branches exchanged for it. */
  function Stripped(cn: CondNode): CondNode
    requires cn.expr != []
  {
    var last := |cn.expr| - 1;
    if cn.expr[last] != Negate then cn
    else
      cn.(expr := cn.expr[..last], trueList := cn.falseList, falseList := cn.trueList,
          avtrueList := cn.avfalseList, avfalseList := cn.avtrueList)
  }

  method StripNot(cn: CondNode) returns (ok: bool, r: CondNode)
    requires cn.expr != []
    ensures ok <==> cn.expr != [Negate]
    ensures !ok ==> r == cn
    ensures ok ==> r == Stripped(cn)
  {
    r := cn;
    var e := 0;
    while e + 1 < |cn.expr|
      invariant e < |cn.expr|
    {
      e := e + 1;
    }
    if cn.expr[e] == Negate {
      if e == 0 { return false, cn; }
      r := r.(expr := r.expr[..e]);
      r := r.(trueList := r.falseList, falseList := r.trueList);
      r := r.(avtrueList := r.avfalseList, avfalseList := r.avtrueList);
    }
    ok := true;
  }

  /** The node's rules under an assignment, in both list forms. */
  ghost predicate SameBranches(a: CondNode, b: CondNode, asg: seq<bool>)
    requires InScope(a.expr, |asg|) && InScope(b.expr, |asg|)
  {
    && Branch(a, Evaluate(a.expr, asg)) == Branch(b, Evaluate(b.expr, asg))
    && AvBranch(a, Evaluate(a.expr, asg)) == AvBranch(b, Evaluate(b.expr, asg))
  }

  lemma NotAlone(t: Tree)
    ensures Postfix(t) != [Negate]
  {
    match t
    case Leaf(_) =>
    case Not(u) => assert |Postfix(u)| > 0;
    case Bin(_, l, r) => assert |Postfix(l)| > 0;
  }

  /** What stripping preserves of a well-formed program. */
  lemma StripKeeps(cn: CondNode, r: CondNode, t: Tree, asg: seq<bool>)
    requires cn.expr == Postfix(t) && InScope(cn.expr, |asg|)
    requires r == Stripped(cn).(nbools := r.nbools, boolIds := r.boolIds, preComp := r.preComp)
    ensures InScope(r.expr, |asg|)
    ensures SameBranches(cn, r, asg)
    ensures IdsOf(r.expr) == IdsOf(cn.expr)
    ensures exists u :: r.expr == Postfix(u) && Need(u) == Need(t)
  {
    if cn.expr[|cn.expr| - 1] == Negate {
      TrailingNot(cn.expr, t, asg);
      assert r.expr == Postfix(t.t) && Need(t.t) == Need(t);
    }
  }

  /** The values of the booleans of the expression. */
  method Save(db: PolicyDb, ids: seq<nat>) returns (original: seq<bool>)
    requires forall i :: 0 <= i < |ids| ==> 0 < ids[i] <= |db.bools|
    ensures |original| == |ids| && forall i :: 0 <= i < |ids| ==> original[i] == db.bools[ids[i] - 1]
  {
    original := [];
    for i := 0 to |ids|
      invariant |original| == i && forall k :: 0 <= k < i ==> original[k] == db.bools[ids[k] - 1]
    {
      original := original + [db.bools[ids[i] - 1]];
    }
  }

  /** Saved values go back to the booleans of the expression. */
  method Restore(db: PolicyDb, ids: seq<nat>, original: seq<bool>, ghost bools0: seq<bool>)
    requires |original| == |ids| && |db.bools| == |bools0|
    requires forall i :: 0 <= i < |ids| ==> 0 < ids[i] <= |bools0| && original[i] == bools0[ids[i] - 1]
    requires forall p :: 0 <= p < |bools0| && (forall i :: 0 <= i < |ids| ==> ids[i] != p + 1) ==> db.bools[p] == bools0[p]
    modifies db`bools
    ensures db.bools == bools0
  {
    for i := 0 to |ids|
      invariant |db.bools| == |bools0|
      invariant forall p :: 0 <= p < |bools0| && (forall k :: i <= k < |ids| ==> ids[k] != p + 1) ==> db.bools[p] == bools0[p]
    {
      db.bools := db.bools[ids[i] - 1 := original[i]];
    }
  }

  lemma DefinedAt(ops: seq<Op>, u: Tree, bools: seq<bool>)
    requires ops == Postfix(u) && InScope(ops, |bools|)
    ensures Evaluate(ops, bools) != Undefined <==> Need(u) <= 10
  {
    PostfixInScope(u, |bools|);
    hide *;
    EvaluatePostfix(u, bools);
  }

  /** A well-formed program is defined for all settings or for none. */
  lemma DefinedEverywhere(ops: seq<Op>, u: Tree, ids: seq<nat>, bools: seq<bool>)
    requires ops == Postfix(u) && InScope(ops, |bools|)
    requires forall i :: 0 <= i < |ids| ==> 0 < ids[i] <= |bools|
    ensures (forall t: nat :: t < Pow2(|ids|) ==> Evaluate(ops, Setting(bools, ids, t, |ids|)) != Undefined)
      <==> Need(u) <= 10
  {
    hide *;
    forall t: nat ensures Evaluate(ops, Setting(bools, ids, t, |ids|)) != Undefined <==> Need(u) <= 10 {
      DefinedAt(ops, u, Setting(bools, ids, t, |ids|));
    }
    var zero: nat := 0;
    assert zero < Pow2(|ids|);
    if Need(u) > 10 { assert Evaluate(ops, Setting(bools, ids, zero, |ids|)) == Undefined; }
  }

  ghost predicate IdsFit(ids: seq<nat>, n: nat) {
    forall i :: 0 <= i < |ids| ==> 0 < ids[i] <= n
  }

  /** On a well-formed program the first setting fails: all its booleans are left false. */
  lemma FailureClears(ops: seq<Op>, u: Tree, bools0: seq<bool>, ids: seq<nat>, bools: seq<bool>, p: nat)
    requires ops == Postfix(u) && InScope(ops, |bools0|) && IdsFit(ids, |bools0|) && NoDuplicates(ids) && p < |bools0|
    requires LeftAtFailure(ops, bools0, ids, bools)
    ensures |bools| == |bools0|
    ensures bools[p] == if p + 1 in ids then false else bools0[p]
  {
    hide Evaluate, Setting, Need, Postfix, InScope;
    var t: nat :| FailsFirst(ops, bools0, ids, t) && bools == Setting(bools0, ids, t, |ids|);
    var zero: nat := 0;
    DefinedAt(ops, u, Setting(bools0, ids, t, |ids|));
    DefinedAt(ops, u, Setting(bools0, ids, zero, |ids|));
    if j :| 0 <= j < |ids| && ids[j] == p + 1 {
      SettingAt(bools0, ids, zero, |ids|, j);
      ZeroBits(j);
    } else {
      SettingElsewhere(bools0, ids, zero, |ids|, p);
    }
  }

  lemma {:induction false} ZeroBits(j: nat)
    ensures !BitOf(0, j)
  {
    if j > 0 { ZeroBits(j - 1); }
  }

  /** No bit of the table is set past the settings of the recorded booleans. */
  ghost predicate UnusedClear(cn: CondNode) {
    forall t: nat :: Pow2(|cn.boolIds|) <= t < 32 ==> !BitSet(cn.preComp, t)
  }

  lemma TableEnds(cn: CondNode, bools: seq<bool>)
    requires InScope(cn.expr, |bools|) && forall i :: 0 <= i < |cn.boolIds| ==> 0 < cn.boolIds[i] <= |bools|
    requires TableUpTo(cn.preComp, cn.expr, bools, cn.boolIds, Pow2(|cn.boolIds|))
    ensures UnusedClear(cn)
  {
    hide Meets, Single, Evaluate, Setting, Pow2;
  }

  /** The part of normalisation after stripping, on a copy of the node. */
  method FillTable(db: PolicyDb, cn: CondNode) returns (ok: bool, r: CondNode)
    requires InScope(cn.expr, |db.bools|)
    modifies db`bools
    ensures |db.bools| == |old(db.bools)| && (ok ==> db.bools == old(db.bools))
    ensures r == cn.(nbools := r.nbools, boolIds := r.boolIds, preComp := r.preComp)
    ensures ok ==> (r.nbools <= 5 <==> |IdsOf(r.expr)| <= 5)
    ensures ok && r.nbools <= 5 ==> TableOk(r, |db.bools|)
    ensures forall u :: cn.expr == Postfix(u) ==> (ok <==> Need(u) <= 10 || |IdsOf(cn.expr)| > 5)
    ensures ok && r.nbools <= 5 ==> UnusedClear(r)
    ensures !ok ==> IdsFit(r.boolIds, |db.bools|) && LeftAtFailure(r.expr, old(db.bools), r.boolIds, db.bools)
  {
    ghost var bools0 := db.bools;
    hide *;
    var nbools, ids := FindBools(cn.expr);
    r := cn.(nbools := nbools, boolIds := ids, preComp := 0);
    ok := true;
    if nbools <= MAX_BOOLS {
      IdsInScope(r.expr, |bools0|);
      IdsCover(r.expr);
      var original := Save(db, ids);
      var table;
      ok, table := Precompute(db, r.expr, ids, bools0);
      r := r.(preComp := table);
      forall u | cn.expr == Postfix(u) ensures ok <==> Need(u) <= MAXDEPTH { DefinedEverywhere(r.expr, u, ids, bools0); }
      if ok {
        Restore(db, ids, original, bools0);
        TableFilled(r, bools0);
        TableEnds(r, bools0);
      }
    }
  }

  lemma TableOkFrom(cn: CondNode, n: nat)
    requires InScope(cn.expr, n) && cn.boolIds == IdsOf(cn.expr) && cn.nbools == |cn.boolIds| <= MAX_BOOLS
    requires forall i :: 0 <= i < |cn.boolIds| ==> 0 < cn.boolIds[i] <= n
    requires forall asg: seq<bool> :: |asg| == n ==> TableAnswers(cn, asg)
    ensures TableOk(cn, n)
  {
    hide InScope, IdsOf, TableAnswers;
  }

  lemma TableFilled(cn: CondNode, bools: seq<bool>)
    requires InScope(cn.expr, |bools|)
    requires cn.boolIds == IdsOf(cn.expr) && cn.nbools == |cn.boolIds| <= MAX_BOOLS
    requires forall i :: 0 <= i < |cn.boolIds| ==> 0 < cn.boolIds[i] <= |bools|
    requires TableUpTo(cn.preComp, cn.expr, bools, cn.boolIds, Pow2(|cn.boolIds|))
    requires forall t: nat :: t < Pow2(|cn.boolIds|) ==>
      Evaluate(cn.expr, Setting(bools, cn.boolIds, t, |cn.boolIds|)) != Undefined
    ensures TableOk(cn, |bools|)
  {
    hide *;
    forall asg: seq<bool> | |asg| == |bools| ensures TableAnswers(cn, asg) { TableCovers(cn, bools, asg); }
    TableOkFrom(cn, |bools|);
  }

  /**
     Normalisation succeeds on a well-formed program unless it is short and too deep to
     evaluate; it selects the same branch under every assignment, leaves the booleans as they
     were, and leaves a table that answers for every assignment of a short program.
   */
  method CondNormalizeExpr(db: PolicyDb, cn: CondNode) returns (ok: bool, r: CondNode)
    requires cn.expr != [] && InScope(cn.expr, |db.bools|)
    modifies db`bools
    ensures |db.bools| == |old(db.bools)| && (ok ==> db.bools == old(db.bools))
    ensures InScope(r.expr, |db.bools|)
    ensures ok ==> (r.nbools <= 5 <==> |IdsOf(r.expr)| <= 5)
    ensures ok && r.nbools <= 5 ==> TableOk(r, |db.bools|)
    ensures forall t :: cn.expr == Postfix(t) ==> (ok <==> Need(t) <= 10 || |IdsOf(cn.expr)| > 5)
    ensures ok ==> forall t, asg: seq<bool> :: cn.expr == Postfix(t) && |asg| == |db.bools| ==> SameBranches(cn, r, asg)
    ensures r.curState == cn.curState
    ensures ok && cn.expr[|cn.expr| - 1] != Negate ==>
      && r.expr == cn.expr && r.trueList == cn.trueList && r.falseList == cn.falseList
      && r.avtrueList == cn.avtrueList && r.avfalseList == cn.avfalseList
    ensures ok && cn.expr[|cn.expr| - 1] == Negate ==>
      && r.expr == cn.expr[..|cn.expr| - 1] && r.trueList == cn.falseList && r.falseList == cn.trueList
      && r.avtrueList == cn.avfalseList && r.avfalseList == cn.avtrueList
    ensures ok && r.nbools <= 5 ==> UnusedClear(r)
    ensures !ok && cn.expr == [Negate] ==> db.bools == old(db.bools)
    ensures !ok && cn.expr != [Negate] ==> IdsFit(r.boolIds, |db.bools|) && LeftAtFailure(r.expr, old(db.bools), r.boolIds, db.bools)
  {
    ghost var n := |db.bools|;
    ok, r := StripNot(cn);
    if !ok {
      forall t ensures cn.expr != Postfix(t) { NotAlone(t); }
      return;
    }
    hide IdsOf, Evaluate, Need, Postfix, TableOk, SameBranches;
    ok, r := FillTable(db, r);
    forall t | cn.expr == Postfix(t) ensures ok <==> Need(t) <= MAXDEPTH || |IdsOf(cn.expr)| > MAX_BOOLS {
      StripKeeps(cn, r, t, seq(n, i => false));
    }
    forall t, asg: seq<bool> | ok && cn.expr == Postfix(t) && |asg| == n ensures SameBranches(cn, r, asg) {
      StripKeeps(cn, r, t, asg);
    }
  }

  // ---------------------------------------------------------------- comparing conditionals

  /** A node's recorded ids are as long as its count, up to five. */
  predicate Counted(cn: CondNode) {
    cn.nbools <= MAX_BOOLS ==> |cn.boolIds| == cn.nbools
  }

  method SameBools(a: CondNode, b: CondNode) returns (r: bool)
    requires Counted(a) && Counted(b) && a.nbools <= MAX_BOOLS
    ensures r <==> a.nbools == b.nbools && forall i :: 0 <= i < |a.boolIds| ==> a.boolIds[i] in b.boolIds
  {
    var x := a.nbools;
    if x != b.nbools { return false; }
    for i := 0 to x
      invariant forall k :: 0 <= k < i ==> a.boolIds[k] in b.boolIds
    {
      var present := BoolPresent(a.boolIds[i], b.boolIds, x);
      assert b.boolIds[..x] == b.boolIds;
      if !present { return false; }
    }
    r := true;
  }

  /** Equal values under every assignment. */
  ghost predicate SameValues(a: seq<Op>, b: seq<Op>) {
    forall bools: seq<bool> :: InScope(a, |bools|) && InScope(b, |bools|) ==> Evaluate(a, bools) == Evaluate(b, bools)
  }

  /** Short conditionals compare ids as sets and tables as words, long ones their programs. */
  predicate ComparesEqual(a: CondNode, b: CondNode) {
    && a.nbools == b.nbools
    && if a.nbools <= MAX_BOOLS then
         && (forall i :: 0 <= i < |a.boolIds| ==> a.boolIds[i] in b.boolIds)
         && a.preComp == b.preComp
       else a.expr == b.expr
  }

  method CondExprEqual(a: CondNode, b: CondNode) returns (r: bool)
    requires Counted(a) && Counted(b)
    ensures r <==> ComparesEqual(a, b)
    ensures a.nbools <= 5 ==> (r <==>
      && b.nbools == a.nbools && b.preComp == a.preComp
      && forall i :: 0 <= i < a.nbools ==> a.boolIds[i] in b.boolIds)
    ensures a.nbools > 5 ==> (r <==>
      b.nbools == a.nbools && |b.expr| == |a.expr| && forall i :: 0 <= i < |a.expr| ==> b.expr[i] == a.expr[i])
    ensures r && a.nbools > 5 ==> SameValues(a.expr, b.expr)
  {
    if a.nbools != b.nbools { return false; }
    if a.nbools <= MAX_BOOLS && b.nbools <= MAX_BOOLS {
      var same := SameBools(a, b);
      if !same { return false; }
      return a.preComp == b.preComp;
    }
    var i := 0;
    while true
      invariant i <= |a.expr| && i <= |b.expr| && a.expr[..i] == b.expr[..i]
      decreases |a.expr| - i
    {
      if i == |a.expr| && i == |b.expr| { return true; }
      if i == |a.expr| || i == |b.expr| { return false; }
      if a.expr[i] != b.expr[i] { return false; }
      i := i + 1;
    }
  }

  /** `w` when the `j`-th recorded boolean is there and set. */
  function Weighed(asg: seq<bool>, ids: seq<nat>, j: nat, w: nat): nat
    requires forall i :: 0 <= i < |ids| ==> 0 < ids[i] <= |asg|
  {
    if j < |ids| && asg[ids[j] - 1] then w else 0
  }

  /** The first recorded boolean counts 1, the second 2, and so on to 16. */
  function TestNumber(asg: seq<bool>, ids: seq<nat>): nat
    requires forall i :: 0 <= i < |ids| ==> 0 < ids[i] <= |asg|
  {
    Weighed(asg, ids, 0, 1) + Weighed(asg, ids, 1, 2) + Weighed(asg, ids, 2, 4) + Weighed(asg, ids, 3, 8) + Weighed(asg, ids, 4, 16)
  }

  lemma IndexFrom(asg: seq<bool>, ids: seq<nat>, k: nat)
    requires k < |ids| && forall i :: 0 <= i < |ids| ==> 0 < ids[i] <= |asg|
    ensures Index(asg, ids[k..]) == (if asg[ids[k] - 1] then 1 else 0) + 2 * Index(asg, ids[k + 1..])
  {
    assert ids[k..][1..] == ids[k + 1..];
  }

  lemma IndexEnd(asg: seq<bool>)
    ensures Index(asg, []) == 0
  {
  }

  lemma {:induction false} IndexWeighs(asg: seq<bool>, ids: seq<nat>)
    requires |ids| <= 5 && forall i :: 0 <= i < |ids| ==> 0 < ids[i] <= |asg|
    ensures Index(asg, ids) == TestNumber(asg, ids) < 32
  {
    hide Index;
    IndexEnd(asg);
    assert ids[0..] == ids && ids[|ids|..] == [];
    if |ids| > 0 { IndexFrom(asg, ids, 0); }
    if |ids| > 1 { IndexFrom(asg, ids, 1); }
    if |ids| > 2 { IndexFrom(asg, ids, 2); }
    if |ids| > 3 { IndexFrom(asg, ids, 3); }
    if |ids| > 4 { IndexFrom(asg, ids, 4); }
  }

  lemma TableParts(cn: CondNode, asg: seq<bool>)
    requires TableOk(cn, |asg|)
    ensures InScope(cn.expr, |asg|) && |cn.boolIds| <= 5 && forall i :: 0 <= i < |cn.boolIds| ==> 0 < cn.boolIds[i] <= |asg|
    ensures Index(asg, cn.boolIds) < 32 ==> Evaluate(cn.expr, asg) == Defined(BitSet(cn.preComp, Index(asg, cn.boolIds)))
  {
    hide Evaluate, IdsOf, Index, Meets, Single;
    assert TableAnswers(cn, asg);
  }

  /**
   The table of a short conditional: under every assignment its value is the bit at the number
   the recorded booleans make.
   */
  lemma {:induction false} TableReads(cn: CondNode, asg: seq<bool>)
    requires TableOk(cn, |asg|)
    ensures InScope(cn.expr, |asg|) && (forall i :: 0 <= i < |cn.boolIds| ==> 0 < cn.boolIds[i] <= |asg|)
    ensures TestNumber(asg, cn.boolIds) < 32
    ensures Evaluate(cn.expr, asg) == Defined(BitSet(cn.preComp, TestNumber(asg, cn.boolIds)))
  {
    hide *;
    TableParts(cn, asg);
    IndexWeighs(asg, cn.boolIds);
  }

  /** The booleans are recorded in the order of their first use. */
  lemma {:induction false} IdsInOrder(ops: seq<Op>, i: nat, j: nat) returns (p: nat)
    requires i < j < |IdsOf(ops)|
    ensures p < |ops| && ops[p] == Push(IdsOf(ops)[i])
    ensures forall q :: 0 <= q <= p ==> ops[q] != Push(IdsOf(ops)[j])
  {
    var n := |ops| - 1;
    var before := IdsOf(ops[..n]);
    if j < |before| {
      p := IdsInOrder(ops[..n], i, j);
    } else {
      assert before[i] in before;
      assert Push(before[i]) in ops[..n];
      p :| 0 <= p < n && ops[p] == Push(before[i]);
      forall q | 0 <= q <= p ensures ops[q] != Push(IdsOf(ops)[j]) { assert ops[q] in ops[..n]; }
    }
  }

  /** Short conditionals with one id order and one value under every assignment compare equal. */
  lemma {:induction false} SameFunctionEqual(a: CondNode, b: CondNode, n: nat)
    requires TableOk(a, n) && TableOk(b, n) && UnusedClear(a) && UnusedClear(b) && a.boolIds == b.boolIds
    requires forall asg: seq<bool> :: |asg| == n ==> Evaluate(a.expr, asg) == Evaluate(b.expr, asg)
    ensures ComparesEqual(a, b)
  {
    hide Evaluate, IdsOf, BitSet;
    forall t: nat ensures BitSet(a.preComp, t) <==> BitSet(b.preComp, t) { SameTableBit(a, b, n, t); }
    SameBits(a.preComp, b.preComp);
  }

  lemma SameTableBit(a: CondNode, b: CondNode, n: nat, t: nat)
    requires TableOk(a, n) && TableOk(b, n) && UnusedClear(a) && UnusedClear(b) && a.boolIds == b.boolIds
    requires forall asg: seq<bool> :: |asg| == n ==> Evaluate(a.expr, asg) == Evaluate(b.expr, asg)
    ensures BitSet(a.preComp, t) <==> BitSet(b.preComp, t)
  {
    IdsCover(a.expr);
    hide Evaluate, IdsOf, Meets, Single, Index, Setting;
    if t < Pow2(|a.boolIds|) {
      TestsFit(|a.boolIds|);
      var none := seq(n, i => false);
      var asg := Setting(none, a.boolIds, t, |a.boolIds|);
      IndexOfSetting(none, a.boolIds, t);
      assert TableAnswers(a, asg) && TableAnswers(b, asg);
    }
  }

  /** Equal ids in equal order and equal tables mean equal functions. */
  lemma SameOrderSound(a: CondNode, b: CondNode, asg: seq<bool>)
    requires TableOk(a, |asg|) && TableOk(b, |asg|) && a.boolIds == b.boolIds && a.preComp == b.preComp
    ensures Evaluate(a.expr, asg) == Evaluate(b.expr, asg)
  {
    hide IdsOf, Evaluate, Meets, Single, Index;
    assert TableAnswers(a, asg) && TableAnswers(b, asg);
  }

  /** The test number in `b`'s numbering of the assignment that `a` numbers `t`. */
  function Reorder(aIds: seq<nat>, bIds: seq<nat>, n: nat, t: nat): (u: nat)
    requires forall i :: 0 <= i < |aIds| ==> 0 < aIds[i] <= n
    requires forall i :: 0 <= i < |bIds| ==> 0 < bIds[i] <= n
    ensures u < Pow2(|bIds|)
  {
    Index(Setting(seq(n, i => false), aIds, t, |aIds|), bIds)
  }

  lemma {:induction false} IndexAgrees(x: seq<bool>, y: seq<bool>, ids: seq<nat>)
    requires |x| == |y| && forall i :: 0 <= i < |ids| ==> 0 < ids[i] <= |x| && x[ids[i] - 1] == y[ids[i] - 1]
    ensures Index(x, ids) == Index(y, ids)
  {
    if ids != [] { IndexAgrees(x, y, ids[1..]); }
  }

  lemma {:induction false} BitsDetermine(t: nat, u: nat, k: nat)
    requires t < Pow2(k) && u < Pow2(k) && forall j :: 0 <= j < k ==> BitOf(t, j) == BitOf(u, j)
    ensures t == u
    decreases k
  {
    if k > 0 {
      assert BitOf(t, 0) == BitOf(u, 0);
      forall j | 0 <= j < k - 1 ensures BitOf(t / 2, j) == BitOf(u / 2, j) { assert BitOf(t, j + 1) == BitOf(u, j + 1); }
      BitsDetermine(t / 2, u / 2, k - 1);
    }
  }

  lemma IndexOfSetting(bools: seq<bool>, ids: seq<nat>, t: nat)
    requires NoDuplicates(ids) && t < Pow2(|ids|) && forall i :: 0 <= i < |ids| ==> 0 < ids[i] <= |bools|
    ensures Index(Setting(bools, ids, t, |ids|), ids) == t
  {
    var s := Setting(bools, ids, t, |ids|);
    forall j: nat | j < |ids| ensures BitOf(Index(s, ids), j) == BitOf(t, j) {
      IndexBit(s, ids, j);
      SettingAt(bools, ids, t, |ids|, j);
    }
    hide Index, Setting, BitOf;
    BitsDetermine(Index(s, ids), t, |ids|);
  }

  /** Renumbering an assignment goes through its own number. */
  lemma ReorderIndex(aIds: seq<nat>, bIds: seq<nat>, asg: seq<bool>)
    requires NoDuplicates(aIds)
    requires forall i :: 0 <= i < |aIds| ==> 0 < aIds[i] <= |asg|
    requires forall i :: 0 <= i < |bIds| ==> 0 < bIds[i] <= |asg| && bIds[i] in aIds
    ensures Reorder(aIds, bIds, |asg|, Index(asg, aIds)) == Index(asg, bIds)
  {
    hide *;
    var none := seq(|asg|, i => false);
    var s := Setting(none, aIds, Index(asg, aIds), |aIds|);
    ReorderDef(aIds, bIds, |asg|, Index(asg, aIds));
    forall i | 0 <= i < |bIds| ensures s[bIds[i] - 1] == asg[bIds[i] - 1] {
      var j :| 0 <= j < |aIds| && aIds[j] == bIds[i];
      IndexedReads(aIds, none, asg, j);
    }
    IndexAgrees(s, asg, bIds);
  }

  lemma ReorderDef(aIds: seq<nat>, bIds: seq<nat>, n: nat, t: nat)
    requires forall i :: 0 <= i < |aIds| ==> 0 < aIds[i] <= n
    requires forall i :: 0 <= i < |bIds| ==> 0 < bIds[i] <= n
    ensures Reorder(aIds, bIds, n, t) == Index(Setting(seq(n, i => false), aIds, t, |aIds|), bIds)
  {
  }

  /** The table reads the same in both numberings of its booleans. */
  ghost predicate TableInvariant(a: CondNode, b: CondNode, n: nat)
    requires TableOk(a, n) && TableOk(b, n)
  {
    TestsFit(|a.boolIds|);
    TestsFit(|b.boolIds|);
    forall t: nat :: t < Pow2(|a.boolIds|) ==>
      (Meets(a.preComp, Single(t)) <==> Meets(a.preComp, Single(Reorder(a.boolIds, b.boolIds, n, t))))
  }

  /** Nodes with one table agree exactly if it is invariant under the renumbering of their booleans. */
  lemma TableAgreement(a: CondNode, b: CondNode, n: nat)
    requires TableOk(a, n) && TableOk(b, n) && a.nbools == b.nbools && a.preComp == b.preComp
    requires forall i :: 0 <= i < |b.boolIds| ==> b.boolIds[i] in a.boolIds
    ensures (forall asg: seq<bool> :: |asg| == n ==> Evaluate(a.expr, asg) == Evaluate(b.expr, asg)) <==> TableInvariant(a, b, n)
  {
    TestsFit(|a.boolIds|);
    IdsCover(a.expr);
    var none := seq(n, i => false);
    hide IdsOf, Evaluate, Meets, Single, Index, Setting, Reorder;
    if TableInvariant(a, b, n) {
      forall asg: seq<bool> | |asg| == n ensures Evaluate(a.expr, asg) == Evaluate(b.expr, asg) {
        assert TableAnswers(a, asg) && TableAnswers(b, asg);
        ReorderIndex(a.boolIds, b.boolIds, asg);
      }
    }
    if forall asg: seq<bool> :: |asg| == n ==> Evaluate(a.expr, asg) == Evaluate(b.expr, asg) {
      forall t: nat | t < Pow2(|a.boolIds|)
        ensures Meets(a.preComp, Single(t)) <==> Meets(a.preComp, Single(Reorder(a.boolIds, b.boolIds, n, t)))
      {
        var asg := Setting(none, a.boolIds, t, |a.boolIds|);
        assert TableAnswers(a, asg) && TableAnswers(b, asg);
        IndexOfSetting(none, a.boolIds, t);
        ReorderIndex(a.boolIds, b.boolIds, asg);
      }
    }
  }

  /**
     When short conditionals compare equal, they denote the same function exactly if their
     common table is invariant under the renumbering from one id order to the other; comparing
     the ids as sets does not establish that.
   */
  lemma EqualExactly(a: CondNode, b: CondNode, n: nat)
    requires TableOk(a, n) && TableOk(b, n) && ComparesEqual(a, b)
    ensures (forall asg: seq<bool> :: |asg| == n ==> Evaluate(a.expr, asg) == Evaluate(b.expr, asg)) <==> TableInvariant(b, a, n)
  {
    hide TableInvariant, Evaluate, IdsOf;
    TableAgreement(b, a, n);
  }

  /** A conditional on two booleans: the first recorded one without the second. */
  function FirstWithoutSecond(x: nat, y: nat): CondNode {
    CondNode(Undefined, [Push(x), Push(y), Negate, Combine(And)], [], [], [], [], 2, [x, y], 2)
  }

  lemma SecondBit(t: nat)
    requires t < 4
    ensures Meets(2, Single(t)) <==> t == 1
  {
    SingleMeets(1, t);
    assert Single(1) == 2;
  }

  lemma IndexPair(asg: seq<bool>, x: nat, y: nat)
    requires 0 < x <= |asg| && 0 < y <= |asg|
    ensures Index(asg, [x, y]) == (if asg[x - 1] then 1 else 0) + (if asg[y - 1] then 2 else 0)
  {
    var first, rest := [x, y], [y];
    assert first[1..] == rest && rest[1..] == [];
    assert Index(asg, []) == 0;
    assert Index(asg, rest) == (if asg[y - 1] then 1 else 0);
  }

  lemma FirstWithoutSecondValue(x: nat, y: nat, asg: seq<bool>)
    requires 0 < x <= |asg| && 0 < y <= |asg|
    ensures Evaluate(FirstWithoutSecond(x, y).expr, asg) == Defined(asg[x - 1] && !asg[y - 1])
  {
    var l, r := Leaf(x), Leaf(y);
    var u := Not(r);
    var t := Bin(And, l, u);
    assert Postfix(l) == [Push(x)] && Postfix(r) == [Push(y)];
    assert Postfix(u) == [Push(y), Negate];
    assert Postfix(t) == FirstWithoutSecond(x, y).expr;
    assert Need(l) == 1 && Need(r) == 1 && Value(r, asg) == asg[y - 1];
    assert Value(u, asg) == !asg[y - 1] && Need(u) == 1;
    EvaluatePostfix(t, asg);
  }

  lemma FirstWithoutSecondAnswers(x: nat, y: nat, asg: seq<bool>)
    requires |asg| == 2 && ((x == 1 && y == 2) || (x == 2 && y == 1))
    ensures InScope(FirstWithoutSecond(x, y).expr, 2) && TableAnswers(FirstWithoutSecond(x, y), asg)
  {
    FirstWithoutSecondValue(x, y, asg);
    IndexPair(asg, x, y);
    var t := Index(asg, [x, y]);
    assert Evaluate(FirstWithoutSecond(x, y).expr, asg) == Defined(t == 1);
    hide Index, Pow2, Evaluate, Meets, Single;
    SecondBit(t);
  }

  lemma FirstWithoutSecondShape(x: nat, y: nat)
    requires (x == 1 && y == 2) || (x == 2 && y == 1)
    ensures var cn := FirstWithoutSecond(x, y);
      && InScope(cn.expr, 2) && cn.nbools == |cn.boolIds| <= MAX_BOOLS && cn.boolIds == IdsOf(cn.expr)
      && forall i :: 0 <= i < |cn.boolIds| ==> 0 < cn.boolIds[i] <= 2
  {
    IdsOfPair(x, y);
    hide IdsOf;
  }

  lemma FirstWithoutSecondOk(x: nat, y: nat)
    requires (x == 1 && y == 2) || (x == 2 && y == 1)
    ensures TableOk(FirstWithoutSecond(x, y), 2)
  {
    hide *;
    FirstWithoutSecondShape(x, y);
    forall asg: seq<bool> | |asg| == 2 ensures TableAnswers(FirstWithoutSecond(x, y), asg) {
      FirstWithoutSecondAnswers(x, y, asg);
    }
    TableOkFrom(FirstWithoutSecond(x, y), 2);
  }

  lemma IdsOfPair(x: nat, y: nat)
    requires x != y
    ensures IdsOf([Push(x), Push(y), Negate, Combine(And)]) == [x, y]
  {
    var ops := [Push(x), Push(y), Negate, Combine(And)];
    assert ops[..3] == [Push(x), Push(y), Negate] && ops[..3][..2] == [Push(x), Push(y)];
    assert [Push(x), Push(y)][..1] == [Push(x)] && [Push(x)][..0] == [];
    assert IdsOf([Push(x)]) == [x];
    assert IdsOf([Push(x), Push(y)]) == [x, y];
    assert IdsOf(ops[..3]) == [x, y];
  }

  /** "b1 and not b2" compares equal to "b2 and not b1", yet they differ. */
  lemma EqualYetDifferent()
    ensures var a, b := FirstWithoutSecond(1, 2), FirstWithoutSecond(2, 1);
      && TableOk(a, 2) && TableOk(b, 2) && ComparesEqual(a, b)
      && Evaluate(a.expr, [true, false]) == Defined(true) && Evaluate(b.expr, [true, false]) == Defined(false)
  {
    hide TableOk, Evaluate;
    FirstWithoutSecondOk(1, 2);
    FirstWithoutSecondOk(2, 1);
    FirstWithoutSecondValue(1, 2, [true, false]);
    FirstWithoutSecondValue(2, 1, [true, false]);
  }
}
