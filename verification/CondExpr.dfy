/**
 Conditional expressions: reverse-polish programs over policy booleans, the bounded-stack
 evaluator of src/conditional.c, the load-time check of src/policydb_validate.c, and the
 expression trees they are measured against.
 */
module CondExpr {
  import opened Prelude

  const MAXDEPTH: nat := 10

  datatype BinOp = Or | And | Xor | Eq | Neq

  /** `Bad` stands for any operator code outside the known range. */
  datatype Op = Push(b: nat) | Negate | Combine(op: BinOp) | Bad

  datatype Tree = Leaf(b: nat) | Not(t: Tree) | Bin(op: BinOp, l: Tree, r: Tree)

  /** The evaluator's 1, 0 and -1. */
  datatype Outcome = Defined(value: bool) | Undefined

  function Apply(op: BinOp, x: bool, y: bool): bool {
    match op
    case Or => x || y
    case And => x && y
    case Xor => x != y
    case Eq => x == y
    case Neq => x != y
  }

  /** Booleans are numbered from 1 in expressions. */
  predicate InScope(ops: seq<Op>, n: nat) {
    forall i :: 0 <= i < |ops| && ops[i].Push? ==> 0 < ops[i].b <= n
  }

  function Postfix(t: Tree): (ops: seq<Op>)
    ensures |ops| > 0
  {
    match t
    case Leaf(b) => [Push(b)]
    case Not(u) => Postfix(u) + [Negate]
    case Bin(op, l, r) => Postfix(l) + Postfix(r) + [Combine(op)]
  }

  predicate TreeInScope(t: Tree, n: nat) {
    match t
    case Leaf(b) => 0 < b <= n
    case Not(u) => TreeInScope(u, n)
    case Bin(_, l, r) => TreeInScope(l, n) && TreeInScope(r, n)
  }

  function Value(t: Tree, bools: seq<bool>): bool
    requires TreeInScope(t, |bools|)
  {
    match t
    case Leaf(b) => bools[b - 1]
    case Not(u) => !Value(u, bools)
    case Bin(op, l, r) => Apply(op, Value(l, bools), Value(r, bools))
  }

  /** Stack slots the evaluation of a tree occupies at its peak. */
  function Need(t: Tree): (n: nat)
    ensures n > 0
  {
    match t
    case Leaf(_) => 1
    case Not(u) => Need(u)
    case Bin(_, l, r) => if Need(l) > 1 + Need(r) then Need(l) else 1 + Need(r)
  }

  /** One instruction on a stack of values; None is the evaluator's early -1. */
  function Step(op: Op, stack: seq<bool>, bools: seq<bool>): (r: Option<seq<bool>>)
    requires op.Push? ==> 0 < op.b <= |bools|
    requires |stack| <= MAXDEPTH
    ensures r.Some? ==> 0 < |r.value| <= 10
  {
    var n := |stack|;
    match op
    case Push(b) => if n == MAXDEPTH then None else Some(stack + [bools[b - 1]])
    case Negate => if n < 1 then None else Some(stack[..n - 1] + [!stack[n - 1]])
    case Combine(o) =>
      if n < 2 then None else Some(stack[..n - 2] + [Apply(o, stack[n - 2], stack[n - 1])])
    case Bad => None
  }

  function Run(ops: seq<Op>, stack: seq<bool>, bools: seq<bool>): (r: Option<seq<bool>>)
    requires InScope(ops, |bools|) && |stack| <= MAXDEPTH
    ensures r.Some? && (|ops| > 0 || |stack| > 0) ==> |r.value| > 0
  {
    if ops == [] then Some(stack)
    else
      var s := Step(ops[0], stack, bools);
      if s.None? then None else Run(ops[1..], s.value, bools)
  }

  function Evaluate(ops: seq<Op>, bools: seq<bool>): Outcome
    requires InScope(ops, |bools|)
  {
    var r := Run(ops, [], bools);
    if r.None? || ops == [] then Undefined else Defined(r.value[0])
  }

  /** One turn of the loop below: the rest of the program runs from the stack one instruction leaves. */
  lemma RunFrom(ops: seq<Op>, i: nat, stack: seq<bool>, bools: seq<bool>)
    requires InScope(ops, |bools|) && i < |ops| && |stack| <= MAXDEPTH
    ensures InScope(ops[i..], |bools|) && InScope(ops[i + 1..], |bools|) && (ops[i].Push? ==> 0 < ops[i].b <= |bools|)
    ensures Run(ops[i..], stack, bools) ==
      (var r := Step(ops[i], stack, bools); if r.None? then None else Run(ops[i + 1..], r.value, bools))
  {
    hide Step;
    assert ops[i..][1..] == ops[i + 1..] && ops[i..][0] == ops[i];
  }

  lemma RunEnds(ops: seq<Op>, stack: seq<bool>, bools: seq<bool>)
    requires InScope(ops, |bools|) && |stack| <= MAXDEPTH
    ensures ops[0..] == ops && ops[|ops|..] == [] && InScope([], |bools|) && Run([], stack, bools) == Some(stack)
    ensures ops == [] || Run(ops, [], bools).None? ==> Evaluate(ops, bools) == Undefined
    ensures ops != [] && stack != [] && Run(ops, [], bools) == Some(stack) ==> Evaluate(ops, bools) == Defined(stack[0])
  {
  }

  /** The stack machine of cond_evaluate_expr; slot 0 starts out undefined. */
  method CondEvaluateExpr(ops: seq<Op>, bools: seq<bool>) returns (r: Outcome)
    requires InScope(ops, |bools|)
    ensures r == Evaluate(ops, bools)
  {
    hide Run, InScope, Evaluate, Apply;
    var s := new bool[MAXDEPTH];
    var sp := -1;
    RunEnds(ops, [], bools);
    for i := 0 to |ops|
      invariant -1 <= sp < MAXDEPTH
      invariant i > 0 ==> sp >= 0
      invariant InScope(ops[i..], |bools|)
      invariant Run(ops, [], bools) == Run(ops[i..], s[..sp + 1], bools)
    {
      ghost var before := s[..sp + 1];
      RunFrom(ops, i, before, bools);
      match ops[i] {
        case Push(b) =>
          if sp == MAXDEPTH - 1 { return Undefined; }
          sp := sp + 1;
          s[sp] := bools[b - 1];
        case Negate =>
          if sp < 0 { return Undefined; }
          s[sp] := !s[sp];
        case Combine(op) =>
          if sp < 1 { return Undefined; }
          sp := sp - 1;
          s[sp] := Apply(op, s[sp], s[sp + 1]);
        case Bad =>
          return Undefined;
      }
      assert s[..sp + 1] == Step(ops[i], before, bools).value;
    }
    if sp < 0 { return Undefined; }
    RunEnds(ops, s[..sp + 1], bools);
    r := Defined(s[0]);
  }

  /** The same machine on trees: what a program builds, with no depth bound. */
  function BuildStep(op: Op, stack: seq<Tree>): Option<seq<Tree>> {
    var n := |stack|;
    match op
    case Push(b) => Some(stack + [Leaf(b)])
    case Negate => if n < 1 then None else Some(stack[..n - 1] + [Not(stack[n - 1])])
    case Combine(o) => if n < 2 then None else Some(stack[..n - 2] + [Bin(o, stack[n - 2], stack[n - 1])])
    case Bad => None
  }

  function Build(ops: seq<Op>, stack: seq<Tree>): Option<seq<Tree>> {
    if ops == [] then Some(stack)
    else
      var s := BuildStep(ops[0], stack);
      if s.None? then None else Build(ops[1..], s.value)
  }

  lemma {:induction false} BuildPostfix(t: Tree, rest: seq<Op>, stack: seq<Tree>)
    ensures Build(Postfix(t) + rest, stack) == Build(rest, stack + [t])
    decreases t
  {
    match t
    case Leaf(b) =>
      assert (Postfix(t) + rest)[1..] == rest;
    case Not(u) =>
      assert Postfix(t) + rest == Postfix(u) + ([Negate] + rest);
      BuildPostfix(u, [Negate] + rest, stack);
      assert ([Negate] + rest)[1..] == rest;
      assert (stack + [u])[..|stack|] == stack;
    case Bin(op, l, r) =>
      assert Postfix(t) + rest == Postfix(l) + (Postfix(r) + ([Combine(op)] + rest));
      BuildPostfix(l, Postfix(r) + ([Combine(op)] + rest), stack);
      BuildPostfix(r, [Combine(op)] + rest, stack + [l]);
      assert ([Combine(op)] + rest)[1..] == rest;
      assert (stack + [l] + [r])[..|stack|] == stack;
  }

  function Flatten(stack: seq<Tree>): seq<Op> {
    if stack == [] then [] else Flatten(stack[..|stack| - 1]) + Postfix(stack[|stack| - 1])
  }

  lemma FlattenPush(stack: seq<Tree>, t: Tree)
    ensures Flatten(stack + [t]) == Flatten(stack) + Postfix(t)
  {
    assert (stack + [t])[..|stack|] == stack;
  }

  /** One instruction appends itself to the program its stack stands for. */
  lemma BuildStepFlatten(op: Op, stack: seq<Tree>)
    ensures BuildStep(op, stack).Some? ==> Flatten(BuildStep(op, stack).value) == Flatten(stack) + [op]
  {
    hide Flatten;
    var n := |stack|;
    match op
    case Push(b) => FlattenPush(stack, Leaf(b));
    case Negate =>
      if n >= 1 {
        var s := stack[..n - 1];
        FlattenPush(s, Not(stack[n - 1]));
        FlattenPush(s, stack[n - 1]);
        assert s + [stack[n - 1]] == stack;
      }
    case Combine(o) =>
      if n >= 2 {
        var s, l, r := stack[..n - 2], stack[n - 2], stack[n - 1];
        FlattenPush(s, Bin(o, l, r));
        FlattenPush(s, l);
        FlattenPush(s + [l], r);
        assert s + [l] + [r] == stack;
      }
    case Bad =>
  }

  lemma {:induction false} BuildFlatten(ops: seq<Op>, stack: seq<Tree>)
    ensures Build(ops, stack).Some? ==> Flatten(stack) + ops == Flatten(Build(ops, stack).value)
    decreases |ops|
  {
    hide Flatten, BuildStep;
    if ops == [] {
      assert Flatten(stack) + ops == Flatten(stack);
    } else {
      var s := BuildStep(ops[0], stack);
      if s.Some? {
        BuildStepFlatten(ops[0], stack);
        BuildFlatten(ops[1..], s.value);
        assert Flatten(stack) + ops == Flatten(stack) + [ops[0]] + ops[1..];
      }
    }
  }

  /** A program leaves the single tree `t` exactly when it is the tree's postfix form. */
  lemma {:induction false} BuildsExactly(ops: seq<Op>, t: Tree)
    ensures Build(ops, []) == Some([t]) <==> ops == Postfix(t)
  {
    BuildFlatten(ops, []);
    BuildPostfix(t, [], []);
    assert Postfix(t) + [] == Postfix(t);
    assert Flatten([t]) == Postfix(t) by { assert [t][..0] == []; }
  }

  lemma {:induction false} PostfixInScope(t: Tree, n: nat)
    ensures InScope(Postfix(t), n) <==> TreeInScope(t, n)
  {
    match t
    case Leaf(b) => assert Postfix(t)[0] == Push(b);
    case Not(u) =>
      PostfixInScope(u, n);
      assert forall i :: 0 <= i < |Postfix(u)| ==> Postfix(t)[i] == Postfix(u)[i];
    case Bin(op, l, r) =>
      PostfixInScope(l, n);
      PostfixInScope(r, n);
      assert forall i :: 0 <= i < |Postfix(l)| ==> Postfix(t)[i] == Postfix(l)[i];
      assert forall i :: 0 <= i < |Postfix(r)| ==> Postfix(t)[|Postfix(l)| + i] == Postfix(r)[i];
  }

  lemma InScopeParts(a: seq<Op>, b: seq<Op>, n: nat)
    ensures InScope(a + b, n) <==> InScope(a, n) && InScope(b, n)
  {
    assert forall i :: 0 <= i < |a| ==> (a + b)[i] == a[i];
    assert forall i :: 0 <= i < |b| ==> (a + b)[|a| + i] == b[i];
  }

  lemma RunCons(op: Op, rest: seq<Op>, stack: seq<bool>, bools: seq<bool>)
    requires InScope([op] + rest, |bools|) && |stack| <= MAXDEPTH
    ensures InScope(rest, |bools|) && (op.Push? ==> 0 < op.b <= |bools|)
    ensures Run([op] + rest, stack, bools) ==
      (var s := Step(op, stack, bools); if s.None? then None else Run(rest, s.value, bools))
  {
    assert ([op] + rest)[0] == op && ([op] + rest)[1..] == rest;
    InScopeParts([op], rest, |bools|);
  }

  lemma {:induction false} RunPostfix(t: Tree, rest: seq<Op>, stack: seq<bool>, bools: seq<bool>)
    requires TreeInScope(t, |bools|) && InScope(Postfix(t) + rest, |bools|) && |stack| <= MAXDEPTH
    ensures InScope(rest, |bools|)
    ensures |stack| + Need(t) <= 10 ==>
      Run(Postfix(t) + rest, stack, bools) == Run(rest, stack + [Value(t, bools)], bools)
    ensures |stack| + Need(t) > 10 ==> Run(Postfix(t) + rest, stack, bools) == None
    decreases t
  {
    hide Run, InScope;
    InScopeParts(Postfix(t), rest, |bools|);
    match t
    case Leaf(b) =>
      RunCons(Push(b), rest, stack, bools);
    case Not(u) =>
      var tail := [Negate] + rest;
      assert Postfix(t) + rest == Postfix(u) + tail;
      RunPostfix(u, tail, stack, bools);
      if |stack| + Need(u) <= MAXDEPTH {
        var s := stack + [Value(u, bools)];
        RunCons(Negate, rest, s, bools);
        assert s[..|stack|] == stack;
      }
    case Bin(op, l, r) =>
      var tail := [Combine(op)] + rest;
      assert Postfix(t) + rest == Postfix(l) + (Postfix(r) + tail);
      RunPostfix(l, Postfix(r) + tail, stack, bools);
      if |stack| + Need(l) <= MAXDEPTH {
        var s := stack + [Value(l, bools)];
        RunPostfix(r, tail, s, bools);
        if |s| + Need(r) <= MAXDEPTH {
          RunCons(Combine(op), rest, s + [Value(r, bools)], bools);
          assert (s + [Value(r, bools)])[..|stack|] == stack;
        }
      }
  }

  /**
   On the postfix form of a tree the evaluator returns the tree's value, and gives up
   exactly when the tree needs more stack than there is.
   */
  lemma {:induction false} EvaluatePostfix(t: Tree, bools: seq<bool>)
    requires TreeInScope(t, |bools|)
    ensures InScope(Postfix(t), |bools|)
    ensures Evaluate(Postfix(t), bools) == if Need(t) <= 10 then Defined(Value(t, bools)) else Undefined
  {
    PostfixInScope(t, |bools|);
    assert Postfix(t) + [] == Postfix(t);
    RunPostfix(t, [], [], bools);
  }

  /** A subexpression and what follows it are in scope together. */
  lemma TreesInScope(l: Tree, r: Tree, last: Op, n: nat)
    requires TreeInScope(l, n) && TreeInScope(r, n) && !last.Push?
    ensures InScope(Postfix(l) + [last], n) && InScope(Postfix(l) + Postfix(r) + [last], n)
  {
    PostfixInScope(l, n);
    PostfixInScope(r, n);
    InScopeParts(Postfix(l), Postfix(r), n);
    InScopeParts(Postfix(l) + Postfix(r), [last], n);
    InScopeParts(Postfix(l), [last], n);
  }

  /**
   What the operators mean: on two subexpressions that are defined, the second with a slot to
   spare, an OR is true exactly when one of them is, an AND when both are, an XOR or a NEQ when
   they differ and an EQ when they agree.
   */
  lemma {:induction false} OperatorsEvaluate(op: BinOp, l: Tree, r: Tree, bools: seq<bool>)
    requires TreeInScope(l, |bools|) && TreeInScope(r, |bools|)
    requires Need(l) <= 10 && Need(r) <= 9
    ensures InScope(Postfix(l), |bools|) && InScope(Postfix(r), |bools|)
    ensures InScope(Postfix(l) + Postfix(r) + [Combine(op)], |bools|)
    ensures var x, y, z := Evaluate(Postfix(l), bools), Evaluate(Postfix(r), bools),
        Evaluate(Postfix(l) + Postfix(r) + [Combine(op)], bools);
      && x.Defined? && y.Defined? && z.Defined?
      && (op == Or ==> (z.value <==> x.value || y.value))
      && (op == And ==> (z.value <==> x.value && y.value))
      && (op == Xor ==> (z.value <==> x.value != y.value))
      && (op == Neq ==> (z.value <==> x.value != y.value))
      && (op == Eq ==> (z.value <==> x.value == y.value))
  {
    TreesInScope(l, r, Combine(op), |bools|);
    EvaluatePostfix(l, bools);
    EvaluatePostfix(r, bools);
    EvaluatePostfix(Bin(op, l, r), bools);
  }

  /** A NOT is true exactly when its operand is false, and undefined when that is. */
  lemma {:induction false} NotEvaluates(u: Tree, bools: seq<bool>)
    requires TreeInScope(u, |bools|)
    ensures InScope(Postfix(u), |bools|) && InScope(Postfix(u) + [Negate], |bools|)
    ensures Evaluate(Postfix(u) + [Negate], bools) == Defined(true) <==> Evaluate(Postfix(u), bools) == Defined(false)
    ensures Evaluate(Postfix(u) + [Negate], bools) == Undefined <==> Evaluate(Postfix(u), bools) == Undefined
  {
    TreesInScope(u, u, Negate, |bools|);
    EvaluatePostfix(u, bools);
    EvaluatePostfix(Not(u), bools);
  }

  /** A single boolean evaluates to its state. */
  lemma BooleanEvaluates(b: nat, bools: seq<bool>)
    requires 0 < b <= |bools|
    ensures InScope([Push(b)], |bools|) && Evaluate([Push(b)], bools) == Defined(bools[b - 1])
  {
    assert Postfix(Leaf(b)) == [Push(b)];
    EvaluatePostfix(Leaf(b), bools);
  }

  /** n booleans pushed on a stack that has room for them. */
  lemma {:induction false} RunPushes(ops: seq<Op>, stack: seq<bool>, bools: seq<bool>)
    requires InScope(ops, |bools|) && |stack| <= MAXDEPTH
    requires forall i :: 0 <= i < |ops| ==> ops[i].Push?
    ensures Run(ops, stack, bools).Some? <==> |stack| + |ops| <= 10
    ensures Run(ops, stack, bools).Some? ==> stack <= Run(ops, stack, bools).value
    decreases |ops|
  {
    if ops != [] && |stack| < MAXDEPTH {
      assert InScope(ops[1..], |bools|);
      RunPushes(ops[1..], stack + [bools[ops[0].b - 1]], bools);
    }
  }

  /** Booleans alone: up to ten fit and the first decides, the eleventh makes the whole undefined. */
  lemma {:induction false} PushesEvaluate(ops: seq<Op>, bools: seq<bool>)
    requires InScope(ops, |bools|) && ops != []
    requires forall i :: 0 <= i < |ops| ==> ops[i].Push?
    ensures Evaluate(ops, bools) == if |ops| <= 10 then Defined(bools[ops[0].b - 1]) else Undefined
  {
    assert InScope(ops[1..], |bools|);
    RunPushes(ops[1..], [bools[ops[0].b - 1]], bools);
    assert [] + [bools[ops[0].b - 1]] == [bools[ops[0].b - 1]];
  }

  /** The depth count of validate_cond_expr, as a check with depth `d + 1` slots in use. */
  method ValidateCondExpr(ops: seq<Op>, nbools: nat) returns (ok: bool)
    ensures ok <==> InScope(ops, nbools) && exists t :: ops == Postfix(t) && Need(t) <= 10
  {
    if ops == [] {
      return false;
    }
    var depth := -1;
    for i := 0 to |ops|
      invariant -1 <= depth < MAXDEPTH
      invariant InScope(ops[..i], nbools)
      invariant Depth(ops, 0) == Depth(ops[i..], depth + 1)
    {
      assert ops[i..][1..] == ops[i + 1..];
      match ops[i]
      case Push(b) =>
        if b == 0 || b > nbools { return false; }
        if depth >= MAXDEPTH - 1 { DepthCharacterizes(ops); return false; }
        depth := depth + 1;
      case Negate =>
        if depth < 0 { DepthCharacterizes(ops); return false; }
      case Combine(_) =>
        if depth < 1 { DepthCharacterizes(ops); return false; }
        depth := depth - 1;
      case Bad =>
        DepthCharacterizes(ops);
        return false;
    }
    DepthCharacterizes(ops);
    assert ops[..|ops|] == ops;
    ok := depth == 0;
  }

  /** Slots in use after a program started with `d` of them, None when it leaves the bounds. */
  function Depth(ops: seq<Op>, d: nat): Option<nat> {
    if ops == [] then Some(d)
    else
      match ops[0]
      case Push(_) => if d >= MAXDEPTH then None else Depth(ops[1..], d + 1)
      case Negate => if d < 1 then None else Depth(ops[1..], d)
      case Combine(_) => if d < 2 then None else Depth(ops[1..], d - 1)
      case Bad => None
  }

  lemma {:induction false} DepthPostfix(t: Tree, rest: seq<Op>, d: nat)
    requires d <= MAXDEPTH
    ensures Depth(Postfix(t) + rest, d) == if d + Need(t) <= 10 then Depth(rest, d + 1) else None
    decreases t
  {
    match t
    case Leaf(b) => assert (Postfix(t) + rest)[1..] == rest;
    case Not(u) =>
      assert Postfix(t) + rest == Postfix(u) + ([Negate] + rest);
      DepthPostfix(u, [Negate] + rest, d);
      assert ([Negate] + rest)[1..] == rest;
    case Bin(op, l, r) =>
      var tail := [Combine(op)] + rest;
      assert Postfix(t) + rest == Postfix(l) + (Postfix(r) + tail);
      DepthPostfix(l, Postfix(r) + tail, d);
      if d + Need(l) <= MAXDEPTH { DepthPostfix(r, tail, d + 1); }
      assert tail[1..] == rest;
  }

  lemma {:induction false} DepthBuilds(ops: seq<Op>, stack: seq<Tree>)
    requires Depth(ops, |stack|).Some?
    ensures Build(ops, stack).Some? && |Build(ops, stack).value| == Depth(ops, |stack|).value
    decreases |ops|
  {
    if ops != [] {
      var n := |stack|;
      match ops[0]
      case Push(b) => DepthBuilds(ops[1..], stack + [Leaf(b)]);
      case Negate => DepthBuilds(ops[1..], stack[..n - 1] + [Not(stack[n - 1])]);
      case Combine(o) => DepthBuilds(ops[1..], stack[..n - 2] + [Bin(o, stack[n - 2], stack[n - 1])]);
    }
  }

  lemma DepthCharacterizes(ops: seq<Op>)
    ensures Depth(ops, 0) == Some(1) <==> exists t :: ops == Postfix(t) && Need(t) <= 10
  {
    if Depth(ops, 0) == Some(1) {
      DepthBuilds(ops, []);
      var t := Build(ops, []).value[0];
      assert Build(ops, []).value == [t];
      BuildsExactly(ops, t);
      DepthPostfix(t, [], 0);
      assert Postfix(t) + [] == ops;
    }
    forall t | ops == Postfix(t) && Need(t) <= MAXDEPTH ensures Depth(ops, 0) == Some(1) {
      DepthPostfix(t, [], 0);
      assert Postfix(t) + [] == ops;
    }
  }
}
