/**
 Printing a conditional expression in infix form (src/kernel_to_conf.c) and the
 recursive-descent reader that recovers it.
 */
module CondPrint {
  import opened Prelude
  import opened CondExpr

  function Symbol(op: BinOp): string {
    match op
    case Or => "||"
    case And => "&&"
    case Xor => "^"
    case Eq => "=="
    case Neq => "!="
  }

  /** What a tree looks like in policy.conf. */
  function Infix(t: Tree, names: seq<string>): string
    requires TreeInScope(t, |names|)
  {
    match t
    case Leaf(b) => names[b - 1]
    case Not(u) => "! " + Infix(u, names)
    case Bin(op, l, r) => "(" + Infix(l, names) + " " + Symbol(op) + " " + Infix(r, names) + ")"
  }

  ghost predicate Rendered(strs: seq<string>, trees: seq<Tree>, names: seq<string>) {
    && |strs| == |trees|
    && forall i :: 0 <= i < |strs| ==> TreeInScope(trees[i], |names|) && strs[i] == Infix(trees[i], names)
  }

  lemma RenderedPush(strs: seq<string>, trees: seq<Tree>, k: nat, t: Tree, names: seq<string>)
    requires Rendered(strs, trees, names) && k <= |strs| && TreeInScope(t, |names|)
    ensures Rendered(strs[..k] + [Infix(t, names)], trees[..k] + [t], names)
  {
  }

  /** One operator on the string stack. */
  method PrintStep(op: Op, stack: seq<string>, ghost trees: seq<Tree>, names: seq<string>)
    returns (str: Option<seq<string>>)
    requires Rendered(stack, trees, names) && InScope([op], |names|)
    ensures str.Some? <==> BuildStep(op, trees).Some?
    ensures str.Some? ==> Rendered(str.value, BuildStep(op, trees).value, names)
  {
    var n := |stack|;
    match op
    case Push(b) =>
      assert [op][0].Push?;
      RenderedPush(stack, trees, n, Leaf(b), names);
      assert stack[..n] == stack && trees[..n] == trees;
      str := Some(stack + [names[b - 1]]);
    case Negate =>
      if n < 1 { return None; }
      RenderedPush(stack, trees, n - 1, Not(trees[n - 1]), names);
      str := Some(stack[..n - 1] + ["! " + stack[n - 1]]);
    case Combine(o) =>
      if n < 2 { return None; }
      RenderedPush(stack, trees, n - 2, Bin(o, trees[n - 2], trees[n - 1]), names);
      str := Some(stack[..n - 2] + ["(" + stack[n - 2] + " " + Symbol(o) + " " + stack[n - 1] + ")"]);
    case Bad =>
      str := None;
  }

  lemma Joined(x: string, symbol: string, y: string, text: string)
    requires " " + symbol + " " == text
    ensures "(" + x + " " + symbol + " " + y + ")" == "(" + x + text + y + ")"
  {
    calc {
      "(" + x + " " + symbol + " " + y + ")";
      (("(" + x) + (" " + symbol + " ")) + y + ")";
    }
  }

  lemma SymbolTexts(op: BinOp)
    ensures op == Or ==> " " + Symbol(op) + " " == " || "
    ensures op == And ==> " " + Symbol(op) + " " == " && "
    ensures op == Xor ==> " " + Symbol(op) + " " == " ^ "
    ensures op == Eq ==> " " + Symbol(op) + " " == " == "
    ensures op == Neq ==> " " + Symbol(op) + " " == " != "
  {
  }

  lemma InfixParts(op: BinOp, l: Tree, r: Tree, names: seq<string>)
    requires TreeInScope(l, |names|) && TreeInScope(r, |names|)
    ensures TreeInScope(Bin(op, l, r), |names|) && TreeInScope(Not(l), |names|)
    ensures Infix(Not(l), names) == "! " + Infix(l, names)
    ensures Infix(Bin(op, l, r), names) == "(" + Infix(l, names) + (" " + Symbol(op) + " ") + Infix(r, names) + ")"
    ensures op == Or ==> " " + Symbol(op) + " " == " || "
    ensures op == And ==> " " + Symbol(op) + " " == " && "
    ensures op == Xor ==> " " + Symbol(op) + " " == " ^ "
    ensures op == Eq ==> " " + Symbol(op) + " " == " == "
    ensures op == Neq ==> " " + Symbol(op) + " " == " != "
  {
    hide Symbol;
    SymbolTexts(op);
    Joined(Infix(l, names), Symbol(op), Infix(r, names), " " + Symbol(op) + " ");
  }

  /** The text of a compound expression: its operands' texts around the operator of policy.conf. */
  lemma OperatorTexts(l: Tree, r: Tree, names: seq<string>)
    requires TreeInScope(l, |names|) && TreeInScope(r, |names|)
    ensures Infix(Not(l), names) == "! " + Infix(l, names)
    ensures Infix(Bin(Or, l, r), names) == "(" + Infix(l, names) + " || " + Infix(r, names) + ")"
    ensures Infix(Bin(And, l, r), names) == "(" + Infix(l, names) + " && " + Infix(r, names) + ")"
    ensures Infix(Bin(Xor, l, r), names) == "(" + Infix(l, names) + " ^ " + Infix(r, names) + ")"
    ensures Infix(Bin(Eq, l, r), names) == "(" + Infix(l, names) + " == " + Infix(r, names) + ")"
    ensures Infix(Bin(Neq, l, r), names) == "(" + Infix(l, names) + " != " + Infix(r, names) + ")"
  {
    hide *;
    InfixParts(Or, l, r, names);
    InfixParts(And, l, r, names);
    InfixParts(Xor, l, r, names);
    InfixParts(Eq, l, r, names);
    InfixParts(Neq, l, r, names);
  }

  /** A program of `n` symbols: one boolean, one boolean and an operator, two booleans and an operator. */
  predicate OnBooleans(ops: seq<Op>, n: nat) {
    && |ops| == n && 0 < n <= 3 && ops[0].Push?
    && (n == 3 ==> ops[1].Push?)
  }

  lemma BooleansPrint(ops: seq<Op>, names: seq<string>) returns (t: Tree)
    requires InScope(ops, |names|) && (OnBooleans(ops, 1) || OnBooleans(ops, 2) || OnBooleans(ops, 3))
    requires |ops| == 2 ==> ops[1] == Negate
    requires |ops| == 3 ==> ops[2].Combine?
    ensures ops == Postfix(t) && TreeInScope(t, |names|)
    ensures |ops| == 1 ==> Infix(t, names) == names[ops[0].b - 1]
    ensures |ops| == 2 ==> Infix(t, names) == "! " + names[ops[0].b - 1]
    ensures |ops| == 3 ==> (var symbol := ops[2].op; var x, y := names[ops[0].b - 1], names[ops[1].b - 1];
      && (symbol == Or ==> Infix(t, names) == "(" + x + " || " + y + ")")
      && (symbol == And ==> Infix(t, names) == "(" + x + " && " + y + ")")
      && (symbol == Xor ==> Infix(t, names) == "(" + x + " ^ " + y + ")")
      && (symbol == Eq ==> Infix(t, names) == "(" + x + " == " + y + ")")
      && (symbol == Neq ==> Infix(t, names) == "(" + x + " != " + y + ")"))
  {
    hide Symbol;
    var l := Leaf(ops[0].b);
    if |ops| == 1 {
      t := l;
    } else if |ops| == 2 {
      t := Not(l);
    } else {
      var r := Leaf(ops[1].b);
      t := Bin(ops[2].op, l, r);
      assert Postfix(l) + Postfix(r) + [Combine(ops[2].op)] == ops;
      OperatorTexts(l, r, names);
    }
  }

  /** The string-stack program; None is the NULL it returns on a malformed expression. */
  method CondExprToStr(ops: seq<Op>, names: seq<string>) returns (str: Option<string>)
    requires InScope(ops, |names|)
    ensures str.Some? <==> exists t :: ops == Postfix(t)
    ensures forall t :: ops == Postfix(t) ==> TreeInScope(t, |names|) && str == Some(Infix(t, names))
    ensures OnBooleans(ops, 1) ==> str == Some(names[ops[0].b - 1])
    ensures OnBooleans(ops, 2) && ops[1] == Negate ==> str == Some("! " + names[ops[0].b - 1])
    ensures OnBooleans(ops, 3) && ops[2] == Combine(Or) ==>
      str == Some("(" + names[ops[0].b - 1] + " || " + names[ops[1].b - 1] + ")")
    ensures OnBooleans(ops, 3) && ops[2] == Combine(And) ==>
      str == Some("(" + names[ops[0].b - 1] + " && " + names[ops[1].b - 1] + ")")
    ensures OnBooleans(ops, 3) && ops[2] == Combine(Xor) ==>
      str == Some("(" + names[ops[0].b - 1] + " ^ " + names[ops[1].b - 1] + ")")
    ensures OnBooleans(ops, 3) && ops[2] == Combine(Eq) ==>
      str == Some("(" + names[ops[0].b - 1] + " == " + names[ops[1].b - 1] + ")")
    ensures OnBooleans(ops, 3) && ops[2] == Combine(Neq) ==>
      str == Some("(" + names[ops[0].b - 1] + " != " + names[ops[1].b - 1] + ")")
  {
    BuildDecides(ops);
    if (OnBooleans(ops, 1) || (OnBooleans(ops, 2) && ops[1] == Negate) || (OnBooleans(ops, 3) && ops[2].Combine?)) {
      var t := BooleansPrint(ops, names);
    }
    forall t | ops == Postfix(t) ensures TreeInScope(t, |names|) { PostfixInScope(t, |names|); }
    var stack: seq<string> := [];
    ghost var trees: seq<Tree> := [];
    for i := 0 to |ops|
      invariant Rendered(stack, trees, names)
      invariant Build(ops, []) == Build(ops[i..], trees)
    {
      hide BuildStep, Rendered;
      assert ops[i..][1..] == ops[i + 1..];
      var next := PrintStep(ops[i], stack, trees, names);
      if next.None? { return None; }
      stack := next.value;
      trees := BuildStep(ops[i], trees).value;
    }
    if |stack| != 1 { return None; }
    assert trees == [trees[0]];
    BuildsExactly(ops, trees[0]);
    str := Some(stack[0]);
  }

  lemma BuildDecides(ops: seq<Op>)
    ensures (exists t :: ops == Postfix(t)) <==> Build(ops, []).Some? && |Build(ops, []).value| == 1
    ensures forall t :: ops == Postfix(t) ==> Build(ops, []) == Some([t])
  {
    forall t | ops == Postfix(t) ensures Build(ops, []) == Some([t]) { BuildsExactly(ops, t); }
    if Build(ops, []).Some? && |Build(ops, []).value| == 1 {
      var t := Build(ops, []).value[0];
      assert Build(ops, []).value == [t];
      BuildsExactly(ops, t);
    }
  }

  predicate Delimiter(c: char) {
    c in {' ', '(', ')', '!'}
  }

  predicate GoodName(name: string) {
    name != "" && forall i :: 0 <= i < |name| ==> !Delimiter(name[i])
  }

  /** Boolean names are distinct and contain none of the grammar's delimiters. */
  ghost predicate GoodNames(names: seq<string>) {
    && (forall i :: 0 <= i < |names| ==> GoodName(names[i]))
    && forall i, j :: 0 <= i < j < |names| ==> names[i] != names[j]
  }

  /** Length of the longest delimiter-free prefix. */
  function NameLength(s: string): (n: nat)
    ensures n <= |s|
  {
    if s == "" || Delimiter(s[0]) then 0 else 1 + NameLength(s[1..])
  }

  /** The number of the boolean called `name`, 0 when there is none. */
  function Lookup(names: seq<string>, name: string): (b: nat)
    ensures b <= |names|
    ensures b > 0 ==> names[b - 1] == name
  {
    if names == [] then 0
    else if names[|names| - 1] == name then |names|
    else Lookup(names[..|names| - 1], name)
  }

  function ReadSymbol(s: string): Option<(BinOp, string)> {
    if |s| >= 4 && s[..4] == " || " then Some((Or, s[4..]))
    else if |s| >= 4 && s[..4] == " && " then Some((And, s[4..]))
    else if |s| >= 3 && s[..3] == " ^ " then Some((Xor, s[3..]))
    else if |s| >= 4 && s[..4] == " == " then Some((Eq, s[4..]))
    else if |s| >= 4 && s[..4] == " != " then Some((Neq, s[4..]))
    else None
  }

  /** Reads one expression and returns it with the unread rest. */
  function Read(s: string, names: seq<string>): (r: Option<(Tree, string)>)
    ensures r.Some? ==> |r.value.1| < |s|
    decreases |s|
  {
    if s == "" then None
    else if s[0] == '(' then
      var l := Read(s[1..], names);
      if l.None? then None else
      var op := ReadSymbol(l.value.1);
      if op.None? then None else
      var r := Read(op.value.1, names);
      if r.None? || r.value.1 == "" || r.value.1[0] != ')' then None
      else Some((Bin(op.value.0, l.value.0, r.value.0), r.value.1[1..]))
    else if |s| >= 2 && s[..2] == "! " then
      var u := Read(s[2..], names);
      if u.None? then None else Some((Not(u.value.0), u.value.1))
    else
      var n := NameLength(s);
      var b := Lookup(names, s[..n]);
      if n == 0 || b == 0 then None else Some((Leaf(b), s[n..]))
  }

  lemma {:induction false} NameLengthOf(name: string, rest: string)
    requires forall i :: 0 <= i < |name| ==> !Delimiter(name[i])
    requires rest == "" || Delimiter(rest[0])
    ensures NameLength(name + rest) == |name|
  {
    if name == "" {
      assert name + rest == rest;
    } else {
      assert (name + rest)[1..] == name[1..] + rest;
      NameLengthOf(name[1..], rest);
    }
  }

  lemma {:induction false} LookupOf(names: seq<string>, b: nat)
    requires GoodNames(names) && 0 < b <= |names|
    ensures Lookup(names, names[b - 1]) == b
  {
    if b < |names| {
      assert names[..|names| - 1][b - 1] == names[b - 1];
      LookupOf(names[..|names| - 1], b);
    }
  }

  lemma ReadSymbolOf(op: BinOp, rest: string)
    ensures ReadSymbol(" " + Symbol(op) + " " + rest) == Some((op, rest))
  {
    var s := " " + Symbol(op) + " " + rest;
    var k := |Symbol(op)| + 2;
    assert s[..k] == " " + Symbol(op) + " ";
    assert s[k..] == rest;
    match op
    case Or => assert s[..4] == " || ";
    case And => assert s[..4] == " && ";
    case Xor => assert s[..3] == " ^ "; assert s[2] == ' '; if |s| >= 4 { assert s[..4][2] == ' '; }
    case Eq => assert s[..4] == " == "; assert s[..3][1] == '=';
    case Neq => assert s[..4] == " != "; assert s[..3][1] == '!';
  }

  lemma ReadName(s: string, names: seq<string>, b: nat, rest: string)
    requires GoodNames(names) && 0 < b <= |names| && s == names[b - 1] + rest
    requires rest == "" || Delimiter(rest[0])
    ensures Read(s, names) == Some((Leaf(b), rest))
  {
    var name := names[b - 1];
    NameLengthOf(name, rest);
    LookupOf(names, b);
    assert s[0] == name[0] && !Delimiter(name[0]);
    assert s[..|name|] == name && s[|name|..] == rest;
  }

  lemma ReadNegated(s: string, names: seq<string>, s1: string, u: Tree, rest: string)
    requires s == "! " + s1 && Read(s1, names) == Some((u, rest))
    ensures Read(s, names) == Some((Not(u), rest))
  {
    assert s[..2] == "! " && s[2..] == s1;
  }

  lemma ReadParenthesized(s: string, names: seq<string>, op: BinOp, l: Tree, r: Tree,
                          s1: string, s2: string, s3: string)
    requires s != "" && s[0] == '(' && Read(s[1..], names) == Some((l, s1))
    requires ReadSymbol(s1) == Some((op, s2))
    requires |s2| < |s| && Read(s2, names) == Some((r, s3))
    requires s3 != "" && s3[0] == ')'
    ensures Read(s, names) == Some((Bin(op, l, r), s3[1..]))
  {
  }

  /** Reading what was printed gives the tree back, whatever delimiter follows it. */
  lemma {:induction false} ReadInfix(t: Tree, names: seq<string>, rest: string)
    requires TreeInScope(t, |names|) && GoodNames(names)
    requires rest == "" || Delimiter(rest[0])
    ensures Read(Infix(t, names) + rest, names) == Some((t, rest))
    decreases t
  {
    hide Read, ReadSymbol, GoodNames;
    var s := Infix(t, names) + rest;
    match t
    case Leaf(b) =>
      ReadName(s, names, b, rest);
    case Not(u) =>
      var s1 := Infix(u, names) + rest;
      assert s == "! " + s1;
      ReadInfix(u, names, rest);
      ReadNegated(s, names, s1, u, rest);
    case Bin(op, l, r) =>
      var s3 := ")" + rest;
      var s2 := Infix(r, names) + s3;
      var s1 := " " + Symbol(op) + " " + s2;
      assert s == "(" + (Infix(l, names) + s1);
      assert s[1..] == Infix(l, names) + s1;
      ReadInfix(l, names, s1);
      ReadSymbolOf(op, s2);
      ReadInfix(r, names, s3);
      assert s3[1..] == rest;
      ReadParenthesized(s, names, op, l, r, s1, s2, s3);
  }

  /**
   The printed form is faithful: two well-formed programs that print alike are the same
   program, so they denote the same Boolean function.
   */
  lemma PrintedFormDetermines(t: Tree, u: Tree, names: seq<string>)
    requires TreeInScope(t, |names|) && TreeInScope(u, |names|) && GoodNames(names)
    requires Infix(t, names) == Infix(u, names)
    ensures t == u
  {
    ReadInfix(t, names, "");
    ReadInfix(u, names, "");
    assert Infix(t, names) + "" == Infix(u, names) + "";
  }
}
