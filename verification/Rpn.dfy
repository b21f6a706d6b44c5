/** The calculator of cpp_5-9/cpp9/ex01/RPN.cpp: a stack machine over the tokens of
    an expression, and the trees whose postorder it accepts. */
module Rpn {
  import opened Text
  import opened Wrappers

  // ----- the machine -----

  predicate IsOperator(t: string) { t == "+" || t == "-" || t == "*" || t == "/" }

  predicate IsNumber(t: string) { |t| == 1 && '0' <= t[0] <= '9' }

  /** Division of int truncates toward zero. */
  function Quotient(a: int, b: int): int
    requires b != 0
  {
    var q := (if a < 0 then -a else a) / (if b < 0 then -b else b);
    if (a < 0) == (b < 0) then q else -q
  }

  /** a op b, or None where the code throws. */
  function Operate(op: char, a: int, b: int): Option<int> {
    if op == '+' then Some(a + b)
    else if op == '-' then Some(a - b)
    else if op == '*' then Some(a * b)
    else if op == '/' && b != 0 then Some(Quotient(a, b))
    else None
  }

  /** Whether the run is still good, and the stack, its top last. */
  datatype Machine = Machine(good: bool, stack: seq<int>)

  /** One token. A failing operation has popped its operands, if there were two. */
  function Step(t: string, s: seq<int>): Machine {
    if IsNumber(t) then Machine(true, s + [t[0] as int - '0' as int])
    else if !IsOperator(t) || |s| < 2 then Machine(false, s)
    else
      var n := |s| - 2;
      match Operate(t[0], s[n], s[n + 1])
      case None => Machine(false, s[..n])
      case Some(v) => Machine(true, s[..n] + [v])
  }

  function Exec(ts: seq<string>, s: seq<int>): Machine
    decreases |ts|
  {
    if ts == [] then Machine(true, s)
    else if !Step(ts[0], s).good then Step(ts[0], s)
    else Exec(ts[1..], Step(ts[0], s).stack)
  }

  predicate InInt(v: int) { -0x8000_0000 <= v < 0x8000_0000 }

  /** Every value the run pushes is in the range of int. Where one is not, the program's
      arithmetic has no defined result; the model computes without bound. */
  predicate StaysInt(ts: seq<string>, s: seq<int>)
    decreases |ts|
  {
    ts == [] || !Step(ts[0], s).good ||
    (var t := Step(ts[0], s).stack; InInt(t[|t| - 1]) && StaysInt(ts[1..], t))
  }

  class RPN {
    var stack: seq<int>

    constructor ()
      ensures stack == []
    {
      stack := [];
    }

    /** False stands for the exception, which evaluate catches. */
    method PerformOperation(op: char) returns (ok: bool)
      modifies this
      ensures IsOperator([op]) ==> Machine(ok, stack) == Step([op], old(stack))
    {
      if |stack| < 2 { return false; }

      var b := stack[|stack| - 1];
      stack := stack[..|stack| - 1];
      var a := stack[|stack| - 1];
      stack := stack[..|stack| - 1];
      var res := 0;

      match op {
        case '+' => res := a + b;
        case '-' => res := a - b;
        case '*' => res := a * b;
        case '/' =>
          if b == 0 { return false; }
          res := Quotient(a, b);
        case _ => return false;
      }
      stack := stack + [res];
      ok := true;
    }

    /** evaluate starts from the stack as it is. */
    method Evaluate(expression: string) returns (ok: bool)
      modifies this
      ensures var end := Exec(Words(expression), old(stack));
              stack == end.stack && ok == (end.good && |end.stack| == 1)
    {
      var tokens := SplitWhitespace(expression);
      var i := 0;
      assert tokens[0..] == tokens;
      while i < |tokens|
        invariant i <= |tokens|
        invariant Exec(tokens[i..], stack) == Exec(tokens, old(stack))
      {
        var token := tokens[i];
        assert tokens[i..][1..] == tokens[i + 1..];
        if IsNumber(token) {
          stack := stack + [token[0] as int - '0' as int];
        } else if IsOperator(token) {
          assert token == [token[0]];
          var performed := PerformOperation(token[0]);
          if !performed { return false; }
        } else {
          return false;
        }
        i := i + 1;
      }
      ok := |stack| == 1;
    }

    method GetResult() returns (r: int)
      ensures stack == [] ==> r == 0
      ensures forall below, v :: stack == below + [v] ==> r == v
    {
      r := if stack == [] then 0 else stack[|stack| - 1];
    }
  }

  // ----- expression trees -----

  datatype Expr = Digit(d: nat) | Node(op: char, left: Expr, right: Expr)

  predicate WellFormed(e: Expr) {
    match e
    case Digit(d) => d < 10
    case Node(op, l, r) => IsOperator([op]) && WellFormed(l) && WellFormed(r)
  }

  /** The value in infix reading: left operand, operator, right operand. */
  function Value(e: Expr): Option<int> {
    match e
    case Digit(d) => Some(d)
    case Node(op, l, r) =>
      if Value(l).None? || Value(r).None? then None
      else
        var a, b := Value(l).value, Value(r).value;
        match op
        case '+' => Some(a + b)
        case '-' => Some(a - b)
        case '*' => Some(a * b)
        case '/' => if b == 0 then None else Some(Quotient(a, b))
        case _ => None
  }

  /** The quotient is the whole part of the exact one, towards zero: what it leaves is
      smaller than the divisor and has the sign of the dividend. */
  lemma QuotientTruncates(a: int, b: int)
    requires b != 0
    ensures var rest := a - Quotient(a, b) * b;
            (if a >= 0 then 0 <= rest else rest <= 0) && -(if b < 0 then -b else b) < rest < (if b < 0 then -b else b)
  {
    var p, q := if a < 0 then -a else a, if b < 0 then -b else b;
    assert p == p / q * q + p % q;
    assert Quotient(a, b) == p / q || Quotient(a, b) == -(p / q);
    var k := p / q;
    assert (-k) * b == -(k * b) && k * (-b) == -(k * b) && (-k) * (-b) == k * b;
  }

  function Postorder(e: Expr): seq<string>
    requires WellFormed(e)
  {
    match e
    case Digit(d) => [[(d + '0' as int) as char]]
    case Node(op, l, r) => Postorder(l) + Postorder(r) + [[op]]
  }

  /** Every subtree has a value, in the range of int. */
  predicate SmallValues(e: Expr) {
    && Value(e).Some? && InInt(Value(e).value)
    && (e.Node? ==> SmallValues(e.left) && SmallValues(e.right))
  }

  lemma OperatorRun(op: char, a: int, b: int, rest: seq<string>, s: seq<int>)
    requires IsOperator([op]) && Operate(op, a, b).Some?
    ensures var v := Operate(op, a, b).value;
            && Exec([[op]] + rest, s + [a] + [b]) == Exec(rest, s + [v])
            && (StaysInt([[op]] + rest, s + [a] + [b]) <==> InInt(v) && StaysInt(rest, s + [v]))
  {
    var full, ts := s + [a] + [b], [[op]] + rest;
    assert ts[1..] == rest && ts[0] == [op];
    assert full[..|s|] == s && full[|s|] == a && full[|s| + 1] == b;
    hide Operate, InInt;
  }

  lemma ValueOperates(e: Expr)
    requires e.Node? && Value(e).Some?
    ensures Value(e.left).Some? && Value(e.right).Some?
    ensures Operate(e.op, Value(e.left).value, Value(e.right).value) == Value(e)
  {
    hide Quotient;
  }

  /** Running the postorder of a tree with a value pushes that value, and stays in the
      range of int if every subtree's value does. */
  lemma {:induction false} ExecPostorder(e: Expr, rest: seq<string>, s: seq<int>)
    requires WellFormed(e) && Value(e).Some?
    ensures Exec(Postorder(e) + rest, s) == Exec(rest, s + [Value(e).value])
    ensures SmallValues(e) && StaysInt(rest, s + [Value(e).value]) ==> StaysInt(Postorder(e) + rest, s)
    decreases e
  {
    match e
    case Digit(d) =>
      var t := [(d + '0' as int) as char];
      assert ([t] + rest)[1..] == rest;
    case Node(op, l, r) =>
      var tail := [[op]] + rest;
      assert Postorder(e) + rest == Postorder(l) + (Postorder(r) + tail);
      ValueOperates(e);
      var a, b := Value(l).value, Value(r).value;
      hide Operate, Value, Exec, StaysInt, Postorder, InInt;
      ExecPostorder(l, Postorder(r) + tail, s);
      ExecPostorder(r, tail, s + [a]);
      OperatorRun(op, a, b, rest, s);
  }

  // ----- what the stack stands for -----

  /** The trees built so far, one for each stack element. */
  predicate Stands(f: seq<Expr>, s: seq<int>) {
    |f| == |s| && forall i :: 0 <= i < |f| ==> WellFormed(f[i]) && Value(f[i]) == Some(s[i])
  }

  predicate AllSmall(f: seq<Expr>) { forall i :: 0 <= i < |f| ==> SmallValues(f[i]) }

  function Tokens(f: seq<Expr>): seq<string>
    requires forall i :: 0 <= i < |f| ==> WellFormed(f[i])
  {
    if f == [] then [] else Tokens(f[..|f| - 1]) + Postorder(f[|f| - 1])
  }

  lemma TokensOneMore(f: seq<Expr>, e: Expr)
    requires forall i :: 0 <= i < |f| ==> WellFormed(f[i])
    requires WellFormed(e)
    ensures Tokens(f + [e]) == Tokens(f) + Postorder(e)
  {
    assert (f + [e])[..|f|] == f;
  }

  lemma DigitBack(t: string)
    requires IsNumber(t)
    ensures WellFormed(Digit(t[0] as int - '0' as int)) && Postorder(Digit(t[0] as int - '0' as int)) == [t]
  {
    var d := t[0] as int - '0' as int;
    assert (d + '0' as int) as char == t[0];
    assert t == [t[0]];
  }

  lemma Regroup(a: seq<string>, b: seq<string>, c: seq<string>, d: seq<string>)
    ensures a + (b + c + d) == a + b + c + d
  {
  }

  lemma NodeTokens(h: seq<Expr>, l: Expr, r: Expr, t: string)
    requires forall i :: 0 <= i < |h| ==> WellFormed(h[i])
    requires WellFormed(l) && WellFormed(r) && IsOperator(t)
    ensures Tokens(h + [Node(t[0], l, r)]) == Tokens(h + [l] + [r]) + [t]
  {
    assert t == [t[0]];
    var e := Node(t[0], l, r);
    assert Postorder(e) == Postorder(l) + Postorder(r) + [t];
    TokensOneMore(h, e);
    TokensOneMore(h, l);
    TokensOneMore(h + [l], r);
    Regroup(Tokens(h), Postorder(l), Postorder(r), [t]);
    hide Tokens, Postorder;
  }

  /** One good step turns the trees of the stack before into those after. */
  lemma StepBuilds(f: seq<Expr>, s: seq<int>, t: string) returns (g: seq<Expr>)
    requires Stands(f, s) && Step(t, s).good
    ensures Stands(g, Step(t, s).stack) && Tokens(g) == Tokens(f) + [t]
    ensures var v := Step(t, s).stack; v != [] && (AllSmall(f) && InInt(v[|v| - 1]) ==> AllSmall(g))
  {
    if IsNumber(t) {
      DigitBack(t);
      hide Postorder, Tokens;
      var d := t[0] as int - '0' as int;
      g := f + [Digit(d)];
      TokensOneMore(f, Digit(d));
    } else {
      hide Postorder, Tokens;
      var n := |s| - 2;
      var h, l, r := f[..n], f[n], f[n + 1];
      assert t == [t[0]];
      g := h + [Node(t[0], l, r)];
      assert f == h + [l] + [r];
      NodeTokens(h, l, r, t);
    }
  }

  lemma {:induction false} ExecBuilds(f: seq<Expr>, s: seq<int>, ts: seq<string>) returns (g: seq<Expr>)
    requires Stands(f, s) && Exec(ts, s).good
    ensures Stands(g, Exec(ts, s).stack) && Tokens(g) == Tokens(f) + ts
    ensures AllSmall(f) && StaysInt(ts, s) ==> AllSmall(g)
    decreases |ts|
  {
    if ts == [] {
      g := f;
      assert Tokens(f) + [] == Tokens(f);
    } else {
      var m := Step(ts[0], s);
      assert m.good && Exec(ts, s) == Exec(ts[1..], m.stack);
      StaysIntStep(ts, s);
      hide *;
      var h := StepBuilds(f, s, ts[0]);
      g := ExecBuilds(h, m.stack, ts[1..]);
      OneByOne(Tokens(f), ts);
    }
  }

  lemma StaysIntStep(ts: seq<string>, s: seq<int>)
    requires ts != [] && Step(ts[0], s).good
    ensures var t := Step(ts[0], s).stack;
            t != [] && (StaysInt(ts, s) <==> InInt(t[|t| - 1]) && StaysInt(ts[1..], t))
  {
    hide InInt;
  }

  lemma OneByOne(a: seq<string>, ts: seq<string>)
    requires ts != []
    ensures (a + [ts[0]]) + ts[1..] == a + ts
  {
  }

  /** The tokens are the postorder of a tree over digits whose value is v, with the value
      of every subtree in the range of int. */
  ghost predicate IsPostorderOf(ts: seq<string>, v: int) {
    exists e :: WellFormed(e) && Postorder(e) == ts && Value(e) == Some(v) && SmallValues(e)
  }

  lemma AcceptedIsPostorder(ts: seq<string>, v: int)
    requires Exec(ts, []) == Machine(true, [v]) && StaysInt(ts, [])
    ensures IsPostorderOf(ts, v)
  {
    var g := ExecBuilds([], [], ts);
    var e := g[0];
    assert g == [] + [e] && Tokens([]) == [];
    TokensOneMore([], e);
    hide Exec, Postorder, Tokens, StaysInt;
    assert SmallValues(g[0]);
    assert [] + Postorder(e) == Postorder(e) && [] + ts == ts;
  }

  lemma PostorderIsAccepted(e: Expr)
    requires WellFormed(e) && SmallValues(e)
    ensures Value(e).Some? && Exec(Postorder(e), []) == Machine(true, [Value(e).value]) && StaysInt(Postorder(e), [])
  {
    ExecPostorder(e, [], []);
    var v := Value(e).value;
    assert Exec([], [v]) == Machine(true, [v]) && StaysInt([], [v]);
    hide Exec, StaysInt, Postorder;
    assert Postorder(e) + [] == Postorder(e) && [] + [v] == [v];
  }

  /** A fresh evaluation stays in the range of int and succeeds with v if and only if the
      tokens are the postorder of a tree over digits whose value, without a zero divisor
      and with every subtree's value in the range of int, is v. */
  lemma AcceptsExactlyPostorders(ts: seq<string>, v: int)
    ensures StaysInt(ts, []) && Exec(ts, []) == Machine(true, [v]) <==> IsPostorderOf(ts, v)
  {
    hide Exec, Postorder, Value, StaysInt, SmallValues;
    if StaysInt(ts, []) && Exec(ts, []) == Machine(true, [v]) { AcceptedIsPostorder(ts, v); }
    forall e | WellFormed(e) && Postorder(e) == ts && Value(e) == Some(v) && SmallValues(e)
      ensures StaysInt(ts, []) && Exec(ts, []) == Machine(true, [v])
    {
      PostorderIsAccepted(e);
    }
  }

  /** The program of main.cpp: the number it prints, None for its error message. It
      prints the value of any such tree, and, short of overflow, nothing else. */
  method Calculate(expression: string) returns (result: Option<int>)
    ensures forall v :: IsPostorderOf(Words(expression), v) ==> result == Some(v)
    ensures result.Some? && StaysInt(Words(expression), []) ==> IsPostorderOf(Words(expression), result.value)
  {
    var rpn := new RPN();
    var ok := rpn.Evaluate(expression);
    ghost var ts := Words(expression);
    ghost var m := Exec(ts, []);
    forall v ensures StaysInt(ts, []) && m == Machine(true, [v]) <==> IsPostorderOf(ts, v) {
      AcceptsExactlyPostorders(ts, v);
    }
    hide *;
    result := None;
    if ok {
      var v := rpn.GetResult();
      assert rpn.stack == [] + [rpn.stack[0]];
      assert v == rpn.stack[0];
      assert m.stack == [v];
      result := Some(v);
    } else {
      assert !m.good || |m.stack| != 1;
      assert forall v: int :: |Machine(true, [v]).stack| == 1;
    }
  }
}
