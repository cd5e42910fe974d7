/**
 * The evaluator of src/evaluator.rs: a structural fold over the parse tree.
 * Integers are unbounded here; a zero divisor, where the source panics,
 * gives None.
 */
module Evaluator {
  import opened Wrappers
  import opened Tokenizer
  import opened Parser

  function Abs(x: int): nat
  {
    if x < 0 then -x else x
  }

  /**
   * Integer division rounding toward zero, as the source's `/` on signed
   * integers: the magnitude is the quotient of the magnitudes and the sign is
   * the product of the signs.
   */
  function TruncDiv(a: int, b: int): (q: int)
    requires b != 0
    ensures Abs(q) == Abs(a) / Abs(b)
    ensures q > 0 ==> (a > 0) == (b > 0)
    ensures q < 0 ==> (a > 0) != (b > 0)
  {
    var m := Abs(a) / Abs(b);
    DivFacts(Abs(a), Abs(b));
    if a != 0 && (a < 0) == (b < 0) then m else -m
  }

  lemma DivFacts(n: nat, d: nat)
    requires d > 0
    ensures n == d * (n / d) + n % d && 0 <= n % d < d && n / d >= 0
  {
  }

  function EvalExpr(e: Expr): Option<int>
  {
    match e
    case Sum(l, r) =>
      (match (EvalExpr(l), EvalTerm(r))
       case (Some(x), Some(y)) => Some(x + y)
       case _ => None)
    case Subtract(l, r) =>
      (match (EvalExpr(l), EvalTerm(r))
       case (Some(x), Some(y)) => Some(x - y)
       case _ => None)
    case Term(t) => EvalTerm(t)
  }

  function EvalTerm(t: Term): Option<int>
  {
    match t
    case Mult(l, r) =>
      (match (EvalTerm(l), EvalFactor(r))
       case (Some(x), Some(y)) => Some(x * y)
       case _ => None)
    case Div(l, r) =>
      (match (EvalTerm(l), EvalFactor(r))
       case (Some(x), Some(y)) => if y == 0 then None else Some(TruncDiv(x, y))
       case _ => None)
    case Factor(f) => EvalFactor(f)
  }

  function EvalFactor(f: Factor): Option<int>
  {
    match f
    case Number(n) => Some(n)
    case Parenthesis(e) => EvalExpr(e)
    case Negative(g) =>
      match EvalFactor(g)
      case Some(x) => Some(-x)
      case None => None
  }

  lemma MulNegate(x: int, y: int)
    ensures (-x) * y == -(x * y) && x * (-y) == -(x * y) && (-x) * (-y) == x * y
  {
  }

  lemma AbsMul(x: int, y: int)
    ensures Abs(x * y) == Abs(x) * Abs(y)
  {
    MulNegate(x, y);
    if x < 0 && y < 0 {
      assert x * y == (-x) * (-y);
    } else if x < 0 {
      assert x * y == -((-x) * y);
    } else if y < 0 {
      assert x * y == -(x * (-y));
    }
  }

  /** A nonzero multiple of `b` is at least as large as `b`. */
  lemma NonzeroMultiple(b: int, d: int)
    ensures d != 0 ==> Abs(b * d) >= Abs(b)
  {
    AbsMul(b, d);
    if d != 0 {
      var x, y := Abs(b), Abs(d);
      assert x * y == x * (y - 1) + x;
    }
  }

  lemma MulDistributes(b: int, q: int, t: int)
    ensures b * q - b * t == b * (q - t)
  {
  }
  /**
   * The remainder `a - b * TruncDiv(a, b)` is smaller than the divisor and
   * has the sign of the dividend.
   */
  lemma TruncDivRemainder(a: int, b: int)
    requires b != 0
    ensures Abs(a - b * TruncDiv(a, b)) < Abs(b)
    ensures a >= 0 ==> a - b * TruncDiv(a, b) >= 0
    ensures a <= 0 ==> a - b * TruncDiv(a, b) <= 0
  {
    var A: int := Abs(a);
    var B: int := Abs(b);
    var m: int := A / B;
    DivFacts(A, B);
    var k := A % B;
    var q := TruncDiv(a, b);
    var bm := B * m;
    var bq := b * q;
    if b > 0 {
      assert b == B;
      assert bq == B * q;
      if a >= 0 { assert q == m; assert bq == bm; }
      else { assert q == -m; MulNegate(B, m); assert bq == -bm; }
    } else {
      assert b == -B;
      MulNegate(B, q);
      assert bq == -(B * q);
      if a > 0 { assert q == -m; MulNegate(B, m); assert bq == bm; }
      else { assert q == m; assert bq == -bm; }
    }
  }
  /**
   * The remainder conditions determine the quotient: any `q` whose remainder
   * is smaller than the divisor and has the sign of the dividend is `TruncDiv(a, b)`.
   */
  lemma TruncDivUnique(a: int, b: int, q: int)
    requires b != 0
    requires Abs(a - b * q) < Abs(b)
    requires a >= 0 ==> a - b * q >= 0
    requires a <= 0 ==> a - b * q <= 0
    ensures q == TruncDiv(a, b)
  {
    var t := TruncDiv(a, b);
    TruncDivRemainder(a, b);
    var d := q - t;
    MulDistributes(b, q, t);
    NonzeroMultiple(b, d);
  }
  /** Division truncates toward zero: negating the dividend negates the quotient. */
  lemma TruncDivNegateDividend(a: int, b: int)
    requires b != 0
    ensures TruncDiv(-a, b) == -TruncDiv(a, b)
  {
  }

  /** Negating the divisor negates the quotient too. */
  lemma TruncDivNegateDivisor(a: int, b: int)
    requires b != 0
    ensures TruncDiv(a, -b) == -TruncDiv(a, b)
  {
  }

  /** Each of `n` negations flips the sign, so an even number of them gives the value back. */
  lemma {:induction false} EvalNegated(n: nat, f: Factor)
    ensures EvalFactor(Negated(n, f)).Some? <==> EvalFactor(f).Some?
    ensures EvalFactor(f).Some? ==>
      EvalFactor(Negated(n, f)).value == (if n % 2 == 0 then 1 else -1) * EvalFactor(f).value
  {
    if n > 0 {
      EvalNegated(n - 1, f);
    }
  }

  lemma EvalNumber(n: nat)
    ensures EvalTerm(Factor(Factor.Number(n))) == Some(n as int)
    ensures EvalExpr(Term(Factor(Factor.Number(n)))) == Some(n as int)
  {
    assert EvalFactor(Factor.Number(n)) == Some(n as int);
  }

  /** The value of `a op b` for one operator between two numbers. */
  function Apply(a: nat, op: Token, b: nat): Option<int>
    requires IsOperator(op)
  {
    match op
    case Plus => Some(a + b)
    case Minus => Some(a - b)
    case Mult => Some(a * b)
    case Div => if b == 0 then None else Some(a / b)
  }

  /**
   * A single operator between two numbers always parses, and evaluates to the
   * exact result of the operation (None for a zero divisor).
   */
  lemma SingleOperator(rule: GroupRule, a: nat, op: Token, b: nat)
    requires IsOperator(op)
    ensures ExprOf(rule, [Token.Number(a), op, Token.Number(b)]).Ok?
    ensures EvalExpr(ExprOf(rule, [Token.Number(a), op, Token.Number(b)]).value) == Apply(a, op, b)
  {
    var ts := [Token.Number(a), op, Token.Number(b)];
    SingleNumber(rule, a);
    SingleNumber(rule, b);
    assert ts[..1] == [Token.Number(a)] && ts[2..] == [Token.Number(b)];
    if IsAdditive(op) {
      assert ScanFrom(rule, ExprLevel, ts, 0) == SplitAt(1);
      var left := Term(Factor(Factor.Number(a)));
      var right := Factor(Factor.Number(b));
      assert ExprOf(rule, ts) == Ok(if op == Plus then Sum(left, right) else Subtract(left, right));
      EvalNumber(a);
      EvalNumber(b);
    } else {
      assert ScanFrom(rule, ExprLevel, ts, 0) == NoSplit by {
        ScanNoSplit(rule, ExprLevel, ts, 0);
      }
      assert ScanFrom(rule, TermLevel, ts, 0) == SplitAt(1);
      assert FactorOf(rule, [Token.Number(b)]) == Ok(Factor.Number(b));
      var left := Factor(Factor.Number(a));
      var right := Factor.Number(b);
      var t := if op == Token.Mult then Term.Mult(left, right) else Term.Div(left, right);
      assert ExprOf(rule, ts) == Ok(Term(t));
      EvalNumber(a);
      assert EvalFactor(right) == Some(b as int);
      if op == Token.Div && b != 0 {
        assert TruncDiv(a, b) == a / b;
      }
    }
  }
}
