/**
 * How a line reaches the pieces above (src/main.rs:29-36): the line is
 * trimmed, looked up in the command table, and only when it is not a command
 * word handed to the tokenizer. `Calculate` composes the tokenizer, the
 * parser under a group rule and the evaluator.
 */
module Repl {
  import opened Wrappers
  import opened Digits
  import opened Tokenizer
  import opened Parser
  import opened Evaluator
  import opened Commands

  /** The first index from `i` on that holds no whitespace. */
  function SkipLeading(s: string, i: nat): (k: nat)
    requires i <= |s|
    ensures i <= k <= |s|
    ensures forall m :: i <= m < k ==> IsWhitespace(s[m])
    ensures k < |s| ==> !IsWhitespace(s[k])
    decreases |s| - i
  {
    if i == |s| || !IsWhitespace(s[i]) then i else SkipLeading(s, i + 1)
  }

  /** The end of `s[lo..j]` once the whitespace at its end is dropped. */
  function SkipTrailing(s: string, lo: nat, j: nat): (k: nat)
    requires lo <= j <= |s|
    ensures lo <= k <= j
    ensures forall m :: k <= m < j ==> IsWhitespace(s[m])
    ensures k > lo ==> !IsWhitespace(s[k - 1])
    decreases j - lo
  {
    if j == lo || !IsWhitespace(s[j - 1]) then j else SkipTrailing(s, lo, j - 1)
  }

  /** The line without its leading and trailing whitespace. */
  function Trim(s: string): (t: string)
    ensures |t| > 0 ==> !IsWhitespace(t[0]) && !IsWhitespace(t[|t| - 1])
    ensures |t| <= |s|
  {
    var a := SkipLeading(s, 0);
    s[a..SkipTrailing(s, a, |s|)]
  }

  predicate AllWhitespace(s: string)
  {
    forall m :: 0 <= m < |s| ==> IsWhitespace(s[m])
  }

  /** Trimming removes exactly the whitespace padding around a line. */
  lemma TrimPadded(before: string, t: string, after: string)
    requires AllWhitespace(before) && AllWhitespace(after)
    requires |t| > 0 ==> !IsWhitespace(t[0]) && !IsWhitespace(t[|t| - 1])
    ensures Trim(before + t + after) == t
  {
    var s := before + t + after;
    var a := SkipLeading(s, 0);
    if |t| > 0 {
      assert s[|before|] == t[0];
      assert a == |before|;
      var b := SkipTrailing(s, a, |s|);
      assert s[|before| + |t| - 1] == t[|t| - 1];
      assert b == |before| + |t|;
      assert s[a..b] == t;
    } else {
      assert a == |s|;
    }
  }

  lemma TrimIdempotent(s: string)
    ensures Trim(Trim(s)) == Trim(s)
  {
    var t := Trim(s);
    assert "" + t + "" == t;
    TrimPadded("", t, "");
  }

  /** What a line leads to: a command from the table, or text for the calculator. */
  datatype Outcome = RanCommand(command: Command) | Calculation(text: string)

  function Dispatch(line: string): (o: Outcome)
    ensures o.RanCommand? <==> Trim(line) in CommandNames
    ensures o.RanCommand? ==> CommandName(o.command) == Trim(line)
    ensures o.Calculation? ==> o.text == Trim(line)
  {
    match LookupCommand(Trim(line))
    case Some(c) => RanCommand(c)
    case None => Calculation(Trim(line))
  }

  /**
   * One turn of the read loop after the line is read: a command word runs its
   * command on the record; anything else leaves the record to the calculator.
   */
  method HandleLine(rv: RuntimeVariables, line: string) returns (o: Outcome)
    modifies rv
    ensures o == Dispatch(line)
    ensures o.RanCommand? ==> rv.Snapshot() == Run(o.command, old(rv.Snapshot()))
    ensures o.Calculation? ==> rv.Snapshot() == old(rv.Snapshot())
  {
    var trimmed := Trim(line);
    var c := LookupCommand(trimmed);
    if c.Some? {
      rv.Execute(c.value);
      o := RanCommand(c.value);
    } else {
      o := Calculation(trimmed);
    }
  }

  /** No command word is a valid calculator line: each fails at its first character. */
  lemma CommandWordsDoNotTokenize(name: string)
    requires name in CommandNames
    ensures Lex(name, 0) == Err(TokenizeError(0))
  {
    var first := name[0];
    assert first == 'e' || first == 'v' || first == 'b' || first == 'd' || first == 'h' || first == 'c';
    InvalidFirstCharacter(name);
  }

  lemma InvalidFirstCharacter(line: string)
    requires |line| > 0
    requires line[0] in {'e', 'v', 'b', 'd', 'h', 'c'}
    ensures Lex(line, 0) == Err(TokenizeError(0))
  {
    assert IsInvalidChar(line[0]);
    assert NextStep(line, 0) == Fail;
  }

  datatype Failure = TokenizeFailure(tokenError: TokenizeError) | ParseFailure(parseError: ParserError)

  /**
   * Tokenize, parse with the given group rule and evaluate; None as the value
   * is the division-by-zero panic.
   */
  function Calculate(rule: GroupRule, text: string): Result<Option<int>, Failure>
  {
    match Lex(text, 0)
    case Err(e) => Err(TokenizeFailure(e))
    case Ok(ts) =>
      match ExprOf(rule, ts)
      case Err(e) => Err(ParseFailure(e))
      case Ok(tree) => Ok(EvalExpr(tree))
  }

  /** `1+123*(12/234)` evaluates to 1: the quotient truncates to 0. */
  lemma CalculateExample(rule: GroupRule)
    ensures Calculate(rule, ExampleLine) == Ok(Some(1))
  {
    TokenizeExample();
    ParserExample(rule);
    var quotient := Term.Div(Factor(Factor.Number(12)), Factor.Number(234));
    assert TruncDiv(12, 234) == 0;
    assert EvalTerm(quotient) == Some(0) by {
      EvalNumber(12);
    }
    assert EvalFactor(Parenthesis(Term(quotient))) == Some(0);
    assert EvalTerm(Term.Mult(Factor(Factor.Number(123)), Parenthesis(Term(quotient)))) == Some(0) by {
      EvalNumber(123);
    }
    EvalNumber(1);
  }

  /**
   * Any two numbers that fit in 64 bits, written with one operator between
   * them, calculate to the exact result of that operator.
   */
  lemma CalculateSingleOperator(rule: GroupRule, a: nat, op: Token, b: nat)
    requires IsOperator(op) && a <= U64_MAX && b <= U64_MAX
    ensures Calculate(rule, Render([Token.Number(a), op, Token.Number(b)])) == Ok(Apply(a, op, b))
  {
    RenderRoundTrip([Token.Number(a), op, Token.Number(b)]);
    SingleOperator(rule, a, op, b);
  }
}
