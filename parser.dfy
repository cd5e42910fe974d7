/**
 * The recursive-descent parser of src/parser.rs: a token slice becomes an
 * `Expr`/`Term`/`Factor` tree by splitting at the first operator of the
 * current level that a left-to-right scan meets.
 *
 * `ExprOf`, `TermOf` and `FactorOf` are the specification; the methods
 * `ParseExpr`, `ParseTerm` and `MatchingParenthesis` follow the source's
 * loops, `ParseFactor` its case analysis, and each is proved equal to it.
 *
 * The scan treats a parenthesised group according to a `GroupRule`. The
 * source (`AsWritten`) raises "Expected `)`" when the group it skips is
 * balanced and passes over an unclosed one; `Intended` is the corrected rule
 * (skip a balanced group, reject an unclosed one). The methods model
 * `AsWritten`; the lemmas state what each rule does.
 */
module Parser {
  import opened Wrappers
  import opened Tokenizer

  datatype Expr = Sum(left: Expr, right: Term) | Subtract(left: Expr, right: Term) | Term(term: Term)
  datatype Term = Mult(left: Term, right: Factor) | Div(left: Term, right: Factor) | Factor(factor: Factor)
  datatype Factor = Number(value: nat) | Parenthesis(inner: Expr) | Negative(operand: Factor)

  /** The three messages the parser reports: "Expected `)`", "Expected Number", "Expected Expression". */
  datatype ParserError = ExpectedClosingParenthesis | ExpectedNumber | ExpectedExpression

  datatype GroupRule = AsWritten | Intended

  datatype Level = ExprLevel | TermLevel

  /** The tokens a scan at `level` splits at: `+`, or `-` anywhere but position 0; `*` or `/`. */
  predicate SplitsAt(level: Level, ts: seq<Token>, i: nat)
    requires i < |ts|
  {
    match level
    case ExprLevel => ts[i] == Plus || (ts[i] == Minus && i > 0)
    case TermLevel => ts[i] == Token.Mult || ts[i] == Token.Div
  }

  /** How a token changes the parenthesis depth. */
  function Delta(t: Token): int
  {
    match t
    case LeftPar => 1
    case RightPar => -1
    case _ => 0
  }

  /** The depth change over a whole token sequence. */
  function Net(s: seq<Token>): int
  {
    if |s| == 0 then 0 else Delta(s[0]) + Net(s[1..])
  }

  /**
   * Scanning from `j` with `depth` groups open: the index just past the token
   * that brings the depth to zero, or None when the tokens run out first.
   */
  function Group(ts: seq<Token>, j: nat, depth: nat): (r: Option<nat>)
    requires j <= |ts| && depth >= 1
    ensures r.Some? ==> j < r.value <= |ts| && ts[r.value - 1] == RightPar
    decreases |ts| - j
  {
    if j == |ts| then None
    else
      var d := depth + Delta(ts[j]);
      if d == 0 then Some(j + 1) else Group(ts, j + 1, d)
  }

  /** What the scan of one level finds. */
  datatype Scan = SplitAt(index: nat) | NoSplit | GroupError

  function ScanFrom(rule: GroupRule, level: Level, ts: seq<Token>, i: nat): (s: Scan)
    requires i <= |ts|
    ensures s.SplitAt? ==> i <= s.index < |ts| && SplitsAt(level, ts, s.index)
    ensures s.SplitAt? && rule == AsWritten ==>
      forall m :: i <= m < s.index ==> !SplitsAt(level, ts, m) && ts[m] != LeftPar
    decreases |ts| - i
  {
    if i == |ts| then NoSplit
    else if SplitsAt(level, ts, i) then SplitAt(i)
    else if ts[i] == LeftPar then
      match Group(ts, i + 1, 1)
      case None => if rule == AsWritten then NoSplit else GroupError
      case Some(k) => if rule == AsWritten then GroupError else ScanFrom(rule, level, ts, k)
    else ScanFrom(rule, level, ts, i + 1)
  }

  function ExprOf(rule: GroupRule, ts: seq<Token>): Result<Expr, ParserError>
    decreases |ts|, 2
  {
    match ScanFrom(rule, ExprLevel, ts, 0)
    case GroupError => Err(ExpectedClosingParenthesis)
    case SplitAt(k) =>
      (match ExprOf(rule, ts[..k])
       case Err(e) => Err(e)
       case Ok(left) =>
         match TermOf(rule, ts[k + 1..])
         case Err(e) => Err(e)
         case Ok(right) => Ok(if ts[k] == Plus then Sum(left, right) else Subtract(left, right)))
    case NoSplit =>
      match TermOf(rule, ts)
      case Err(e) => Err(e)
      case Ok(t) => Ok(Term(t))
  }

  function TermOf(rule: GroupRule, ts: seq<Token>): Result<Term, ParserError>
    decreases |ts|, 1
  {
    match ScanFrom(rule, TermLevel, ts, 0)
    case GroupError => Err(ExpectedClosingParenthesis)
    case SplitAt(k) =>
      (match TermOf(rule, ts[..k])
       case Err(e) => Err(e)
       case Ok(left) =>
         match FactorOf(rule, ts[k + 1..])
         case Err(e) => Err(e)
         case Ok(right) => Ok(if ts[k] == Token.Mult then Term.Mult(left, right) else Term.Div(left, right)))
    case NoSplit =>
      match FactorOf(rule, ts)
      case Err(e) => Err(e)
      case Ok(f) => Ok(Factor(f))
  }

  function FactorOf(rule: GroupRule, ts: seq<Token>): Result<Factor, ParserError>
    decreases |ts|, 0
  {
    if |ts| == 0 then Err(ExpectedNumber)
    else match ts[0]
      case Number(n) => if |ts| == 1 then Ok(Factor.Number(n)) else Err(ExpectedExpression)
      case Minus =>
        (match FactorOf(rule, ts[1..])
         case Err(e) => Err(e)
         case Ok(f) => Ok(Negative(f)))
      case LeftPar =>
        if |ts| >= 2 && ts[|ts| - 1] == RightPar then
          match ExprOf(rule, ts[1..|ts| - 1])
          case Err(e) => Err(e)
          case Ok(e) => Ok(Parenthesis(e))
        else Err(ExpectedClosingParenthesis)
      case _ => Err(ExpectedExpression)
  }

  // ---------------------------------------------------------------------------
  // The source's procedures

  /**
   * Consumes tokens from `start` with one group open until the depth returns
   * to zero. `unclosed` is the source's return value (true when the tokens ran
   * out first); `next` is where the caller's iterator stands afterwards.
   */
  method MatchingParenthesis(ts: seq<Token>, start: nat) returns (unclosed: bool, next: nat)
    requires start <= |ts|
    ensures unclosed <==> Group(ts, start, 1).None?
    ensures unclosed ==> next == |ts|
    ensures !unclosed ==> next == Group(ts, start, 1).value
  {
    var leftCount: int := 1;
    next := start;
    while next < |ts|
      invariant start <= next <= |ts| && leftCount >= 1
      invariant Group(ts, start, 1) == Group(ts, next, leftCount)
      decreases |ts| - next
    {
      leftCount := leftCount + Delta(ts[next]);
      next := next + 1;
      if leftCount == 0 {
        break;
      }
    }
    unclosed := leftCount > 0;
  }

  method ParseExpr(ts: seq<Token>) returns (r: Result<Expr, ParserError>)
    ensures r == ExprOf(AsWritten, ts)
    decreases |ts|, 2
  {
    var i := 0;
    while i < |ts|
      invariant i <= |ts|
      invariant ScanFrom(AsWritten, ExprLevel, ts, i) == ScanFrom(AsWritten, ExprLevel, ts, 0)
      decreases |ts| - i
    {
      if ts[i] == Plus || (ts[i] == Minus && i > 0) {
        var left := ParseExpr(ts[..i]);
        if left.Err? {
          return Err(left.error);
        }
        var right := ParseTerm(ts[i + 1..]);
        if right.Err? {
          return Err(right.error);
        }
        if ts[i] == Plus {
          return Ok(Sum(left.value, right.value));
        } else {
          return Ok(Subtract(left.value, right.value));
        }
      } else if ts[i] == LeftPar {
        var unclosed, next := MatchingParenthesis(ts, i + 1);
        if !unclosed {
          return Err(ExpectedClosingParenthesis);
        }
        i := next;
      } else {
        i := i + 1;
      }
    }
    var t := ParseTerm(ts);
    if t.Err? {
      return Err(t.error);
    }
    return Ok(Term(t.value));
  }

  method ParseTerm(ts: seq<Token>) returns (r: Result<Term, ParserError>)
    ensures r == TermOf(AsWritten, ts)
    decreases |ts|, 1
  {
    var i := 0;
    while i < |ts|
      invariant i <= |ts|
      invariant ScanFrom(AsWritten, TermLevel, ts, i) == ScanFrom(AsWritten, TermLevel, ts, 0)
      decreases |ts| - i
    {
      if ts[i] == Token.Mult || ts[i] == Token.Div {
        var left := ParseTerm(ts[..i]);
        if left.Err? {
          return Err(left.error);
        }
        var right := ParseFactor(ts[i + 1..]);
        if right.Err? {
          return Err(right.error);
        }
        if ts[i] == Token.Mult {
          return Ok(Term.Mult(left.value, right.value));
        } else {
          return Ok(Term.Div(left.value, right.value));
        }
      } else if ts[i] == LeftPar {
        var unclosed, next := MatchingParenthesis(ts, i + 1);
        if !unclosed {
          return Err(ExpectedClosingParenthesis);
        }
        i := next;
      } else {
        i := i + 1;
      }
    }
    var f := ParseFactor(ts);
    if f.Err? {
      return Err(f.error);
    }
    return Ok(Factor(f.value));
  }

  method ParseFactor(ts: seq<Token>) returns (r: Result<Factor, ParserError>)
    ensures r == FactorOf(AsWritten, ts)
    decreases |ts|, 0
  {
    if |ts| == 0 {
      return Err(ExpectedNumber);
    }
    match ts[0]
    case Number(n) =>
      if |ts| == 1 {
        return Ok(Factor.Number(n));
      }
      return Err(ExpectedExpression);
    case Minus =>
      var f := ParseFactor(ts[1..]);
      if f.Err? {
        return Err(f.error);
      }
      return Ok(Negative(f.value));
    case LeftPar =>
      if |ts| >= 2 && ts[|ts| - 1] == RightPar {
        var e := ParseExpr(ts[1..|ts| - 1]);
        if e.Err? {
          return Err(e.error);
        }
        return Ok(Parenthesis(e.value));
      }
      return Err(ExpectedClosingParenthesis);
    case _ =>
      return Err(ExpectedExpression);
  }

  // ---------------------------------------------------------------------------
  // Trees back to tokens

  /** The tokens a tree was parsed from: operators in place, groups in parentheses. */
  function ExprTokens(e: Expr): seq<Token>
  {
    match e
    case Sum(l, r) => ExprTokens(l) + [Plus] + TermTokens(r)
    case Subtract(l, r) => ExprTokens(l) + [Minus] + TermTokens(r)
    case Term(t) => TermTokens(t)
  }

  function TermTokens(t: Term): seq<Token>
  {
    match t
    case Mult(l, r) => TermTokens(l) + [Token.Mult] + FactorTokens(r)
    case Div(l, r) => TermTokens(l) + [Token.Div] + FactorTokens(r)
    case Factor(f) => FactorTokens(f)
  }

  function FactorTokens(f: Factor): seq<Token>
  {
    match f
    case Number(n) => [Token.Number(n)]
    case Parenthesis(e) => [LeftPar] + ExprTokens(e) + [RightPar]
    case Negative(g) => [Minus] + FactorTokens(g)
  }

  /** A successful parse loses and invents no token: the tree gives back exactly its input. */
  lemma {:induction false} ExprRoundTrip(rule: GroupRule, ts: seq<Token>)
    ensures ExprOf(rule, ts).Ok? ==> ExprTokens(ExprOf(rule, ts).value) == ts
    decreases |ts|, 2
  {
    match ScanFrom(rule, ExprLevel, ts, 0)
    case GroupError =>
    case SplitAt(k) =>
      ExprRoundTrip(rule, ts[..k]);
      TermRoundTrip(rule, ts[k + 1..]);
      assert ts == ts[..k] + [ts[k]] + ts[k + 1..];
    case NoSplit =>
      TermRoundTrip(rule, ts);
  }

  lemma {:induction false} TermRoundTrip(rule: GroupRule, ts: seq<Token>)
    ensures TermOf(rule, ts).Ok? ==> TermTokens(TermOf(rule, ts).value) == ts
    decreases |ts|, 1
  {
    match ScanFrom(rule, TermLevel, ts, 0)
    case GroupError =>
    case SplitAt(k) =>
      TermRoundTrip(rule, ts[..k]);
      FactorRoundTrip(rule, ts[k + 1..]);
      assert ts == ts[..k] + [ts[k]] + ts[k + 1..];
    case NoSplit =>
      FactorRoundTrip(rule, ts);
  }

  lemma {:induction false} FactorRoundTrip(rule: GroupRule, ts: seq<Token>)
    ensures FactorOf(rule, ts).Ok? ==> FactorTokens(FactorOf(rule, ts).value) == ts
    decreases |ts|, 0
  {
    if |ts| > 0 {
      match ts[0]
      case Number(n) =>
        if |ts| == 1 {
          assert ts == [Token.Number(n)];
        }
      case Minus =>
        FactorRoundTrip(rule, ts[1..]);
        assert ts == [Minus] + ts[1..];
      case LeftPar =>
        if |ts| >= 2 && ts[|ts| - 1] == RightPar {
          ExprRoundTrip(rule, ts[1..|ts| - 1]);
          assert ts == [LeftPar] + ts[1..|ts| - 1] + [RightPar];
        }
      case _ =>
    }
  }

  // ---------------------------------------------------------------------------
  // Parenthesis depth

  lemma {:induction false} NetAppend(a: seq<Token>, b: seq<Token>)
    ensures Net(a + b) == Net(a) + Net(b)
    decreases |a|
  {
    if |a| == 0 {
      assert a + b == b;
    } else {
      assert (a + b)[1..] == a[1..] + b;
      NetAppend(a[1..], b);
    }
  }

  /** Every group opened is closed, and no prefix closes more than it opened. */
  ghost predicate Balanced(s: seq<Token>)
  {
    Net(s) == 0 && forall m :: 0 <= m <= |s| ==> Net(s[..m]) >= 0
  }

  lemma BalancedAppend(a: seq<Token>, b: seq<Token>)
    requires Balanced(a) && Balanced(b)
    ensures Balanced(a + b)
  {
    NetAppend(a, b);
    forall m | 0 <= m <= |a + b|
      ensures Net((a + b)[..m]) >= 0
    {
      if m <= |a| {
        assert (a + b)[..m] == a[..m];
      } else {
        assert (a + b)[..m] == a + b[..m - |a|];
        NetAppend(a, b[..m - |a|]);
      }
    }
  }

  lemma BalancedWrap(s: seq<Token>)
    requires Balanced(s)
    ensures Balanced([LeftPar] + s + [RightPar])
  {
    var w := [LeftPar] + s + [RightPar];
    NetAppend([LeftPar] + s, [RightPar]);
    NetAppend([LeftPar], s);
    forall m | 0 <= m <= |w|
      ensures Net(w[..m]) >= 0
    {
      if m == 0 {
        assert w[..m] == [];
      } else if m <= |s| + 1 {
        assert w[..m] == [LeftPar] + s[..m - 1];
        NetAppend([LeftPar], s[..m - 1]);
      } else {
        assert w[..m] == w;
      }
    }
  }

  lemma BalancedSingle(t: Token)
    requires t != LeftPar && t != RightPar
    ensures Balanced([t])
  {
    assert [t][1..] == [];
    assert [t][..0] == [];
    assert [t][..1] == [t];
  }

  /** The tokens of every tree are balanced. */
  lemma {:induction false} ExprBalanced(e: Expr)
    ensures Balanced(ExprTokens(e))
  {
    match e
    case Sum(l, r) =>
      ExprBalanced(l); TermBalanced(r); BalancedSingle(Plus);
      BalancedAppend(ExprTokens(l), [Plus]);
      BalancedAppend(ExprTokens(l) + [Plus], TermTokens(r));
    case Subtract(l, r) =>
      ExprBalanced(l); TermBalanced(r); BalancedSingle(Minus);
      BalancedAppend(ExprTokens(l), [Minus]);
      BalancedAppend(ExprTokens(l) + [Minus], TermTokens(r));
    case Term(t) =>
      TermBalanced(t);
  }

  lemma {:induction false} TermBalanced(t: Term)
    ensures Balanced(TermTokens(t))
  {
    match t
    case Mult(l, r) =>
      TermBalanced(l); FactorBalanced(r); BalancedSingle(Token.Mult);
      BalancedAppend(TermTokens(l), [Token.Mult]);
      BalancedAppend(TermTokens(l) + [Token.Mult], FactorTokens(r));
    case Div(l, r) =>
      TermBalanced(l); FactorBalanced(r); BalancedSingle(Token.Div);
      BalancedAppend(TermTokens(l), [Token.Div]);
      BalancedAppend(TermTokens(l) + [Token.Div], FactorTokens(r));
    case Factor(f) =>
      FactorBalanced(f);
  }

  lemma {:induction false} FactorBalanced(f: Factor)
    ensures Balanced(FactorTokens(f))
  {
    match f
    case Number(n) =>
      BalancedSingle(Token.Number(n));
    case Parenthesis(e) =>
      ExprBalanced(e);
      BalancedWrap(ExprTokens(e));
    case Negative(g) =>
      FactorBalanced(g);
      BalancedSingle(Minus);
      BalancedAppend([Minus], FactorTokens(g));
  }

  /**
   * `Group` finds the first return of the depth to zero: when it reports an
   * end, the depth is zero there and positive at every earlier point; when it
   * reports none, the depth stays positive all the way to the end.
   */
  lemma {:induction false} GroupFirstReturn(ts: seq<Token>, j: nat, depth: nat)
    requires j <= |ts| && depth >= 1
    ensures Group(ts, j, depth).None? ==>
      forall k :: j <= k <= |ts| ==> depth + Net(ts[j..k]) >= 1
    ensures Group(ts, j, depth).Some? ==>
      depth + Net(ts[j..Group(ts, j, depth).value]) == 0 &&
      forall m :: j <= m < Group(ts, j, depth).value ==> depth + Net(ts[j..m]) >= 1
    decreases |ts| - j
  {
    assert ts[j..j] == [];
    if j < |ts| {
      forall k | j < k <= |ts|
        ensures Net(ts[j..k]) == Delta(ts[j]) + Net(ts[j + 1..k])
      {
        assert ts[j..k][1..] == ts[j + 1..k];
      }
      assert ts[j + 1..j + 1] == [];
      var d := depth + Delta(ts[j]);
      if d != 0 {
        GroupFirstReturn(ts, j + 1, d);
      }
    }
  }

  // ---------------------------------------------------------------------------
  // What the scan does with parenthesised groups

  /** A scan that meets no split token and no `(` from `i` on finds nothing. */
  lemma {:induction false} ScanNoSplit(rule: GroupRule, level: Level, ts: seq<Token>, i: nat)
    requires i <= |ts|
    requires forall m :: i <= m < |ts| ==> !SplitsAt(level, ts, m) && ts[m] != LeftPar
    ensures ScanFrom(rule, level, ts, i) == NoSplit
    decreases |ts| - i
  {
    if i < |ts| {
      ScanNoSplit(rule, level, ts, i + 1);
    }
  }

  /**
   * As written, no token sequence that starts with `(` parses: the group is
   * either balanced, which the scan rejects, or unclosed, which leaves a
   * parenthesised factor whose interior cannot be balanced.
   */
  lemma LeadingParenRejected(ts: seq<Token>)
    requires |ts| > 0 && ts[0] == LeftPar
    ensures ExprOf(AsWritten, ts).Err?
  {
    if Group(ts, 1, 1).None? {
      UnclosedParenRejected(ts);
    } else {
      assert ScanFrom(AsWritten, ExprLevel, ts, 0) == GroupError;
    }
  }

  /** The unclosed half of `LeadingParenRejected`: the scan passes the group and the factor fails. */
  lemma UnclosedParenRejected(ts: seq<Token>)
    requires |ts| > 0 && ts[0] == LeftPar && Group(ts, 1, 1).None?
    ensures ExprOf(AsWritten, ts).Err?
  {
    assert !SplitsAt(ExprLevel, ts, 0) && !SplitsAt(TermLevel, ts, 0);
    assert ScanFrom(AsWritten, ExprLevel, ts, 0) == NoSplit;
    assert ScanFrom(AsWritten, TermLevel, ts, 0) == NoSplit;
    if |ts| >= 2 && ts[|ts| - 1] == RightPar {
      var inner := ts[1..|ts| - 1];
      if ExprOf(AsWritten, inner).Ok? {
        ExprRoundTrip(AsWritten, inner);
        ExprBalanced(ExprOf(AsWritten, inner).value);
        assert ts == [LeftPar] + inner + [RightPar];
        WrappedGroupCloses(inner);
        assert false;
      }
      assert FactorOf(AsWritten, ts).Err?;
    } else {
      assert FactorOf(AsWritten, ts) == Err(ExpectedClosingParenthesis);
    }
  }

  /**
   * With the intended rule, a parsed expression in parentheses parses to the
   * same expression wrapped in a group.
   */
  lemma ParenthesisAccepted(ts: seq<Token>)
    requires ExprOf(Intended, ts).Ok?
    ensures ExprOf(Intended, [LeftPar] + ts + [RightPar])
      == Ok(Term(Factor(Parenthesis(ExprOf(Intended, ts).value))))
  {
    var w := [LeftPar] + ts + [RightPar];
    ExprRoundTrip(Intended, ts);
    ExprBalanced(ExprOf(Intended, ts).value);
    WrappedGroupCloses(ts);
    assert !SplitsAt(ExprLevel, w, 0) && !SplitsAt(TermLevel, w, 0);
    assert ScanFrom(Intended, ExprLevel, w, 0) == NoSplit;
    assert ScanFrom(Intended, TermLevel, w, 0) == NoSplit;
    assert w[0] == LeftPar && w[|w| - 1] == RightPar && w[1..|w| - 1] == ts;
    assert FactorOf(Intended, w) == Ok(Parenthesis(ExprOf(Intended, ts).value));
    assert TermOf(Intended, w) == Ok(Factor(Parenthesis(ExprOf(Intended, ts).value)));
  }

  /** The `(` in front of balanced tokens is closed by a `)` just after them, and not before. */
  lemma WrappedGroupCloses(ts: seq<Token>)
    requires Balanced(ts)
    ensures Group([LeftPar] + ts + [RightPar], 1, 1) == Some(|ts| + 2)
  {
    var w := [LeftPar] + ts + [RightPar];
    forall m | 1 <= m <= |ts| + 1
      ensures 1 + Net(w[1..m]) >= 1
    {
      assert w[1..m] == ts[..m - 1];
    }
    assert w[1..|ts| + 1] == ts;
    GroupCloses(w, 1, 1, |ts| + 1);
  }

  /**
   * When the depth stays positive from `j` through `k` and the `)` at `k`
   * brings it from one to zero, `Group` ends just after `k`.
   */
  lemma {:induction false} GroupCloses(ts: seq<Token>, j: nat, depth: nat, k: nat)
    requires depth >= 1 && j <= k < |ts| && ts[k] == RightPar
    requires depth + Net(ts[j..k]) == 1
    requires forall m :: j <= m <= k ==> depth + Net(ts[j..m]) >= 1
    ensures Group(ts, j, depth) == Some(k + 1)
    decreases k - j
  {
    assert ts[j..j] == [];
    if j < k {
      var d := depth + Delta(ts[j]);
      assert ts[j..j + 1][1..] == [];
      assert depth + Net(ts[j..j + 1]) == d && ts[j + 1..j + 1] == [];
      var next := j + 1;
      forall m | next <= m <= k
        ensures d + Net(ts[next..m]) >= 1
      {
        assert ts[j..m][0] == ts[j] && ts[j..m][1..] == ts[next..m];
        assert depth + Net(ts[j..m]) >= 1;
      }
      GroupCloses(ts, next, d, k);
    }
  }

  // ---------------------------------------------------------------------------
  // Shapes the parser accepts and rejects

  /** The unit test of src/parser.rs: the tokens of `1+123*(12/234)` and the tree they give,
   * under either rule: no group stands before a split. */
  lemma ParserExample(rule: GroupRule)
    ensures ExprOf(rule, ExampleTokens)
      == Ok(Sum(Term(Factor(Factor.Number(1))),
                Term.Mult(Factor(Factor.Number(123)),
                          Parenthesis(Term(Term.Div(Factor(Factor.Number(12)), Factor.Number(234)))))))
  {
    ExampleSlices();
    ExampleSumScan(rule);
    SingleNumber(rule, 1);
    ProductTree(rule);
  }

  /** The unit test's tokens split at their first `+`. */
  lemma ExampleSumScan(rule: GroupRule)
    ensures ScanFrom(rule, ExprLevel, ExampleTokens, 0) == SplitAt(1)
  {
  }

  /** How the unit test's tokens fall apart around its `+` and its `*`. */
  lemma ExampleSlices()
    ensures ExampleTokens[..1] == [Token.Number(1)]
    ensures ExampleTokens[2..][..1] == [Token.Number(123)]
    ensures ExampleTokens[2..][2..] == [LeftPar] + [Token.Number(12), Token.Div, Token.Number(234)] + [RightPar]
  {
  }

  /** The right operand of the unit test's `+`: `123*(12/234)`. */
  lemma ProductTree(rule: GroupRule)
    ensures TermOf(rule, ExampleTokens[2..])
      == Ok(Term.Mult(Factor(Factor.Number(123)),
                      Parenthesis(Term(Term.Div(Factor(Factor.Number(12)), Factor.Number(234))))))
  {
    var rest := ExampleTokens[2..];
    var inner := [Token.Number(12), Token.Div, Token.Number(234)];
    var group := [LeftPar] + inner + [RightPar];
    ExampleSlices();
    assert ScanFrom(rule, TermLevel, rest, 0) == SplitAt(1);
    assert rest[1] == Token.Mult;
    SingleNumber(rule, 123);
    QuotientTree(rule);
    assert group[1..|group| - 1] == inner;
    assert FactorOf(rule, group) == Ok(Parenthesis(Term(Term.Div(Factor(Factor.Number(12)), Factor.Number(234)))));
  }

  /** The parenthesised part of the unit test: `12 / 234` is one quotient. */
  lemma QuotientTree(rule: GroupRule)
    ensures ExprOf(rule, [Token.Number(12), Token.Div, Token.Number(234)])
      == Ok(Term(Term.Div(Factor(Factor.Number(12)), Factor.Number(234))))
  {
    var inner := [Token.Number(12), Token.Div, Token.Number(234)];
    assert ScanFrom(rule, TermLevel, inner, 0) == SplitAt(1);
    assert inner[..1] == [Token.Number(12)] && inner[2..] == [Token.Number(234)];
    ScanNoSplit(rule, ExprLevel, inner, 0);
  }

  /** `n` minus signs. */
  function Minuses(n: nat): seq<Token>
  {
    if n == 0 then [] else [Minus] + Minuses(n - 1)
  }

  /** A factor negated `n` times. */
  function Negated(n: nat, f: Factor): Factor
  {
    if n == 0 then f else Negative(Negated(n - 1, f))
  }

  /** A factor may carry any number of leading minus signs, each one a negation. */
  lemma {:induction false} FactorMinusRun(rule: GroupRule, n: nat, v: nat)
    ensures FactorOf(rule, Minuses(n) + [Token.Number(v)]) == Ok(Negated(n, Factor.Number(v)))
  {
    if n > 0 {
      FactorMinusRun(rule, n - 1, v);
      assert (Minuses(n) + [Token.Number(v)])[1..] == Minuses(n - 1) + [Token.Number(v)];
    }
  }

  lemma {:induction false} MinusesNoSplit(n: nat, v: nat)
    ensures forall m :: 0 <= m < |Minuses(n) + [Token.Number(v)]| ==>
      (Minuses(n) + [Token.Number(v)])[m] in {Minus, Token.Number(v)}
  {
    if n > 0 {
      MinusesNoSplit(n - 1, v);
      assert Minuses(n) + [Token.Number(v)] == [Minus] + (Minuses(n - 1) + [Token.Number(v)]);
    }
  }

  /**
   * After an additive operator the right operand is scanned at term level
   * only, so `a + - - ... - v` parses with every minus a negation.
   */
  lemma SumOfMinusRun(rule: GroupRule, a: nat, n: nat, v: nat)
    ensures ExprOf(rule, [Token.Number(a), Plus] + Minuses(n) + [Token.Number(v)])
      == Ok(Sum(Term(Factor(Factor.Number(a))), Factor(Negated(n, Factor.Number(v)))))
  {
    var operand := Minuses(n) + [Token.Number(v)];
    var ts := [Token.Number(a), Plus] + Minuses(n) + [Token.Number(v)];
    assert ts == [Token.Number(a), Plus] + operand;
    assert ScanFrom(rule, ExprLevel, ts, 0) == SplitAt(1);
    assert ts[..1] == [Token.Number(a)] && ts[2..] == operand;
    SingleNumber(rule, a);
    MinusesNoSplit(n, v);
    ScanNoSplit(rule, TermLevel, operand, 0);
    FactorMinusRun(rule, n, v);
  }

  /**
   * At expression level a second leading minus is a subtraction whose left
   * side is a lone `-`, so `--v` fails with "Expected Number".
   */
  lemma DoubleMinusRejected(rule: GroupRule, v: nat)
    ensures ExprOf(rule, [Minus, Minus, Token.Number(v)]) == Err(ExpectedNumber)
  {
    var ts := [Minus, Minus, Token.Number(v)];
    assert ScanFrom(rule, ExprLevel, ts, 0) == SplitAt(1);
    assert ts[..1] == [Minus] && [Minus][1..] == [];
    assert FactorOf(rule, [Minus]) == Err(ExpectedNumber);
  }

  /**
   * A minus right after `*` or `/` is never a negation: the expression scan
   * splits at it, and the left part `a *` ends in an empty factor, so the
   * line fails with "Expected Number" however many minus signs follow.
   */
  lemma NegatedOperandRejected(rule: GroupRule, a: nat, op: Token, n: nat, v: nat)
    requires IsOperator(op) && !IsAdditive(op) && n >= 1
    ensures ExprOf(rule, [Token.Number(a), op] + Minuses(n) + [Token.Number(v)]) == Err(ExpectedNumber)
  {
    var ts := [Token.Number(a), op] + Minuses(n) + [Token.Number(v)];
    assert op == Token.Mult || op == Token.Div;
    assert ts[0] == Token.Number(a) && ts[1] == op && ts[2] == Minus;
    assert ScanFrom(rule, ExprLevel, ts, 1) == SplitAt(2);
    var left := ts[..2];
    assert left == [Token.Number(a), op];
    assert ScanFrom(rule, ExprLevel, left, 1) == NoSplit;
    assert ScanFrom(rule, TermLevel, left, 0) == SplitAt(1);
    assert left[2..] == [] && left[..1] == [Token.Number(a)];
    SingleNumber(rule, a);
    assert TermOf(rule, left) == Err(ExpectedNumber);
  }

  /**
   * The counterpart of `NegatedOperandRejected`: when a `+` comes first, the
   * expression scan splits there, and the minus after `*` or `/` lands in
   * the right operand's factor, where it is a negation.
   */
  lemma NegatedOperandAfterSum(rule: GroupRule, a: nat, b: nat, op: Token, v: nat)
    requires IsOperator(op) && !IsAdditive(op)
    ensures var right :=
              if op == Token.Mult then Term.Mult(Factor(Factor.Number(b)), Negative(Factor.Number(v)))
              else Term.Div(Factor(Factor.Number(b)), Negative(Factor.Number(v)));
            ExprOf(rule, [Token.Number(a), Plus, Token.Number(b), op, Minus, Token.Number(v)])
              == Ok(Sum(Term(Factor(Factor.Number(a))), right))
  {
    var ts := [Token.Number(a), Plus, Token.Number(b), op, Minus, Token.Number(v)];
    var operand := [Token.Number(b), op, Minus, Token.Number(v)];
    assert op == Token.Mult || op == Token.Div;
    assert ScanFrom(rule, ExprLevel, ts, 0) == SplitAt(1);
    assert ts[..1] == [Token.Number(a)] && ts[2..] == operand;
    SingleNumber(rule, a);
    SingleNumber(rule, b);
    assert ScanFrom(rule, TermLevel, operand, 0) == SplitAt(1);
    assert operand[..1] == [Token.Number(b)] && operand[2..] == [Minus, Token.Number(v)];
    assert [Minus, Token.Number(v)][1..] == [Token.Number(v)];
    assert FactorOf(rule, [Minus, Token.Number(v)]) == Ok(Negative(Factor.Number(v)));
  }

  /** `(1+2)*3` is rejected with "Expected `)`" as written. */
  lemma GroupedProductRejected()
    ensures ExprOf(AsWritten, [LeftPar, Token.Number(1), Plus, Token.Number(2), RightPar,
                               Token.Mult, Token.Number(3)])
      == Err(ExpectedClosingParenthesis)
  {
    var ts := [LeftPar, Token.Number(1), Plus, Token.Number(2), RightPar, Token.Mult, Token.Number(3)];
    assert Group(ts, 1, 1) == Some(5);
    assert ScanFrom(AsWritten, ExprLevel, ts, 0) == GroupError;
  }

  /** Under the intended rule `(1+2)*3` is the product of the group and 3. */
  lemma GroupedProductAccepted()
    ensures ExprOf(Intended, [LeftPar, Token.Number(1), Plus, Token.Number(2), RightPar,
                              Token.Mult, Token.Number(3)])
      == Ok(Term(Term.Mult(
           Factor(Parenthesis(Sum(Term(Factor(Factor.Number(1))), Factor(Factor.Number(2))))),
           Factor.Number(3))))
  {
    var ts := [LeftPar, Token.Number(1), Plus, Token.Number(2), RightPar, Token.Mult, Token.Number(3)];
    var group := [LeftPar, Token.Number(1), Plus, Token.Number(2), RightPar];
    var sum := Sum(Term(Factor(Factor.Number(1))), Factor(Factor.Number(2)));
    GroupedProductScan();
    assert ts[..5] == group && ts[6..] == [Token.Number(3)];
    GroupedSum();
    assert TermOf(Intended, group) == Ok(Factor(Parenthesis(sum)));
    assert FactorOf(Intended, [Token.Number(3)]) == Ok(Factor.Number(3));
  }

  /** Under the intended rule the group of `(1+2)*3` is skipped whole, leaving the `*` to split at. */
  lemma GroupedProductScan()
    ensures ScanFrom(Intended, ExprLevel, [LeftPar, Token.Number(1), Plus, Token.Number(2), RightPar,
                                           Token.Mult, Token.Number(3)], 0) == NoSplit
    ensures ScanFrom(Intended, TermLevel, [LeftPar, Token.Number(1), Plus, Token.Number(2), RightPar,
                                           Token.Mult, Token.Number(3)], 0) == SplitAt(5)
  {
    var ts := [LeftPar, Token.Number(1), Plus, Token.Number(2), RightPar, Token.Mult, Token.Number(3)];
    assert Group(ts, 1, 1) == Some(5);
    assert ScanFrom(Intended, ExprLevel, ts, 5) == NoSplit;
  }

  lemma GroupedSum()
    ensures TermOf(Intended, [LeftPar, Token.Number(1), Plus, Token.Number(2), RightPar])
      == Ok(Factor(Parenthesis(Sum(Term(Factor(Factor.Number(1))), Factor(Factor.Number(2))))))
  {
    var group := [LeftPar, Token.Number(1), Plus, Token.Number(2), RightPar];
    var inner := [Token.Number(1), Plus, Token.Number(2)];
    assert Group(group, 1, 1) == Some(5);
    assert ScanFrom(Intended, TermLevel, group, 0) == NoSplit;
    assert group[1..4] == inner;
    assert ScanFrom(Intended, ExprLevel, inner, 0) == SplitAt(1);
    assert inner[..1] == [Token.Number(1)] && inner[2..] == [Token.Number(2)];
    SingleNumber(Intended, 1);
    assert TermOf(Intended, [Token.Number(2)]) == Ok(Factor(Factor.Number(2)));
    assert ExprOf(Intended, inner) == Ok(Sum(Term(Factor(Factor.Number(1))), Factor(Factor.Number(2))));
  }

  /** A lone number is a factor, a term and an expression. */
  lemma SingleNumber(rule: GroupRule, a: nat)
    ensures TermOf(rule, [Token.Number(a)]) == Ok(Factor(Factor.Number(a)))
    ensures ExprOf(rule, [Token.Number(a)]) == Ok(Term(Factor(Factor.Number(a))))
  {
    assert ScanFrom(rule, ExprLevel, [Token.Number(a)], 0) == NoSplit;
    assert ScanFrom(rule, TermLevel, [Token.Number(a)], 0) == NoSplit;
    assert FactorOf(rule, [Token.Number(a)]) == Ok(Factor.Number(a));
    assert TermOf(rule, [Token.Number(a)]) == Ok(Factor(Factor.Number(a)));
  }

  predicate IsOperator(t: Token)
  {
    t == Plus || t == Minus || t == Token.Mult || t == Token.Div
  }

  predicate IsAdditive(t: Token)
  {
    t == Plus || t == Minus
  }

  /**
   * Two operators between three numbers: the split hands the right part to
   * the next tighter level, which cannot take a further operator of its own
   * level, so the chain parses exactly when one operator is additive and the
   * other multiplicative (`1+2+3` and `1*2*3` are rejected).
   */
  lemma ChainOfTwo(rule: GroupRule, a: nat, o1: Token, b: nat, o2: Token, c: nat)
    requires IsOperator(o1) && IsOperator(o2)
    ensures ExprOf(rule, [Token.Number(a), o1, Token.Number(b), o2, Token.Number(c)]).Ok?
      <==> IsAdditive(o1) != IsAdditive(o2)
  {
    if IsAdditive(o1) {
      ChainAdditiveFirst(rule, a, o1, b, o2, c);
    } else {
      ChainMultiplicativeFirst(rule, a, o1, b, o2, c);
    }
  }

  /** After `a + b` or `a - b` only a multiplicative operator may follow. */
  lemma ChainAdditiveFirst(rule: GroupRule, a: nat, o1: Token, b: nat, o2: Token, c: nat)
    requires IsAdditive(o1) && IsOperator(o2)
    ensures ExprOf(rule, [Token.Number(a), o1, Token.Number(b), o2, Token.Number(c)]).Ok? <==> !IsAdditive(o2)
  {
    var ts := [Token.Number(a), o1, Token.Number(b), o2, Token.Number(c)];
    var tail := [Token.Number(b), o2, Token.Number(c)];
    SingleNumber(rule, a);
    assert FactorOf(rule, tail) == Err(ExpectedExpression);
    assert ScanFrom(rule, ExprLevel, ts, 0) == SplitAt(1);
    assert ts[..1] == [Token.Number(a)] && ts[2..] == tail;
    if IsAdditive(o2) {
      ScanNoSplit(rule, TermLevel, tail, 0);
    } else {
      SingleNumber(rule, b);
      assert FactorOf(rule, [Token.Number(c)]) == Ok(Factor.Number(c));
      assert ScanFrom(rule, TermLevel, tail, 0) == SplitAt(1);
      assert tail[..1] == [Token.Number(b)] && tail[2..] == [Token.Number(c)];
    }
  }

  /** After `a * b` or `a / b` only an additive operator may follow. */
  lemma ChainMultiplicativeFirst(rule: GroupRule, a: nat, o1: Token, b: nat, o2: Token, c: nat)
    requires IsOperator(o1) && !IsAdditive(o1) && IsOperator(o2)
    ensures ExprOf(rule, [Token.Number(a), o1, Token.Number(b), o2, Token.Number(c)]).Ok? <==> IsAdditive(o2)
  {
    var ts := [Token.Number(a), o1, Token.Number(b), o2, Token.Number(c)];
    if IsAdditive(o2) {
      ProductThenSum(rule, a, o1, b, o2, c);
    } else {
      var tail := [Token.Number(b), o2, Token.Number(c)];
      SingleNumber(rule, a);
      assert FactorOf(rule, tail) == Err(ExpectedExpression);
      assert ScanFrom(rule, TermLevel, ts, 0) == SplitAt(1);
      assert ts[..1] == [Token.Number(a)] && ts[2..] == tail;
      ScanNoSplit(rule, ExprLevel, ts, 0);
    }
  }

  /** `a * b + c`: the sum splits at its `+`, and `a * b` is its left operand. */
  lemma ProductThenSum(rule: GroupRule, a: nat, o1: Token, b: nat, o2: Token, c: nat)
    requires IsOperator(o1) && !IsAdditive(o1) && IsAdditive(o2)
    ensures var product :=
              if o1 == Token.Mult then Term.Mult(Factor(Factor.Number(a)), Factor.Number(b))
              else Term.Div(Factor(Factor.Number(a)), Factor.Number(b));
            var last := Factor(Factor.Number(c));
            ExprOf(rule, [Token.Number(a), o1, Token.Number(b), o2, Token.Number(c)])
              == Ok(if o2 == Plus then Sum(Term(product), last) else Subtract(Term(product), last))
  {
    var ts := [Token.Number(a), o1, Token.Number(b), o2, Token.Number(c)];
    var head := [Token.Number(a), o1, Token.Number(b)];
    var product :=
      if o1 == Token.Mult then Term.Mult(Factor(Factor.Number(a)), Factor.Number(b))
      else Term.Div(Factor(Factor.Number(a)), Factor.Number(b));
    SingleNumber(rule, a);
    SingleNumber(rule, b);
    SingleNumber(rule, c);
    assert !SplitsAt(ExprLevel, ts, 1) && ts[1] != LeftPar;
    assert ScanFrom(rule, ExprLevel, ts, 2) == SplitAt(3);
    assert ScanFrom(rule, ExprLevel, ts, 0) == SplitAt(3);
    assert ts[..3] == head && ts[4..] == [Token.Number(c)];
    ScanNoSplit(rule, ExprLevel, head, 0);
    assert ScanFrom(rule, TermLevel, head, 0) == SplitAt(1);
    assert head[..1] == [Token.Number(a)] && head[2..] == [Token.Number(b)];
    assert FactorOf(rule, [Token.Number(b)]) == Ok(Factor.Number(b));
    assert TermOf(rule, head) == Ok(product);
    assert ExprOf(rule, head) == Ok(Term(product));
  }

}
