/** The tokenizer of src/tokenizer.rs: one line of text to a sequence of tokens. */
module Tokenizer {

  import opened Wrappers
  import opened Digits

  /** Number literals are unsigned 64-bit values; `tokenize` never produces a larger one. */
  datatype Token = Number(value: nat) | Plus | Minus | Mult | Div | LeftPar | RightPar

  /** The character index (not byte index) at which tokenizing failed. */
  datatype TokenizeError = TokenizeError(index: nat)

  /** Rust's `char::is_whitespace`: the Unicode White_Space property. */
  predicate IsWhitespace(c: char) {
    var n := c as int;
    (0x09 <= n <= 0x0D) || n == 0x20 || n == 0x85 || n == 0xA0 || n == 0x1680
    || (0x2000 <= n <= 0x200A) || n == 0x2028 || n == 0x2029 || n == 0x202F
    || n == 0x205F || n == 0x3000
  }

  /** The one-character tokens `+ - * / ( )`. */
  function SymbolToken(c: char): Option<Token> {
    match c
    case '+' => Some(Plus)
    case '-' => Some(Minus)
    case '*' => Some(Mult)
    case '/' => Some(Div)
    case '(' => Some(LeftPar)
    case ')' => Some(RightPar)
    case _ => None
  }

  /** A character that no rule of the tokenizer accepts. */
  predicate IsInvalidChar(c: char) {
    SymbolToken(c).None? && !IsAsciiDigit(c) && !IsWhitespace(c)
  }

  /** The end (exclusive) of the maximal run of ASCII digits that starts at index `i`. */
  function DigitRunEnd(line: string, i: nat): (j: nat)
    requires i <= |line|
    ensures i <= j <= |line| && AllDigits(line[i..j])
    ensures j < |line| ==> !IsAsciiDigit(line[j])
    decreases |line| - i
  {
    if i < |line| && IsAsciiDigit(line[i]) then DigitRunEnd(line, i + 1) else i
  }

  /** What one turn of the scan does: emit at most one token and move on, or fail. */
  datatype Step = Advance(produced: seq<Token>, next: nat) | Fail

  /**
   * One turn of the scan at index `i`: a symbol is one token; a digit starts a maximal digit
   * run that must fit in 64 bits; whitespace is skipped; anything else fails.
   */
  function NextStep(line: string, i: nat): (step: Step)
    requires i < |line|
    ensures step.Advance? ==> i < step.next <= |line| && |step.produced| <= 1
  {
    var c := line[i];
    if SymbolToken(c).Some? then Advance([SymbolToken(c).value], i + 1)
    else if IsAsciiDigit(c) then
      var j := DigitRunEnd(line, i);
      var v := DecimalValue(line[i..j]);
      if v > U64_MAX then Fail else Advance([Number(v)], j)
    else if IsWhitespace(c) then Advance([], i + 1)
    else Fail
  }

  /** Puts already produced tokens in front of the outcome of the rest of the scan. */
  function Prepend(ts: seq<Token>, r: Result<seq<Token>, TokenizeError>): Result<seq<Token>, TokenizeError> {
    match r
    case Ok(rest) => Ok(ts + rest)
    case Err(e) => Err(e)
  }

  /** What `tokenize` yields for `line` when the scan has reached character index `i`. */
  function Lex(line: string, i: nat): Result<seq<Token>, TokenizeError>
    requires i <= |line|
    decreases |line| - i
  {
    if i == |line| then Ok([])
    else
      match NextStep(line, i)
      case Fail => Err(TokenizeError(i))
      case Advance(produced, j) => Prepend(produced, Lex(line, j))
  }

  lemma PrependNothing(r: Result<seq<Token>, TokenizeError>)
    ensures Prepend([], r) == r
  {
    if r.Ok? {
      assert [] + r.value == r.value;
    }
  }

  lemma PrependPrepend(ts: seq<Token>, us: seq<Token>, r: Result<seq<Token>, TokenizeError>)
    ensures Prepend(ts, Prepend(us, r)) == Prepend(ts + us, r)
  {
    if r.Ok? {
      assert ts + (us + r.value) == (ts + us) + r.value;
    }
  }

  lemma DigitRunEndIs(line: string, i: nat, j: nat)
    requires i <= j <= |line| && AllDigits(line[i..j])
    requires j < |line| ==> !IsAsciiDigit(line[j])
    ensures DigitRunEnd(line, i) == j
    decreases j - i
  {
    if i < j {
      assert line[i..j][0] == line[i] && line[i..j][1..] == line[i + 1..j];
      DigitRunEndIs(line, i + 1, j);
    }
  }

  /**
   * `tokenize`: scan the line left to right with one character of lookahead, collecting
   * maximal digit runs into numbers and skipping whitespace.
   */
  method Tokenize(line: string) returns (r: Result<seq<Token>, TokenizeError>)
    ensures r == Lex(line, 0)
  {
    var tokens: seq<Token> := [];
    var i := 0;
    PrependNothing(Lex(line, 0));
    while i < |line|
      invariant 0 <= i <= |line|
      invariant Lex(line, 0) == Prepend(tokens, Lex(line, i))
    {
      var index, c := i, line[i];
      i := i + 1;
      var token: Token;
      if c == '+' {
        token := Plus;
      } else if c == '-' {
        token := Minus;
      } else if c == '*' {
        token := Mult;
      } else if c == '/' {
        token := Div;
      } else if c == '(' {
        token := LeftPar;
      } else if c == ')' {
        token := RightPar;
      } else if IsAsciiDigit(c) {
        var chars := [c];
        while i < |line|
          invariant index < i <= |line|
          invariant chars == line[index..i] && AllDigits(chars)
        {
          var peeked := line[i];
          if !IsAsciiDigit(peeked) {
            break;
          }
          chars := chars + [peeked];
          i := i + 1;
        }
        DigitRunEndIs(line, index, i);
        var n := ParseU64(chars);
        if n.None? {
          return Err(TokenizeError(index));
        }
        token := Number(n.value);
      } else if IsWhitespace(c) {
        PrependNothing(Lex(line, i));
        continue;
      } else {
        return Err(TokenizeError(index));
      }
      PrependPrepend(tokens, [token], Lex(line, i));
      tokens := tokens + [token];
    }
    assert tokens + [] == tokens;
    return Ok(tokens);
  }

  // ---------------------------------------------------------------------------
  // Properties of the tokenizer

  /** Every token consumes at least one character, so there are never more tokens than characters. */
  lemma {:induction false} LexTokenCount(line: string, i: nat)
    requires i <= |line|
    ensures Lex(line, i).Ok? ==> |Lex(line, i).value| <= |line| - i
    decreases |line| - i
  {
    if i < |line| && NextStep(line, i).Advance? {
      LexTokenCount(line, NextStep(line, i).next);
    }
  }

  /**
   * A failure points at or after the index the scan started from, either at a character no
   * rule accepts or at the first digit of a digit run whose value does not fit in 64 bits.
   */
  lemma {:induction false} LexErrorIndex(line: string, i: nat)
    requires i <= |line| && Lex(line, i).Err?
    ensures var k := Lex(line, i).error.index;
      i <= k < |line| &&
      (IsInvalidChar(line[k]) ||
       (IsAsciiDigit(line[k]) && (k == i || !IsAsciiDigit(line[k - 1])) &&
        DecimalValue(line[k..DigitRunEnd(line, k)]) > U64_MAX))
    decreases |line| - i
  {
    if NextStep(line, i).Advance? {
      var j := NextStep(line, i).next;
      LexErrorIndex(line, j);
      var k := Lex(line, j).error.index;
      if IsAsciiDigit(line[i]) && k == j {
        assert !IsAsciiDigit(line[j]);
      }
    }
  }

  /** A failure of a suffix scan, moved by `k` characters. */
  function Shift(r: Result<seq<Token>, TokenizeError>, k: nat): Result<seq<Token>, TokenizeError> {
    match r
    case Ok(ts) => Ok(ts)
    case Err(e) => Err(TokenizeError(e.index + k))
  }

  /** The outcome of scanning two consecutive pieces of a line: the first failure, or all tokens in order. */
  function Then(first: Result<seq<Token>, TokenizeError>, second: Result<seq<Token>, TokenizeError>): Result<seq<Token>, TokenizeError> {
    match first
    case Ok(ts) => Prepend(ts, second)
    case Err(e) => Err(e)
  }

  lemma DigitRunEndShift(p: string, s: string, j: nat)
    requires j <= |s|
    ensures DigitRunEnd(p + s, |p| + j) == |p| + DigitRunEnd(s, j)
  {
    var e := DigitRunEnd(s, j);
    assert (p + s)[|p| + j..|p| + e] == s[j..e];
    assert e < |s| ==> (p + s)[|p| + e] == s[e];
    DigitRunEndIs(p + s, |p| + j, |p| + e);
  }

  /** One step of the scan of a suffix, seen from the whole line: the same tokens, the index moved. */
  lemma NextStepShift(p: string, s: string, j: nat)
    requires j < |s|
    ensures NextStep(p + s, |p| + j)
      == match NextStep(s, j)
         case Fail => Fail
         case Advance(produced, next) => Advance(produced, |p| + next)
  {
    var line := p + s;
    assert line[|p| + j] == s[j];
    if IsAsciiDigit(s[j]) {
      DigitRunEndShift(p, s, j);
      assert line[|p| + j..|p| + DigitRunEnd(s, j)] == s[j..DigitRunEnd(s, j)];
    }
  }

  /** The scan of a line from inside it does not look back: it is the scan of the suffix, moved. */
  lemma {:induction false} LexSuffix(p: string, s: string, j: nat)
    requires j <= |s|
    ensures Lex(p + s, |p| + j) == Shift(Lex(s, j), |p|)
    decreases |s| - j
  {
    if j < |s| {
      NextStepShift(p, s, j);
      if NextStep(s, j).Advance? {
        LexSuffix(p, s, NextStep(s, j).next);
      }
    }
  }

  lemma ThenPrepend(ts: seq<Token>, first: Result<seq<Token>, TokenizeError>, second: Result<seq<Token>, TokenizeError>)
    ensures Then(Prepend(ts, first), second) == Prepend(ts, Then(first, second))
  {
    if first.Ok? {
      PrependPrepend(ts, first.value, second);
    }
  }

  /** Up to a cut that does not split a digit run, the scan of `a + b` is the scan of `a`. */
  lemma {:induction false} LexPrefix(a: string, b: string, i: nat)
    requires i <= |a|
    requires a == [] || b == [] || !IsAsciiDigit(a[|a| - 1]) || !IsAsciiDigit(b[0])
    ensures Lex(a + b, i) == Then(Lex(a, i), Lex(a + b, |a|))
    decreases |a| - i
  {
    var line := a + b;
    if i == |a| {
      PrependNothing(Lex(line, i));
    } else {
      assert line[i] == a[i];
      if IsAsciiDigit(a[i]) {
        var e := DigitRunEnd(a, i);
        assert line[i..e] == a[i..e];
        if e < |a| {
          assert line[e] == a[e];
        } else if b != [] {
          assert line[e] == b[0];
        }
        DigitRunEndIs(line, i, e);
      }
      if NextStep(a, i).Advance? {
        var step := NextStep(a, i);
        assert NextStep(line, i) == step;
        LexPrefix(a, b, step.next);
        ThenPrepend(step.produced, Lex(a, step.next), Lex(line, |a|));
      }
    }
  }

  /**
   * Tokenizing a line piece by piece: when the cut does not split a digit run, the tokens of
   * the line are those of the first piece followed by those of the second, and a failure is
   * the first piece's failure if it has one, else the second's at its place in the line.
   */
  lemma LexAppend(a: string, b: string)
    requires a == [] || b == [] || !IsAsciiDigit(a[|a| - 1]) || !IsAsciiDigit(b[0])
    ensures Lex(a + b, 0) == Then(Lex(a, 0), Shift(Lex(b, 0), |a|))
  {
    var line := a + b;
    var cut := |a|;
    LexPrefix(a, b, 0);
    LexSuffix(a, b, 0);
    assert Lex(line, cut) == Shift(Lex(b, 0), |a|);
  }

  /** A successful scan has met no character that the tokenizer rejects. */
  lemma {:induction false} LexOkAllValid(line: string, i: nat)
    requires i <= |line|
    ensures Lex(line, i).Ok? ==> forall k :: i <= k < |line| ==> !IsInvalidChar(line[k])
    decreases |line| - i
  {
    if i < |line| && Lex(line, i).Ok? {
      match NextStep(line, i)
      case Advance(produced, j) =>
        LexOkAllValid(line, j);
        if IsAsciiDigit(line[i]) {
          forall k | i <= k < j ensures !IsInvalidChar(line[k]) {
            assert line[i..j][k - i] == line[k];
          }
        }
    }
  }

  /**
   * The first rejected character is the one reported: if everything before index `k`
   * scans and the character at `k` is rejected, the whole line fails at `k`.
   */
  lemma InvalidCharFails(line: string, k: nat)
    requires k < |line| && IsInvalidChar(line[k]) && Lex(line[..k], 0).Ok?
    ensures Lex(line, 0) == Err(TokenizeError(k))
  {
    var a, b := line[..k], line[k..];
    assert a + b == line;
    assert b[0] == line[k];
    LexAppend(a, b);
  }

  /**
   * A digit run too large for `u64` is reported at its first digit: if everything
   * before the run scans, the whole line fails at the run's start.
   */
  lemma OverflowRunFails(line: string, k: nat)
    requires k < |line| && IsAsciiDigit(line[k]) && (k == 0 || !IsAsciiDigit(line[k - 1]))
    requires DecimalValue(line[k..DigitRunEnd(line, k)]) > U64_MAX && Lex(line[..k], 0).Ok?
    ensures Lex(line, 0) == Err(TokenizeError(k))
  {
    var a, b := line[..k], line[k..];
    assert a + b == line;
    assert b[0] == line[k];
    DigitRunEndShift(a, b, 0);
    var e := DigitRunEnd(b, 0);
    assert b[0..e] == line[k..DigitRunEnd(line, k)];
    assert NextStep(b, 0) == Fail;
    LexAppend(a, b);
  }

  /** The text of one token, as a user would type it. */
  function TokenText(t: Token): (s: string)
    ensures |s| > 0
  {
    match t
    case Number(n) => DecimalString(n)
    case Plus => "+"
    case Minus => "-"
    case Mult => "*"
    case Div => "/"
    case LeftPar => "("
    case RightPar => ")"
  }

  /** Writes the tokens out, each followed by one space. */
  function Render(ts: seq<Token>): string {
    if ts == [] then "" else TokenText(ts[0]) + " " + Render(ts[1..])
  }

  predicate FitsU64(ts: seq<Token>) {
    forall k :: 0 <= k < |ts| && ts[k].Number? ==> ts[k].value <= U64_MAX
  }

  /** A rendered token followed by a space scans back to exactly that token. */
  lemma LexTokenText(t: Token)
    requires t.Number? ==> t.value <= U64_MAX
    ensures Lex(TokenText(t) + " ", 0) == Ok([t])
  {
    var text := TokenText(t);
    var line := text + " ";
    var n := |text|;
    assert line[n] == ' ';
    assert Lex(line, n + 1) == Ok([]);
    PrependNothing(Lex(line, n + 1));
    assert Lex(line, n) == Ok([]);
    if t.Number? {
      assert line[0..n] == text;
      DigitRunEndIs(line, 0, n);
      DecimalRoundTrip(t.value);
    } else {
      assert line[0] == text[0];
    }
    assert [t] + [] == [t];
  }

  /**
   * Tokenizing is the inverse of writing tokens out: symbols map back to their tokens, a
   * rendered number is read back as one maximal digit run with its value, and the separating
   * whitespace produces nothing.
   */
  lemma {:induction false} RenderRoundTrip(ts: seq<Token>)
    requires FitsU64(ts)
    ensures Lex(Render(ts), 0) == Ok(ts)
    decreases |ts|
  {
    if ts == [] {
    } else {
      var t, tail := ts[0], ts[1..];
      assert FitsU64(tail) by {
        forall k | 0 <= k < |tail| && tail[k].Number? ensures tail[k].value <= U64_MAX {
          assert tail[k] == ts[k + 1];
        }
      }
      var head := TokenText(t) + " ";
      assert Render(ts) == head + Render(tail);
      RenderRoundTrip(tail);
      LexTokenText(t);
      LexAppend(head, Render(tail));
      assert [t] + tail == ts;
    }
  }

  /** The line of the unit test in src/tokenizer.rs. */
  const ExampleLine: string := "1+123*(12/234)"

  /** The tokens the unit test in src/tokenizer.rs expects for `ExampleLine`. */
  const ExampleTokens: seq<Token> :=
    [Number(1), Plus, Number(123), Mult, LeftPar, Number(12), Div, Number(234), RightPar]

  /** `1+`, the first piece of `ExampleLine`. */
  lemma ExampleHead()
    ensures Lex("1+", 0) == Ok([Number(1), Plus])
  {
    var line := "1+";
    assert line[0..1] == "1" && "1"[..0] == "";
    DigitRunEndIs(line, 0, 1);
    assert NextStep(line, 0) == Advance([Number(1)], 1);
    assert [Plus] + [] == [Plus] && [Number(1)] + [Plus] == [Number(1), Plus];
    assert Lex(line, 1) == Ok([Plus]);
  }

  /** `123*(`, the second piece of `ExampleLine`. */
  lemma ExampleProduct()
    ensures Lex("123*(", 0) == Ok([Number(123), Mult, LeftPar])
  {
    var line := "123*(";
    assert line[0..3] == "123" && "123"[..2] == "12" && "12"[..1] == "1" && "1"[..0] == "";
    DigitRunEndIs(line, 0, 3);
    assert NextStep(line, 0) == Advance([Number(123)], 3);
    assert [LeftPar] + [] == [LeftPar] && [Mult] + [LeftPar] == [Mult, LeftPar];
    assert [Number(123)] + [Mult, LeftPar] == [Number(123), Mult, LeftPar];
    assert Lex(line, 4) == Ok([LeftPar]);
    assert Lex(line, 3) == Ok([Mult, LeftPar]);
  }

  /** `12/`, the third piece of `ExampleLine`. */
  lemma ExampleQuotient()
    ensures Lex("12/", 0) == Ok([Number(12), Div])
  {
    var line := "12/";
    assert line[0..2] == "12" && "12"[..1] == "1" && "1"[..0] == "";
    DigitRunEndIs(line, 0, 2);
    assert NextStep(line, 0) == Advance([Number(12)], 2);
    assert [Div] + [] == [Div] && [Number(12)] + [Div] == [Number(12), Div];
    assert Lex(line, 2) == Ok([Div]);
  }

  /** `234)`, the last piece of `ExampleLine`. */
  lemma ExampleDivisor()
    ensures Lex("234)", 0) == Ok([Number(234), RightPar])
  {
    var line := "234)";
    assert line[0..3] == "234" && "234"[..2] == "23" && "23"[..1] == "2" && "2"[..0] == "";
    DigitRunEndIs(line, 0, 3);
    assert NextStep(line, 0) == Advance([Number(234)], 3);
    assert [RightPar] + [] == [RightPar] && [Number(234)] + [RightPar] == [Number(234), RightPar];
    assert Lex(line, 3) == Ok([RightPar]);
  }

  /** `ExampleLine` and `ExampleTokens` are the four pieces put together. */
  lemma ExampleSplit()
    ensures "1+" + ("123*(" + ("12/" + "234)")) == ExampleLine
    ensures [Number(1), Plus] + ([Number(123), Mult, LeftPar] + ([Number(12), Div] + [Number(234), RightPar]))
      == ExampleTokens
  {
  }

  /** The unit test of src/tokenizer.rs: the nine tokens of `1+123*(12/234)`, in source order. */
  lemma TokenizeExample()
    ensures Lex(ExampleLine, 0) == Ok(ExampleTokens)
  {
    var a, b, c, d := "1+", "123*(", "12/", "234)";
    ExampleHead();
    ExampleProduct();
    ExampleQuotient();
    ExampleDivisor();
    LexAppend(c, d);
    LexAppend(b, c + d);
    LexAppend(a, b + (c + d));
    ExampleSplit();
  }

  /** The unit test of src/tokenizer.rs: `1+asd*(12/234)` fails at character index 2, the `a`. */
  lemma TokenizeErrorExample()
    ensures Lex("1+asd*(12/234)", 0) == Err(TokenizeError(2))
  {
    var line := "1+asd*(12/234)";
    assert NextStep(line, 2) == Fail;
    assert Lex(line, 2) == Err(TokenizeError(2));
    assert NextStep(line, 1) == Advance([Plus], 2);
    assert line[0..1] == "1" && "1"[..0] == "";
    DigitRunEndIs(line, 0, 1);
    assert NextStep(line, 0) == Advance([Number(1)], 1);
  }
}
