/**
 * The built-in function table of src/functions.rs: one entry, `sqrt`, which
 * checks its argument count, then the argument's sign, and returns the
 * integer (floor) square root.
 */
module Functions {
  import opened Wrappers
  import opened Digits

  datatype CalcError =
    | WrongArgumentCount(name: string, expected: nat, actual: nat)
    | InvalidFunctionArgument(message: string)

  /** The entries of the function table. */
  datatype BuiltIn = Sqrt

  function BuiltInName(f: BuiltIn): string
  {
    match f
    case Sqrt => "sqrt"
  }

  /** Look a name up in the table: only "sqrt" is present. */
  function LookupFunction(name: string): (r: Option<BuiltIn>)
    ensures r.Some? <==> name == "sqrt"
    ensures r.Some? ==> BuiltInName(r.value) == name
  {
    if name == "sqrt" then Some(Sqrt) else None
  }

  lemma LookupBuiltInName(f: BuiltIn)
    ensures LookupFunction(BuiltInName(f)) == Some(f)
  {
  }

  /** The decimal text of a signed integer, with a leading `-` when negative. */
  function IntText(x: int): (s: string)
    ensures x >= 0 ==> AllDigits(s) && DecimalValue(s) == x
    ensures x < 0 ==> |s| > 0 && s[0] == '-' && AllDigits(s[1..]) && DecimalValue(s[1..]) == -x
    ensures x >= 0 ==> |s| > 0 && (|s| == 1 || s[0] != '0')
    ensures x < 0 ==> |s| == 2 || s[1] != '0'
  {
    DecimalRoundTrip(if x < 0 then -x else x);
    if x < 0 then
      assert ("-" + DecimalString(-x))[1..] == DecimalString(-x);
      "-" + DecimalString(-x)
    else DecimalString(x)
  }

  const NegativeArgumentPrefix: string := "sqrt function does not take negative argument. Passed "

  lemma SquareMonotone(x: nat, y: nat)
    requires x <= y
    ensures x * x <= y * y
  {
    assert y * y - x * x == (y - x) * (y + x);
  }

  /** Doubling the root of `n / 4` gives a root of `n` to within one. */
  lemma DoubledRoot(n: nat, h: nat)
    requires h * h <= n / 4 < (h + 1) * (h + 1)
    ensures (2 * h) * (2 * h) <= n < (2 * h + 2) * (2 * h + 2)
  {
    var q := n / 4;
    var lo := h * h;
    var hi := (h + 1) * (h + 1);
    assert (2 * h) * (2 * h) == 4 * lo;
    assert (2 * h + 2) * (2 * h + 2) == 4 * hi;
    assert n < 4 * q + 4;
  }

  /** The largest `r` with `r * r <= n`. */
  function FloorSqrt(n: nat): (r: nat)
    ensures r * r <= n < (r + 1) * (r + 1)
  {
    if n < 2 then n
    else
      var h := FloorSqrt(n / 4);
      DoubledRoot(n, h);
      var s := 2 * h;
      assert (s + 2) * (s + 2) == (2 * h + 2) * (2 * h + 2);
      if (s + 1) * (s + 1) <= n then s + 1 else s
  }

  /** Only the floor square root satisfies the bounds `FloorSqrt` ensures. */
  lemma FloorSqrtUnique(n: nat, r: nat)
    requires r * r <= n < (r + 1) * (r + 1)
    ensures r == FloorSqrt(n)
  {
    var s := FloorSqrt(n);
    if r < s {
      SquareMonotone(r + 1, s);
    } else if s < r {
      SquareMonotone(s + 1, r);
    }
  }

  /**
   * The `sqrt` entry: any argument count other than one is reported first,
   * then a negative argument (the message ends with the number passed), and
   * otherwise the floor square root is returned.
   */
  function SqrtFunc(inputs: seq<int>): (r: Result<int, CalcError>)
    ensures |inputs| != 1 ==> r == Err(WrongArgumentCount("sqrt", 1, |inputs|))
    ensures |inputs| == 1 && inputs[0] < 0 ==>
      r.Err? && r.error.InvalidFunctionArgument? &&
      NegativeArgumentPrefix <= r.error.message &&
      r.error.message[|NegativeArgumentPrefix|..] == IntText(inputs[0])
    ensures |inputs| == 1 && inputs[0] >= 0 ==>
      r.Ok? && r.value >= 0 && r.value * r.value <= inputs[0] < (r.value + 1) * (r.value + 1)
  {
    if |inputs| != 1 then
      Err(WrongArgumentCount("sqrt", 1, |inputs|))
    else
      var num := inputs[0];
      if num < 0 then
        Err(InvalidFunctionArgument(NegativeArgumentPrefix + IntText(num)))
      else
        Ok(FloorSqrt(num))
  }

  /** Calls a table entry with its arguments. */
  function CallBuiltIn(f: BuiltIn, inputs: seq<int>): Result<int, CalcError>
  {
    match f
    case Sqrt => SqrtFunc(inputs)
  }

  /** Two negative arguments are a wrong argument count, not a negative argument. */
  lemma ArityBeforeSign(x: int, y: int)
    requires x < 0 && y < 0
    ensures CallBuiltIn(Sqrt, [x, y]) == Err(WrongArgumentCount("sqrt", 1, 2))
  {
  }
}
