# Yet Another Command Line Calculator — the core, modelled in Dafny

The calculator reads one line at a time. It trims the line. If the line is one of
the command words (`exit`, `vars`, `dec`, `hex`, `bin`, `clear`), it runs that
command against the runtime variables. Otherwise the line goes through three
stages:

- the **tokenizer** turns characters into `Number`, `+`, `-`, `*`, `/`, `(`, `)`;
- the **parser** builds an `Expr → Term → Factor` tree from the tokens;
- the **evaluator** reduces the tree to an integer.

The built-in `sqrt` function and the display-mode and `clear` commands complete
the core.

The project has one module per core source file, and two helper modules
(`Digits` and `Wrappers`) that match no source file:

- `Digits` (`digits.dfy`), a helper: decimal digit runs, and the checked
  `u64` parse (`str::parse::<u64>`) that the tokenizer calls.
- `Tokenizer` (`tokenizer.dfy`):
  - `Lex` is the specification. It is a recursive scan from a character index.
  - The `Tokenize` method keeps the source's loop, including its inner peek
    loop over a digit run. It is proved equal to `Lex`.
  - The lemmas give the error position, a round trip through rendered tokens,
    and how scanning distributes over concatenation.
- `Parser` (`parser.dfy`):
  - `ExprOf`, `TermOf` and `FactorOf` are the specification. Each splits its
    slice at the first operator of its level that a left-to-right scan meets.
  - `ParseExpr`, `ParseTerm` and `MatchingParenthesis` keep the source's
    loops. `ParseFactor` keeps the source's case analysis, which has no loop.
    Each is proved equal to the specification.
  - The scan handles a parenthesised group according to a `GroupRule`:
    `AsWritten` follows the code and `Intended` is the corrected rule (see
    "## Findings").
- `Evaluator` (`evaluator.dfy`): the tree walk. Division truncates toward zero,
  like Rust's `/` on `i64`. A zero divisor yields `None`, which stands for the
  panic.
- `Functions` (`functions.dfy`): the function table and `sqrt_func`, which has
  an arity check, a sign check and a floor square root.
- `Commands` (`commands.dfy`):
  - The command table.
  - `Run`, the effect of a command on the settings as a value.
  - The `RuntimeVariables` class. Its methods update `display_mode` and `vars`
    in place, and each is proved to agree with `Run`.
- `Repl` (`repl.dfy`): the per-line dispatch of `src/main.rs`.
  - `Trim` models Rust's `str::trim`.
  - A lookup in the command table either runs the command or hands the trimmed
    text to the calculation.
  - `Calculate` chains the tokenizer, the parser and the evaluator.
- `Wrappers` (`wrappers.dfy`), a helper: `Option` and `Result`.

Some behaviour of the parser is worth knowing:

- **Unary minus.** The expression scan splits at the first `+`, or the first
  `-` at an index above 0, that it meets (src/parser.rs:29-42, with the index
  test at :37). Negation only happens in `parse_factor` (src/parser.rs:107),
  and there it repeats: `-` followed by a factor is that factor negated. So a
  minus is a negation exactly when it ends up at the start of a factor:
  - At the start of the right operand of the first `+` or `-`, any number of
    minus signs are negations. For example, `1+--5` parses to a doubly negated
    5 (`Parser.SumOfMinusRun`).
  - `--5` at the start of an expression is split at its second minus, and the
    lone `-` on the left fails with "Expected Number"
    (`Parser.DoubleMinusRejected`).
  - A minus right after `*` or `/` is the expression split when no `+` or `-`
    comes before it in the slice. The left part `a *` then ends in an empty
    factor, so `2*-5` and `2*--5` fail with "Expected Number"
    (`Parser.NegatedOperandRejected`).
  - When a `+` comes earlier, the split is at that `+`, and the minus after
    `*` or `/` starts a factor. So `1+2*-5` parses, with `-5` as a negated
    factor (`Parser.NegatedOperandAfterSum`).
- **Chains of operators.** `1+2+3` and `1*2*3` are rejected
  (src/parser.rs:29-42 and 70-81). After the first split, the right-hand part
  goes to the next tighter level, which cannot contain another operator of the
  same level (`Parser.ChainOfTwo`).

## Model

| member | source | states |
|---|---|---|
| Digits.ParseU64 | src/tokenizer.rs:45-47 | the checked digit-by-digit accumulation, which stops at the first overflow, succeeds exactly on a non-empty run whose decimal value is at most 2^64-1, and then yields that value |
| Digits.DecimalString | src/functions.rs:22-27 | the numeral of a number has no leading zero (the form `Display` prints) |
| Digits.DecimalRoundTrip | src/tokenizer.rs:33-49 | the decimal digits of any natural number read back as that number, so every `u64` has a spelling the digit-run rule accepts |
| Tokenizer.DigitRunEnd | src/tokenizer.rs:38-44 | the inner peek loop stops at the end of the maximal run of ASCII digits: everything before it is a digit and the character at it is not |
| Tokenizer.NextStep | src/tokenizer.rs:26-55 | one step of the scan consumes at least one character and emits at most one token |
| Tokenizer.Tokenize | src/tokenizer.rs:21-62 | the loop, with its inner digit loop, returns exactly what the scan specification `Lex` gives for the whole line |
| Tokenizer.LexTokenCount | src/tokenizer.rs:25-59 | a successful scan yields no more tokens than there are characters |
| Tokenizer.LexOkAllValid | src/tokenizer.rs:53-55 | a successful scan has met no rejected character |
| Tokenizer.InvalidCharFails | src/tokenizer.rs:53-55 | if everything before index k scans and the character at k is rejected, the line fails at exactly k |
| Tokenizer.OverflowRunFails | src/tokenizer.rs:45-47 | if everything before a digit run scans and the run's value exceeds `u64`, the line fails at the run's first digit |
| Tokenizer.LexErrorIndex | src/tokenizer.rs:45-55 | a failure points inside the line, either at a character no rule accepts or at the first digit of a run whose value exceeds `u64` |
| Tokenizer.LexSuffix | src/tokenizer.rs:25-59 | scanning a suffix inside a longer line gives the same tokens, with error positions shifted by the prefix length |
| Tokenizer.LexPrefix | src/tokenizer.rs:25-59 | when the cut does not split a digit run, scanning `a + b` is scanning `a` and then continuing at the cut; an error in `a` is reported first |
| Tokenizer.LexAppend | src/tokenizer.rs:25-59 | when the cut does not split a digit run, the tokens of `a + b` are those of `a` followed by those of `b`, and an error in `b` is shifted by the length of `a` |
| Tokenizer.LexTokenText | src/tokenizer.rs:26-52 | each token's own text, followed by a space, scans back to exactly that token |
| Tokenizer.RenderRoundTrip | src/tokenizer.rs:21-62 | every token sequence whose numbers fit in `u64`, written out with spaces, tokenizes back to itself |
| Tokenizer.TokenizeExample | src/tokenizer.rs:75-90 | `1+123*(12/234)` tokenizes to the nine tokens of the unit test |
| Tokenizer.TokenizeErrorExample | src/tokenizer.rs:93-95 | `1+asd*(12/234)` fails at index 2, the first invalid character |
| Parser.Group | src/parser.rs:139-152 | a group that closes ends just after a `)` inside the slice |
| Parser.GroupFirstReturn | src/parser.rs:139-152 | a group that closes ends at the first point where the depth returns to zero; an unclosed group never lets the depth fall below one |
| Parser.GroupCloses | src/parser.rs:139-152 | conversely, if the depth first returns to zero at a `)`, the group ends just after it |
| Parser.WrappedGroupCloses | src/parser.rs:139-152 | `(` + a balanced slice + `)` closes exactly at its last token |
| Parser.MatchingParenthesis | src/parser.rs:139-152 | the depth-counting loop reports an unclosed group exactly when `Group` finds none, and otherwise returns the index just past the closing `)` |
| Parser.ScanFrom | src/parser.rs:29-54 | a split index lies inside the slice and holds an operator of the level; under the code's rule, no earlier token is such an operator or a `(` |
| Parser.ScanNoSplit | src/parser.rs:29-57 | a slice with no operator of the level and no `(` is parsed whole at the next tighter level |
| Parser.ParseExpr | src/parser.rs:26-58 | the scan-and-split loop returns exactly the tree or error of the `ExprOf` specification |
| Parser.ParseTerm | src/parser.rs:60-97 | the `*`/`/` scan-and-split loop returns exactly the tree or error of the `TermOf` specification |
| Parser.ParseFactor | src/parser.rs:99-123 | the factor cases (empty, number, minus, group, other) return exactly the result of the `FactorOf` specification |
| Parser.ExprRoundTrip | src/parser.rs:26-58 | the tree of a successful expression parse, written back as tokens, is the input slice |
| Parser.TermRoundTrip | src/parser.rs:60-97 | the tree of a successful term parse, written back as tokens, is the input slice |
| Parser.FactorRoundTrip | src/parser.rs:99-123 | the tree of a successful factor parse, written back as tokens, is the input slice |
| Parser.ExprBalanced | src/parser.rs:5-24 | the tokens of every expression tree have balanced parentheses |
| Parser.LeadingParenRejected | src/parser.rs:43-48 | under the code's rule, every token slice that starts with `(` fails to parse as an expression |
| Parser.UnclosedParenRejected | src/parser.rs:43-48 | a slice that starts with an unclosed `(` fails to parse as an expression |
| Parser.ParenthesisAccepted | src/parser.rs:108-118 | under the corrected rule, `(` + a parsable expression + `)` parses to that expression in parentheses |
| Parser.GroupedProductRejected | src/parser.rs:43-48 | under the code's rule, the tokens of `(1+2)*3` fail with "Expected `)`" |
| Parser.GroupedProductAccepted | src/parser.rs:82-88 | under the corrected rule, the tokens of `(1+2)*3` parse to the product of the grouped sum and 3 |
| Parser.GroupedSum | src/parser.rs:108-118 | under the corrected rule, the tokens of `(1+2)` parse as one parenthesised factor |
| Parser.ParserExample | src/parser.rs:158-184 | under either rule, the test's tokens parse to `Sum(1, Mult(123, Parenthesis(Div(12, 234))))` |
| Parser.SingleNumber | src/parser.rs:106 | a lone number parses as a term and as an expression |
| Parser.FactorMinusRun | src/parser.rs:107 | a factor of n minus signs before a number parses to that number negated n times |
| Parser.SumOfMinusRun | src/parser.rs:29-42 | `a + -…-v` splits at the `+`, and its right part is the repeatedly negated number |
| Parser.DoubleMinusRejected | src/parser.rs:37 | `--v` at the start of an expression is split at the second minus and fails with "Expected Number" |
| Parser.NegatedOperandRejected | src/parser.rs:37 | `a * -…-v` and `a / -…-v` fail with "Expected Number", because the first minus is taken as a subtraction |
| Parser.NegatedOperandAfterSum | src/parser.rs:29-42 | `a + b * -v` and `a + b / -v` parse: the split is at the `+`, and the minus negates `v` in the right operand's factor |
| Parser.ChainOfTwo | src/parser.rs:29-42 | `a o1 b o2 c` parses exactly when one operator is additive and the other multiplicative; a chain at one level is rejected |
| Parser.ChainAdditiveFirst | src/parser.rs:29-42 | with `+`/`-` first, the chain parses exactly when the second operator is `*` or `/` |
| Parser.ChainMultiplicativeFirst | src/parser.rs:70-81 | with `*`/`/` first, the chain parses exactly when the second operator is `+` or `-` |
| Parser.ProductThenSum | src/parser.rs:29-42 | `a * b + c` and `a / b - c` (any such mix) parse to the sum or difference whose left operand is the product or quotient of `a` and `b` and whose right operand is `c` |
| Evaluator.TruncDiv | src/evaluator.rs:14 | the quotient's magnitude is the quotient of the magnitudes, and its sign is positive only for operands of equal sign |
| Evaluator.TruncDivRemainder | src/evaluator.rs:14 | the remainder is smaller in magnitude than the divisor and has the sign of the dividend |
| Evaluator.TruncDivUnique | src/evaluator.rs:14 | the truncating quotient is the only integer with such a remainder |
| Evaluator.TruncDivNegateDividend | src/evaluator.rs:14 | negating the dividend negates the quotient |
| Evaluator.TruncDivNegateDivisor | src/evaluator.rs:14 | negating the divisor negates the quotient |
| Evaluator.EvalNumber | src/evaluator.rs:21 | a lone number evaluates to itself |
| Evaluator.EvalNegated | src/evaluator.rs:23 | n negations of a factor evaluate to the factor's value times (-1)^n, and fail exactly when the factor does |
| Evaluator.SingleOperator | src/evaluator.rs:3-17 | under either rule, `a op b` parses, and it evaluates to the sum, difference, product or truncating quotient, or to None for division by zero |
| Functions.LookupFunction | src/functions.rs:7-9 | the table knows exactly the name `sqrt` |
| Functions.LookupBuiltInName | src/functions.rs:7-9 | each built-in is found under its own name |
| Functions.IntText | src/functions.rs:22-27 | the text of a number is its decimal digits with no leading zero, with a leading `-` for a negative one |
| Functions.FloorSqrt | src/functions.rs:29 | the result r satisfies r² ≤ n < (r+1)² |
| Functions.FloorSqrtUnique | src/functions.rs:29 | only one natural number satisfies r² ≤ n < (r+1)² |
| Functions.SqrtFunc | src/functions.rs:11-30 | a call without exactly one argument fails with the arity error; a negative argument fails with a message that ends in its decimal text; otherwise the result is the floor square root |
| Functions.ArityBeforeSign | src/functions.rs:12-27 | with two negative arguments, the arity error wins over the sign error |
| Commands.LookupCommand | src/commands.rs:18-25 | the table knows exactly the six command words, each under its own name |
| Commands.LookupCommandName | src/commands.rs:18-25 | each command is found under its own name |
| Commands.Run | src/commands.rs:27-53 | `dec`, `hex` and `bin` set the display mode and keep the variables; `clear` empties the variables and keeps the mode; `exit` and `vars` leave the settings alone |
| Commands.RunIdempotent | src/commands.rs:37-53 | running a command twice is the same as running it once |
| Commands.ClearCommutes | src/commands.rs:37-53 | `clear` commutes with every command |
| Commands.LastModeWins | src/commands.rs:37-47 | of two display-mode commands in a row, only the second one counts |
| Commands.RuntimeVariables.constructor | src/main.rs:18-21 | a session starts with no variables and the decimal display mode |
| Commands.RuntimeVariables.DecDisplayMode | src/commands.rs:37-39 | sets the mode to decimal, keeps the variables, and agrees with `Run` |
| Commands.RuntimeVariables.HexDisplayMode | src/commands.rs:41-43 | sets the mode to hexadecimal, keeps the variables, and agrees with `Run` |
| Commands.RuntimeVariables.BinDisplayMode | src/commands.rs:45-47 | sets the mode to binary, keeps the variables, and agrees with `Run` |
| Commands.RuntimeVariables.ClearFunction | src/commands.rs:49-53 | empties the variables, keeps the mode, and agrees with `Run` |
| Commands.RuntimeVariables.Execute | src/main.rs:31-32 | running a command from the table changes the settings exactly as `Run` says |
| Repl.Trim | src/main.rs:29 | the trimmed line neither starts nor ends with whitespace and is no longer than the line |
| Repl.TrimPadded | src/main.rs:29 | surrounding a trimmed text with whitespace and trimming again gives the text back |
| Repl.TrimIdempotent | src/main.rs:29 | trimming twice is trimming once |
| Repl.Dispatch | src/main.rs:29-36 | a line runs a command exactly when its trimmed text is a command word, and otherwise the trimmed text is calculated |
| Repl.HandleLine | src/main.rs:29-36 | a command line changes the settings as `Run` says; a calculation line leaves the display mode and variables unchanged in this model |
| Repl.CommandWordsDoNotTokenize | src/main.rs:31-34 | no command word is a valid expression: each fails to tokenize at index 0 |
| Repl.InvalidFirstCharacter | src/tokenizer.rs:53-55 | a line that starts with a letter that opens a command word fails at index 0 |
| Repl.CalculateExample | src/main.rs:34-36 | under either rule, `1+123*(12/234)` evaluates to 1, because 12/234 truncates to 0 |
| Repl.CalculateSingleOperator | src/main.rs:34-36 | a rendered `a op b` runs through all three stages to the arithmetic result of the operator |

## Left out

- The evaluator's `i64` arithmetic is not modelled. Numbers are unbounded
  integers, and `n as i64` (src/evaluator.rs:21) does not wrap for values above
  2^63-1. An overflowing `+`, `-` or `*` panics in a debug build and wraps in a
  release build; the model computes the exact value instead.
- Division by zero: the evaluator yields `None` where the source panics. The model does not otherwise distinguish the panic.
- `parse_assignment`, `eval_assignment` and `print_variable` are not part of
  this model. `Repl.Calculate` chains `tokenize`, `parse_expr` and `eval_expr`,
  which are the expression stages of that path, and never writes a variable.
- Repl.HandleLine: it states no change to the runtime variables on a
  calculation line, because the assignment step that writes them is left out.
- `exit` and `vars` are modelled only as leaving the settings unchanged. The
  process exit, the printing of the variables, and the terminal-clear escape
  sequence printed by `clear` are I/O.
- The read loop, `read_line` and its error path, and all output formatting
  (decimal, hexadecimal and binary printing) are I/O and are not modelled.
- The texts of the `Display` implementations and the error messages are
  represented by error variants. The one exception is the sign message of
  `sqrt_func`, whose suffix is modelled.
- `special_function.rs` and `error.rs` are not part of this model.
- The `phf` map internals are replaced by a lookup function over the same
  keys. The `BigInt::sqrt` algorithm is replaced by a recursive floor square
  root with the same specification.
- `BigUint` and `BigInt` are modelled as `nat` and `int`. The `HashMap` of
  variables is a `map<string, int>`.
- Characters are Unicode scalar values (`char`). The tokenizer's index counts
  characters, as `chars().enumerate()` does, not bytes.
- The trimming uses the Unicode `White_Space` set, as Rust's `str::trim` does.

## Findings

| source | as written | input that shows it | evidently intended | confidence | as-written member | corrected member |
|---|---|---|---|---|---|---|
| src/parser.rs:139-152 with its callers at 43-48 and 82-88 | `matching_paranthesis` returns `left_count > 0`, which is true when the group is still open at the end of the slice. Both callers then report "Expected `)`" when it returns false, that is, when the group did close. | the tokens of `(1+2)*3`, or any slice that starts with `(` | skip a balanced group and report "Expected `)`" only for a group that never closes | not executed | Parser.GroupedProductRejected (in general Parser.LeadingParenRejected) | Parser.GroupedProductAccepted (in general Parser.ParenthesisAccepted) |

The corrected rule is the `Intended` value of `Parser.GroupRule`. The
rule-generic lemmas (the round trips, `ChainOfTwo`, `SingleOperator`,
`ParserExample`) and `Repl.Calculate` hold for both rules. The parser methods
keep the code as written.
