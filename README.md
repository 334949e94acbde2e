# A verified model of the arithmetic pipeline

This project is a Dafny model of the three stages of a small arithmetic
language: the tokenizer (`src/modules/lexer.ts`), the recursive-descent
parser (`src/modules/parser.ts`) and the tree-walking evaluator
(`src/runtime/interpreter.ts`). A further module composes them the way the
command loop in `main.ts` does for each line.

- **Tokenizer** (`lexer.dfy`, module `Lexer`). `ScanStep` describes one
  iteration of the scanning loop, and `Scan`/`Tokenized` describe the whole
  loop.
  - The imperative `Tokenize` keeps the source's mutable index, its
    one-character lookahead and its inner loops for digit runs and words.
    It is proved to compute `Tokenized` exactly.
  - Lemmas then state what the output looks like:
    - exactly one end-of-file token, at the end;
    - one token per punctuation character, digit run or word;
    - two-character operators;
    - which characters are dropped and which are reported;
    - the token texts put back together give the source without those
      characters.
  - `lexemes.dfy` (module `Lexemes`) lifts the step lemmas to whole lines
    that are made of separate lexemes.
- **Parser** (`parser.dfy`, module `Parsing`). Functions
  `ParseComparison`, `ParseAdditive`, `ParseMultiplicative` and
  `ParsePrimary` describe the four precedence tiers on a token sequence.
  - Class `Parser` keeps the tokens in a field, as the source does. Its
    methods shift tokens from the front and loop over the operators of
    each tier.
  - Each method is proved to return exactly what its tier function
    returns, and to leave exactly the tokens that function leaves.
  - A parse failure, which the source handles by printing and exiting the
    process, is a `ParseError` value, and it names the offending token.
- **What parsing means** (`parser_properties.dfy`).
  - `Show` prints a tree with the fewest parentheses its precedences need.
  - `RoundTrip` proves that parsing those tokens gives the same tree back.
    Precedence, left association and the brackets a tree needs follow from
    it, and so do the tokens left in place after the expression.
  - Redundant brackets, such as `(3)` or `((1 + 2))`, are not `Show`
    output. What a bracketed expression parses to follows from
    `PrimaryParen` and `Closed` instead.
- **Evaluator** (`interpreter.dfy`, module `Interpreter`). These are pure
  functions that return a value or an `EvalError`: the division-by-zero
  error, or an error for a node kind the evaluator has no case for.
  - Lemmas cover when evaluation fails and which error wins.
  - The static type of every value can be read off the tree.
  - They also cover how operands that are not numbers make a node null,
    the comparison laws, and the arithmetic laws.
- **Numbers** (`jsnumbers.dfy`). A JavaScript number is an exact real or
  NaN. `%` truncates toward zero, as JavaScript's does. Every comparison
  with NaN is false, except `!=`, which is true.
- **One line, end to end** (`pipeline.dfy`, module `Pipeline`). `Run`
  parses a line, then evaluates it.
  - Every line of the parser tests is worked from its text through all
    three stages: `3 + 2`, `5 - 3`, `3 * 4`, `(3 + 2) * 4`, `3 == 3`,
    `5 > 2`, `myVar`, `null`, and the failing `(42`. So are `5 / 0`,
    `null + 1` and `5 != 3`.
  - The lexer tests' lines `(){};`, `123 456`, `let x;`, `42 - 3`,
    `(3 * 2)` and `@42;` are tokenized from their text, and the empty line
    by `Lexer.TokenizeEmpty`.
  - `3 + 2 * 4` and `8 - 3 - 2` are worked from their token sequences.
  - `worked_lines.dfy` (module `WorkedLines`) writes these lines as
    sequences of lexemes, which is what `Lexemes.Lexed` needs to scan them.

Two branches of the scan can never fire as written. The model keeps both
as the code writes them:

- The test at `src/modules/lexer.ts:95` is meant to make a `-` at the very
  start of the source a `UnaryOperator` token. It tests the index after it
  has already advanced past the `-`, so the test never holds.
- The branch at `src/modules/lexer.ts:103` is meant to make a standalone `=`
  an `Equals` token. The operator branch at line 93 already takes `=`, so
  this branch is never reached.

`!` is not an operator character, so it is reported as unrecognised.
It can only enter a token as the second character of an operator (`=!`
or `<!`, say), and no tier operator is spelt that way. No token text
starts with `!`, so the parser's `!=` case is never met
(`Lexer.NotEqualNeverLexed`).

## Model

| member | source | states |
|---|---|---|
| Lexer.Tokenize | src/modules/lexer.ts:72-129 | The imperative scan returns exactly the tokens and reports of the loop described by `Tokenized`, and its tokens are well terminated |
| Lexer.ReadDigits | src/modules/lexer.ts:105-108 | The inner digit loop stops at the end of the maximal run of digits and has accumulated exactly that run |
| Lexer.ReadWord | src/modules/lexer.ts:109-113 | The inner word loop stops at the end of the maximal run of letters and digits and has accumulated exactly that run |
| Lexer.DigitRunEnd | src/modules/lexer.ts:107 | The index where the digit run ends: every character before it is a digit, and the character at it (if any) is not |
| Lexer.WordRunEnd | src/modules/lexer.ts:111-113 | The index where the word ends: every character before it is a letter or digit, and the character at it (if any) is not |
| Lexer.ScanStep | src/modules/lexer.ts:80-125 | Every iteration consumes at least one character and never passes the end, so the loop terminates |
| Lexer.IsSkippable | src/modules/lexer.ts:52-54 | No blank is a punctuation or operator character, and none is absorbed into an operator, so the scan's branch order does not decide for blanks and a blank ends the token before it |
| Lexer.IsInteger | src/modules/lexer.ts:59-63 | A digit is a character whose code lies between the codes of `0` and `9`; no digit is a blank or an operator character |
| Lexer.IsAlphabetical | src/modules/lexer.ts:45-47 | No letter is a digit, a blank or an operator character, so the order of the scan's branches does not decide between them (letters are ASCII only, see Left out) |
| Lexer.OperatorStep | src/modules/lexer.ts:93-102 | The operator branch emits exactly one binary-operator token and no report, and consumes two characters exactly when the next one is `=`, `<` or `!` |
| Lexer.NumberStep | src/modules/lexer.ts:105-108 | The digit branch emits exactly one Number token and no report, and consumes at least one character |
| Lexer.WordStep | src/modules/lexer.ts:109-118 | The letter branch emits exactly one token and no report; its kind is Let, Null or Identifier, and Identifier exactly when the text is neither `let` nor `null` |
| Lexer.ScanBound | src/modules/lexer.ts:80-125 | The loop emits at most one token or report per character it scans |
| Lexer.TokenizedBound | src/modules/lexer.ts:72-129 | The tokenizer's result ends with the end-of-file token, and holds at most one other token or report per character of the source |
| Lexer.ScanStepFacts | src/modules/lexer.ts:80-125 | One iteration emits at most one token, whose text is exactly the characters it consumed, or one report of the single unrecognised character it skipped, or nothing for a blank |
| Lexer.ScanAdvance | src/modules/lexer.ts:80-125 | One iteration preserves the loop invariant: what has been emitted, followed by the scan that is still to come, is the scan of the whole source |
| Lexer.TokenizedWellTerminated | src/modules/lexer.ts:127-128 | The output ends with the one end-of-file token, no earlier token has that kind, and no token is a unary operator or `Equals` |
| Lexer.ScanKinds | src/modules/lexer.ts:93-104 | The loop itself emits no end-of-file, unary-operator or `Equals` token, no empty token, and no token whose text starts with `!` |
| Lexer.NotEqualNeverLexed | src/modules/lexer.ts:93-102 | No token of any source has the text `!=` |
| Lexer.TokenizeEmpty | src/modules/lexer.ts:127-128 | The empty source gives exactly the end-of-file token and no reports |
| Lexer.TokenizePunctuation | src/modules/lexer.ts:83-92 | Each of `( ) { } ;` becomes one token of its own kind whose text is that character, and the rest scans as it would alone, its report positions moved right by one |
| Lexer.TokenizeOperator | src/modules/lexer.ts:93-102 | An operator character not followed by `= < !` is a one-character binary operator |
| Lexer.TokenizeTwoCharOperator | src/modules/lexer.ts:97-99 | An operator character followed by `=`, `<` or `!` absorbs it into a two-character binary operator |
| Lexer.TokenizeNumber | src/modules/lexer.ts:105-108 | A maximal run of digits becomes one Number token whose text is the run |
| Lexer.TokenizeWord | src/modules/lexer.ts:109-118 | A letter followed by letters and digits, up to the first other character, becomes one token whose kind is its keyword kind or Identifier |
| Lexer.TokenizeSkippable | src/modules/lexer.ts:119-120 | Space, tab and newline produce no token and no report |
| Lexer.TokenizeUnrecognized | src/modules/lexer.ts:121-124 | Any other character produces no token, is reported with its zero-based position, and the scan goes on |
| Lexer.DiagnosticsInRange | src/modules/lexer.ts:121-124 | Every report names an unrecognised character that really stands at the reported position, and the reported positions increase strictly |
| Lexer.UnrecognizedReported | src/modules/lexer.ts:97-99 | An unrecognised character goes unreported only when it is a `!` that directly follows an operator character, which absorbed it |
| Lexer.ScanReassembles | src/modules/lexer.ts:80-125 | The token texts concatenated in order give the source with its blanks and reported characters removed |
| Lexer.ScanShift | src/modules/lexer.ts:80-125 | Scanning the tail of a longer text from the tail's start gives the tail's own scan, with report positions moved right by the prefix length |
| Lexer.Keyword | src/modules/lexer.ts:26-29 | The keyword table (corrected): exactly `let` and `null` are keywords, `let` with kind Let and `null` with kind Null |
| Lexer.WordKindExactly | src/modules/lexer.ts:114-118 | A word is Let exactly when it is `let`, Null exactly when it is `null`, and Identifier exactly otherwise |
| Lexer.KeywordLookupAsWritten | src/modules/lexer.ts:115-117 | The lookup as written finds an own entry exactly for `let` (Let) and `null` (Null), and finds an inherited object member exactly for the seven names of `InheritedNames` |
| Lexer.InheritedNameFoundAsWritten | src/modules/lexer.ts:115-117 | Each of the seven inherited member names is found by the lookup as written, but is an ordinary identifier for the corrected lookup |
| Lexemes.Lexed | src/modules/lexer.ts:80-125 | A text made of lexemes that do not run into each other scans to one token per lexeme, in order, and reports exactly its unrecognised characters at their offsets |
| Lexemes.ReportsShift | src/modules/lexer.ts:122 | Reports of a line computed from a later offset are the same reports moved right |
| Parsing.Parser.constructor | src/modules/parser.ts:23 | A new parser holds no tokens |
| Parsing.Parser.NotEOF | src/modules/parser.ts:28-30 | True exactly when tokens other than end-of-file remain |
| Parsing.Parser.First | src/modules/parser.ts:35-37 | The current token is one of the tokens, and it is end-of-file exactly when nothing else is left |
| Parsing.Parser.Shift | src/modules/parser.ts:42-44 | Returns the current token and removes it from the front, changing nothing else |
| Parsing.Parser.HasCloseParenthesis | src/modules/parser.ts:50-60 | Consumes one token and fails, blaming that token, unless it is `)` |
| Parsing.Parser.ProduceAST | src/modules/parser.ts:62-66 | Returns the parse of the tokenized source and the tokenizer's reports; after a successful parse the parser holds exactly the tokens the comparison tier left after the expression |
| Parsing.ParseSource | src/modules/parser.ts:62-66 | A parsed line builds only tier operators; a failure blames a token of the tokenized line; a line with no tokens before end-of-file fails |
| Parsing.Parser.ParseStatement | src/modules/parser.ts:68-87 | The comparison loop returns exactly what the comparison tier gives on the tokens it started with, and leaves exactly that tier's rest |
| Parsing.Parser.ParseAdditiveExpression | src/modules/parser.ts:90-105 | The additive loop returns and leaves exactly what the additive tier gives |
| Parsing.Parser.ParseMultiplicativeExpression | src/modules/parser.ts:108-126 | The multiplicative loop returns and leaves exactly what the multiplicative tier gives |
| Parsing.Parser.ParsePrimaryExpression | src/modules/parser.ts:129-162 | The primary dispatch returns and leaves exactly what the primary tier gives |
| Parsing.ParseComparison | src/modules/parser.ts:68-87 | On success the rest is a proper suffix of the input that is still well terminated and does not start with an operator, and every operator in the tree is one of the eleven tier operators; a failure blames a token of the input |
| Parsing.ComparisonTail | src/modules/parser.ts:71-84 | The comparison loop stops before a token that is no comparison operator and leaves a suffix of its input; a failure blames one of its tokens |
| Parsing.ParseAdditive | src/modules/parser.ts:90-105 | The additive tier consumes at least one token, leaves a well-terminated suffix whose first token is not additive, and builds only tier operators |
| Parsing.AdditiveTail | src/modules/parser.ts:93-102 | The additive loop stops before a token that is not `+` or `-` and leaves a suffix of its input |
| Parsing.ParseMultiplicative | src/modules/parser.ts:108-126 | The multiplicative tier consumes at least one token and leaves a well-terminated suffix whose first token is not `* / %` |
| Parsing.MultiplicativeTail | src/modules/parser.ts:111-123 | The multiplicative loop stops before a token that is not `* / %` and leaves a suffix of its input |
| Parsing.ParsePrimary | src/modules/parser.ts:129-162 | A primary consumes at least one token and leaves a well-terminated suffix; an unexpected token is blamed, and it is none of the kinds a primary starts with |
| Parsing.Closed | src/modules/parser.ts:150-156 | After a bracketed comparison, success exactly when the next token is `)`, which is consumed; otherwise that token is blamed, and an inner error is passed on unchanged |
| Parsing.ParseFloat | src/modules/parser.ts:146 | In the exact-real model, on the texts the tokenizer produces, `parseFloat` gives a finite number exactly when the text starts with a digit |
| Parsing.DigitPrefix | src/modules/parser.ts:146 | The longest prefix made of digits |
| Parsing.ShiftOperator | src/modules/parser.ts:76 | Shifting an operator token keeps the remaining tokens well terminated |
| ParserProperties.RoundTrip | src/modules/parser.ts:68-162 | Parsing the minimally bracketed printing of any tree, followed by tokens that do not start with an operator, gives that tree and leaves exactly those tokens |
| ParserProperties.Whole | src/modules/parser.ts:68-162 | Each tier parses a tree printed for that tier, as long as the following token is no operator of that tier or a tighter one |
| ParserProperties.Spine | src/modules/parser.ts:71-123 | A tier's loop folds the left spine of a tree printed at that tier back into the tree, left-associatively |
| ParserProperties.PrimaryAtom | src/modules/parser.ts:135-147 | A literal or identifier printed as one token parses back to itself at the primary tier |
| ParserProperties.PrimaryParen | src/modules/parser.ts:150-156 | A `(`, a comparison and then `)` is a primary whose node is the comparison's, with both brackets consumed |
| ParserProperties.TierUnfold | src/modules/parser.ts:69 | Each binary tier is its first operand from the next tier, followed by its loop; a failure of that operand is the tier's failure |
| ParserProperties.TailStops | src/modules/parser.ts:71-75 | A tier's loop stops at once before a token that is not its own operator |
| ParserProperties.TailStep | src/modules/parser.ts:76-83 | Before one of its operators, a tier's loop folds one more operand from the next tier into a left-nested node |
| ParserProperties.ParseFloatOfDigits | src/modules/parser.ts:146 | In the exact-real model, `parseFloat` reads the decimal text of every whole number back as that number |
| Interpreter.EvalNumeric | src/runtime/interpreter.ts:46-69 | Fails exactly for `/` by an exact zero, with the division error; NaN in gives NaN out; in the exact-real model, finite operands give a finite result for `+ - * /` |
| Interpreter.Evaluate | src/runtime/interpreter.ts:102-124 | Any tree that names a variable fails; a variable error names the first variable from the left; a division error needs a `/` in the tree |
| Interpreter.EvaluateBinary | src/runtime/interpreter.ts:74-100 | A binary node fails when a child names a variable, and a division error needs a `/` in the subtree |
| Interpreter.DivisionErrorCause | src/runtime/interpreter.ts:59-61 | The division error is raised only when some `/` node has two number operands and its divisor evaluates to exactly zero; conversely, such a node makes the whole evaluation fail |
| Interpreter.LeftmostIdentifier | src/runtime/interpreter.ts:75-76 | Finds a variable exactly when the tree has one, and the one found is a variable node of the tree |
| Interpreter.TypeSound | src/runtime/interpreter.ts:102-124 | Whenever evaluation succeeds, the type tag of its value is the type read off the tree alone |
| Interpreter.Total | src/runtime/interpreter.ts:102-124 | A tree with no variable and no `/` always evaluates |
| Interpreter.NumericNode | src/runtime/interpreter.ts:79-89 | Two number operands and an arithmetic operator give the arithmetic's number, or the division error for `/` by zero |
| Interpreter.ComparisonNode | src/runtime/interpreter.ts:90-95 | Two number operands and any other operator give the boolean of the comparison |
| Interpreter.EvalComparison | src/runtime/interpreter.ts:20-41 | With NaN on either side a comparison holds exactly for the operators other than `< > <= >= ==`; on finite numbers `< > <= >= ==` are the real relations, and every other operator is not-equal |
| Interpreter.NullAbsorbs | src/runtime/interpreter.ts:98-99 | An operand that is not a number makes the node null, whatever the operator, without a division check |
| Interpreter.LeftFirst | src/runtime/interpreter.ts:75 | An error in the left operand is the node's error |
| Interpreter.RightNext | src/runtime/interpreter.ts:76 | An error in the right operand propagates even when the left operand is null |
| Interpreter.ComparisonTrichotomy | src/runtime/interpreter.ts:26-35 | On finite numbers exactly one of `<`, `==`, `>` holds, and `<=`, `>=` are their unions |
| Interpreter.NotEqualNegates | src/runtime/interpreter.ts:34-38 | `!=` is the negation of `==`, NaN included |
| Interpreter.ArithmeticInverses | src/runtime/interpreter.ts:52-63 | In the exact-real model, on finite numbers `-` undoes `+`, and `/` undoes `*` by a nonzero factor; JavaScript doubles do not keep these laws |
| Interpreter.RemainderLaw | src/runtime/interpreter.ts:64-65 | `x % 0` is NaN; otherwise `x` is the divisor times the truncated quotient plus the remainder, which is smaller than the divisor in magnitude and is zero or has the sign of `x` |
| JsNumbers.Trunc | src/runtime/interpreter.ts:65 | Truncation toward zero: the integer at most one away from the quotient on the side of zero |
| JsNumbers.Rem | src/runtime/interpreter.ts:65 | In the exact-real model, the remainder is finite exactly when both operands are finite and the divisor is not zero |
| JsNumbers.Add | src/runtime/interpreter.ts:53 | In the exact-real model, `+` is NaN exactly when an operand is NaN |
| JsNumbers.Sub | src/runtime/interpreter.ts:55 | In the exact-real model, `-` is NaN exactly when an operand is NaN |
| JsNumbers.Mul | src/runtime/interpreter.ts:57 | In the exact-real model, `*` is NaN exactly when an operand is NaN |
| JsNumbers.Div | src/runtime/interpreter.ts:63 | In the exact-real model, `/` by a nonzero divisor is NaN exactly when an operand is NaN, and a finite quotient times the divisor is the dividend |
| JsNumbers.Less | src/runtime/interpreter.ts:27 | `<` holds only of two finite, different numbers, so it is false whenever NaN is involved |
| JsNumbers.LessEq | src/runtime/interpreter.ts:31 | `<=` holds exactly when `<` holds or both sides are the same finite number |
| JsNumbers.LooseEq | src/runtime/interpreter.ts:35 | `==` holds exactly of equal numbers that are not NaN |
| Pipeline.Run | main.ts:21-23 | A line fails in parsing exactly when its parse fails; a value's type tag is the static type of the parsed tree; a parsed tree that names a variable fails |
| Pipeline.ParsesTo | src/modules/parser.ts:62-66 | A source that tokenizes to a printed tree parses to that tree |
| Pipeline.RunSum | tests/modules/parser.test.ts:6-18 | `3 + 2` parses to the sum node and evaluates to 5 |
| Pipeline.RunQuotient | tests/runtime/interpreter.test.ts:48-63 | `5 / 0` parses and its evaluation fails with the division error |
| Pipeline.RunEquality | tests/modules/parser.test.ts:67-79 | `3 == 3` is one comparison node, and it evaluates to true |
| Pipeline.RunNullSum | src/runtime/interpreter.ts:98-99 | `null + 1` evaluates to null |
| Pipeline.RunVariable | tests/modules/parser.test.ts:95-105 | `myVar` parses to an identifier node, and evaluating it fails with the error for that node |
| Pipeline.ParseGrouped | tests/modules/parser.test.ts:48-65 | The tokens of `(3 + 2) * 4` parse to a product whose left operand is the sum, and the tree evaluates to 20 |
| Pipeline.ParsePrecedence | src/modules/parser.ts:90-126 | The tokens of `3 + 2 * 4` parse to a sum whose right operand is the product, and the tree evaluates to 11 |
| Pipeline.ParseDifference | src/modules/parser.ts:90-105 | The tokens of `8 - 3 - 2` nest to the left, and the tree evaluates to 3 |
| Pipeline.RunNotEqual | src/modules/lexer.ts:93-124 | `5 != 3` reports the `!` at index 2 and evaluates to 5, because the tokens after the first expression are ignored |
| Pipeline.RunOpenGroup | tests/modules/parser.test.ts:120-142 | `(42` fails to parse, blaming the end-of-file token that stands where `)` belongs |
| Pipeline.RunGrouped | tests/modules/parser.test.ts:48-65 | `(3 + 2) * 4` parses to a product whose left operand is the sum, and evaluates to 20 |
| Pipeline.RunSubtraction | tests/modules/parser.test.ts:20-32 | `5 - 3` parses to the difference node and evaluates to 2 |
| Pipeline.RunProduct | tests/modules/parser.test.ts:34-46 | `3 * 4` parses to the product node and evaluates to 12 |
| Pipeline.RunGreater | tests/modules/parser.test.ts:81-93 | `5 > 2` parses to the comparison node and evaluates to true |
| Pipeline.RunNullLine | tests/modules/parser.test.ts:107-117 | `null` parses to the null literal and evaluates to null |
| Pipeline.TokenizePunctuationLine | tests/modules/lexer.test.ts:13-25 | `(){};` gives one token of its own kind per character, then end-of-file |
| Pipeline.TokenizeNumbersLine | tests/modules/lexer.test.ts:28-37 | `123 456` gives two Number tokens, the blank dropped |
| Pipeline.TokenizeLetStatementLine | tests/modules/lexer.test.ts:40-50 | `let x;` gives Let, Identifier and Semicolon tokens |
| Pipeline.TokenizeMinusLine | tests/modules/lexer.test.ts:53-63 | `42 - 3` gives a Number, a binary operator and a Number; the `-` is not a unary operator |
| Pipeline.TokenizeBracketedLine | tests/modules/lexer.test.ts:65-77 | `(3 * 2)` gives the brackets, the two numbers and the operator, in order |
| Pipeline.TokenizeUnrecognizedLine | tests/modules/lexer.test.ts:101-129 | `@42;` reports `@` at position 0 and still gives the Number and Semicolon tokens |

## Left out

- Console output, the command loop and process exit are left out. The
  `console.error` messages of the tokenizer become the returned report list.
  The parser's and evaluator's messages, exits and throws become error
  values. The read loop of `main.ts` (prompt, `exit`, printing) is not part
  of this model.
- Lexer.IsAlphabetical: only ASCII letters count as letters. The source
  asks JavaScript whether upper and lower case differ, which also holds for
  many non-ASCII letters; Unicode case mapping is not modelled.
- Lexer.Tokenize: the keyword lookup is the corrected one (see Findings).
  The seven inherited names `constructor`, `hasOwnProperty`,
  `isPrototypeOf`, `propertyIsEnumerable`, `toLocaleString`, `toString` and
  `valueOf` become Identifier tokens. The source gives them a function as
  token type. Its parser then exits when such a word stands where an
  operand is expected: at the start of a line, after an operator, or after
  `(`. After a complete expression such a word is ignored like any other
  trailing token, as in the model, so `3 toString` gives 3. In the model
  `Parsing.ParseSource("constructor")` succeeds with
  `Identifier("constructor")`, and `Pipeline.Run` ends in
  `EvalFailed(NotSetUp(...))`.
- Lexer.TokenizeWord: a word's kind comes from the corrected lookup, so the
  seven inherited names are Identifier tokens here.
- Lexer.WordStep: "Identifier exactly when the text is neither `let` nor
  `null`" is the corrected lookup. As written, the seven inherited names get
  a function as token type instead.
- Lexer.Tokenize: the text is a sequence of Unicode code points. The
  source indexes UTF-16 code units, so a character outside the Basic
  Multilingual Plane, such as an emoji, is two units to it. The source
  reports such a character twice, once per unit. Every later report
  position moves one place right per such character. The model makes one
  report at a position that counts code points. Tokens are the same,
  because no surrogate unit is a letter, digit, blank or operator.
- Lexer.TokenizeUnrecognized: one report per unrecognised code point, at
  its code-point position; the source reports each UTF-16 unit.
- Lexer.DiagnosticsInRange: report positions count code points, not
  UTF-16 units.
- Interpreter.ArithmeticInverses: these are laws of the exact-real
  model. JavaScript doubles break them on inputs that can be typed:
  `(1 + 100000000000000000) - 100000000000000000` is 0, not 1.
- Parsing.ParseFloat: in the exact-real model every digit run is a finite
  number. In JavaScript a 310-digit Number token, such as 1 followed by 309
  zeros, parses to Infinity.
- ParserProperties.ParseFloatOfDigits: whole numbers read back exactly in
  the exact-real model only. In JavaScript `parseFloat("9007199254740993")`
  is 9007199254740992, the nearest double.
- JsNumbers.Div: "a finite quotient times the divisor is the dividend" is a
  law of the exact-real model. In JavaScript `1 / 49 * 49` is
  0.9999999999999999.
- Interpreter.EvalNumeric: "finite operands give a finite result" holds of
  the exact-real model only. In JavaScript, the 309-digit literal 1
  followed by 308 zeros is finite, and adding it to itself gives
  Infinity.
- Numbers are exact reals or NaN. IEEE rounding, signed zero and the
  infinities are not modelled. `parseFloat` is modelled on the texts the
  tokenizer can produce: the value of the leading digit run, and NaN when
  there is none.
- Parsing.Parser.HasCloseParenthesis: the source's `!prev` test, for
  shifting from an empty token array, is not modelled. Every parser method
  requires the tokens to end with end-of-file, and end-of-file is never
  shifted from an empty array. It is shifted where it stands in place of
  `)`, as in `(42`; that leaves the array empty, and the parse fails at
  once.
- Parsing.Parser.ParsePrimaryExpression: after a failure the model does not
  say which tokens remain, because the source ends the process at that
  point.
- `evaluateProgramme` and the `Program` node are left out. The evaluator's
  case for them is commented out, so they cannot be reached.
- The `UnaryOperator` branch and the `Equals` branch of the scan are kept as
  the code writes them. They are proved never to fire; unary minus is not a
  feature of this language.
- Pipeline: the worked lines are stated as lemmas over a source text that
  equals the line. The lexer test line `(3 + 2) - (2 * 3)`
  (tests/modules/lexer.test.ts:79-99) is not worked. `3 + 2 * 4` and
  `8 - 3 - 2` are worked from their token sequences rather than from their
  text. The evaluator tests build their trees directly
  (tests/runtime/interpreter.test.ts:13-63). Those trees are covered by the
  general lemmas `Interpreter.NumericNode`, `Interpreter.ComparisonNode` and
  `Interpreter.DivisionErrorCause`, not by lemmas of their own.

## Findings

| source | as written | input that shows it | evidently intended | confidence | as-written member | corrected member |
|---|---|---|---|---|---|---|
| src/modules/lexer.ts:115-117 | `KEYWORDS[ident] !== undefined` on a plain object literal, which also finds the members every object inherits | the word `constructor` (also `toString`, `valueOf`, `hasOwnProperty`, `isPrototypeOf`, `propertyIsEnumerable`, `toLocaleString`): it gets a function as its token type, so no primary accepts it | only `let` and `null` are keywords; every other word is an Identifier | high, not executed | Lexer.InheritedNameFoundAsWritten | Lexer.WordKindExactly |
