# A tiny interpreter pipeline, modelled in Dafny

The repository is a toy interpreter written in TypeScript. Source text goes
through `tokenize`, then `parse`, then `evaluate`. A small lookahead-1 queue,
`useQueue`, sits beside them. This project restates each stage as pure Dafny
functions over immutable datatypes and proves what each stage promises.

- **Tokenizer** (`tokenizer.dfy`, lemmas in `tokenizer_properties.dfy`). The
  one global regular expression `\s*(=>|let|\w+|\d+|[+\-*/=(){};,.])\s*`,
  with each match trimmed, becomes a character scanner. At each position it
  emits `=>`, `let`, a maximal word run or one punctuation character, or it
  steps over a character where no match can start. Tokens are plain strings.
- **Parser** (`parser.dfy`, lemmas in `parser_properties.dfy`). The source
  threads one mutable index through `parseStatements`, `parseExpression`,
  `parseTerm` and `parseFactor`. In the model, each function takes the
  tokens still unread and returns the tokens left after it. `Expr` has one
  constructor per shape of the source's `Expr` union.
- **Evaluator** (`evaluator.dfy`, lemmas in `evaluator_properties.dfy`). The
  source mutates one environment object in place. `Eval` instead returns the
  environment after evaluation next to the value, so a `let` inside an
  operand, an argument or a statement reaches whatever is evaluated next.
  A call binds its parameters in a copy of the caller's environment, taken
  before the arguments are evaluated, and discards that copy when it
  returns. The type guards `isStatementsExpr`, `isLetExpr`, `isCallExpr`,
  `isFunctionExpr` and `isOpExpr` become constructor tests. `Eval` tries
  them in the source's order.
- **Cursor** (`queue.dfy`). The closure over `queue` and `current` becomes
  the record `Cursor`. `advance`, `peek`, `hasMore`, `position` and `reset`
  become functions, and those that change state return a new cursor.
- **Pipeline** (`pipeline.dfy`). `Run` chains the three stages. This file
  also holds two whole programs:
  - the demonstration program of `main.ts`, which evaluates to 20;
  - a three-statement program, taken from source text through to its value
    11, whose function body reads a variable defined after the function.
    This shows that a body sees the caller's environment (dynamic scope).
- `results.dfy` holds the `Result` type that every failing operation returns.

Every exception the source throws becomes an `Err` value, and an error
raised inside an operand, argument or statement is returned unchanged by
every enclosing construct. That is the catch-and-rethrow at
`evaluator.ts:120-123`.

Some behaviour of the code is worth stating up front:

- **Tokens are plain strings.** The single regular expression returns
  strings and drops every character it cannot match. There are no string
  literals, no token kinds and no lexical errors.
- **The cursor is stand-alone.** Neither the tokenizer nor the parser uses
  `useQueue`, so the model has it as a component of its own.
- **The parser does not validate.** The tokens in the `=`, `=>` and `)`
  positions are skipped without being looked at (`EqualsIsNotChecked`,
  `ParenthesisedFactor`).
- **There are no builtins.** Every call of a name not bound to a function
  node fails with "Undefined function". The model treats `+` as numeric
  only; what JavaScript's `+` does with a function node is listed under
  "Left out".
- **An unknown operator fails with "Unknown expression".** The `switch`
  over the operator falls through to the final `throw`.
- **A missing argument is an error.** Evaluating the absent argument throws
  "Unknown expression" (`MissingArgumentFails`).

## Model

| member | source | states |
|---|---|---|
| Queue.UseQueue | src/helpers/useQueue.ts:1-2 | a new cursor holds the given queue at position 0, satisfies the bound invariant, and has more items exactly when the queue is non-empty |
| Queue.Advance | src/helpers/useQueue.ts:4-9 | fails with "Unexpected end of input" exactly when the position is at or past the end; otherwise returns the item at the position, keeps the queue, and moves the position up by exactly one |
| Queue.Peek | src/helpers/useQueue.ts:11-16 | fails exactly when nothing is left; otherwise returns the item at the current position |
| Queue.Cursor.HasMore | src/helpers/useQueue.ts:18-20 | true exactly when the position is before the end of the queue |
| Queue.Cursor.Position | src/helpers/useQueue.ts:27 | the position is below the queue length exactly when more items remain, and it is within bounds whenever the invariant holds |
| Queue.Reset | src/helpers/useQueue.ts:22-25 | after a reset the queue is empty, the position is 0, and nothing is left |
| Queue.PeekAgreesWithAdvance | src/helpers/useQueue.ts:4-16 | peek succeeds exactly when advance does, returns the same item and fails with the same error |
| Queue.OperationsKeepInvariant | src/helpers/useQueue.ts:2-25 | creating, advancing and resetting all keep `0 <= current <= queue.length` |
| Queue.ResetEmpties | src/helpers/useQueue.ts:22-25 | after a reset, has-more is false and both advance and peek fail with end of input |
| Queue.Drain | src/helpers/useQueue.ts:4-20 | advancing while has-more holds hands out exactly the unread items in order and leaves the cursor at the end |
| Tokenizer.WordRun | src/tokenizer.ts:19 | the `\w+` alternative is greedy: it covers only word characters and stops before a non-word character or the end |
| Tokenizer.MatchAt | src/tokenizer.ts:19 | a match at the front is a non-empty prefix of the input with one of the four token shapes; there is no match exactly when the input is empty or starts with a character no alternative accepts |
| Tokenizer.Tokenize | src/tokenizer.ts:16-22 | every emitted token has one of the four token shapes |
| TokenizerProperties.TokensAreNonEmptyAndSpaceFree | src/tokenizer.ts:19-20 | every token is non-empty and contains no whitespace |
| TokenizerProperties.ArrowIsOneToken | src/tokenizer.ts:19 | `=>` is emitted as one token, never as `=` and `>`, whatever follows |
| TokenizerProperties.LetIsSplitOff | src/tokenizer.ts:19 | input starting with `let` emits `let` first, even inside a longer word, so `letter` gives `let`, `ter` |
| TokenizerProperties.WordIsOneToken | src/tokenizer.ts:19 | a maximal word run not starting with `let` is emitted whole as one token |
| TokenizerProperties.PunctuationIsOneToken | src/tokenizer.ts:19 | each of `+ - * / = ( ) { } ; , .` is its own one-character token, except `=` before `>` |
| TokenizerProperties.InertCharacterIsDropped | src/tokenizer.ts:19 | a character no alternative accepts (whitespace, quotes, `!`, `<`, a lone `>`) is dropped without error |
| TokenizerProperties.InertInputHasNoTokens | src/tokenizer.ts:19-20 | input made only of such characters gives no tokens |
| TokenizerProperties.BlankInputHasNoTokens | src/tokenizer.ts:19-20 | empty or all-whitespace input gives no tokens |
| TokenizerProperties.Gaps | src/tokenizer.ts:19-20 | the input is exactly the tokens in output order, interleaved with gaps made only of dropped characters |
| TokenizerProperties.TokensAreSubsequence | src/tokenizer.ts:19-20 | the concatenated tokens are a subsequence of the input |
| TokenizerProperties.SplitAtInert | src/tokenizer.ts:19-20 | no token spans a dropped character other than `>`: the tokens of `a c b` are exactly those of `a` followed by those of `b` |
| TokenizerProperties.TokenMatchesItself | src/tokenizer.ts:19 | each token shape, scanned alone, is matched whole |
| TokenizerProperties.UnlexRoundTrip | src/tokenizer.ts:16-22 | writing any sequence of well-shaped tokens out with spaces and tokenizing it gives the same sequence back |
| TokenizerProperties.RetokenizeIsIdentity | src/tokenizer.ts:16-22 | tokenizing, writing out with spaces and tokenizing again changes nothing |
| Parser.ParseFactor | src/parser.ts:94-105 | a successful factor consumes at least one token |
| Parser.ParseTerm | src/parser.ts:83-92 | a successful term consumes at least one token |
| Parser.ParseProducts | src/parser.ts:85-89 | the `*`/`/` loop never consumes tokens it does not have |
| Parser.ParseSums | src/parser.ts:74-78 | the `+`/`-` loop never consumes tokens it does not have |
| Parser.ParseParams | src/parser.ts:33-43 | the parameter list consumes at least its closing token |
| Parser.ParseArgs | src/parser.ts:61-70 | the argument list consumes at least its closing token |
| Parser.ParseExpression | src/parser.ts:25-81 | every successful expression consumes at least one token, which is why the statement loop ends |
| Parser.ParseStatements | src/parser.ts:13-23 | there is at most one statement per token, and there are none exactly when there are no tokens |
| Parser.Parse | src/parser.ts:10-108 | the result is always a statements node with at most one entry per token and at least one for non-empty input; no tokens give an empty body |
| Parser.ParseInt | src/parser.ts:96-97 | `parseInt` fails only with "not a number" for the token itself, and a token that starts with a digit is the value of its leading digits |
| Parser.ParseSigned | src/parser.ts:96-97 | after the whitespace, a string that starts with a digit is the value of its leading digits; any failure names the token |
| Parser.ParseDigits | src/parser.ts:96-97 | the digits succeed exactly when the first character is a digit, and then give the value of the leading run |
| ParserProperties.FactorOfLeaf | src/parser.ts:94-104 | a token with a leading digit becomes the number of its leading digits, and any token without a digit other than `(`, `let` included, becomes an identifier |
| ParserProperties.ParseIntSkipsSpaceAndSign | src/parser.ts:96-97 | leading whitespace is skipped and one `+` or `-` is read before the digits, so ` -5` is -5 and `+5` is 5 |
| ParserProperties.NoLeadingNumber | src/parser.ts:95-97 | a token holding a digit whose first character is not whitespace, a sign or a digit (`x1`) is not a number, and the factor fails |
| ParserProperties.NumberTextRoundTrip | src/parser.ts:96-97 | for every integer, `parseInt` reads its decimal form (JavaScript's `String(n)` for |n| < 1e21) back as that integer, and that token is the number as a factor |
| ParserProperties.ParenthesisedFactor | src/parser.ts:98-101 | `(` followed by an expression and any one token is that expression: the closing token is skipped unread |
| ParserProperties.ParenthesisedFactorEnds | src/parser.ts:98-101 | an inner expression that fails makes the parenthesised factor fail with the same error, and one that uses every token leaves nothing after the factor |
| ParserProperties.ParenthesesGroup | src/parser.ts:83-101 | `( 2 + 3 ) * 4` parses as `op(*, op(+, 2, 3), 4)`: parentheses override precedence |
| ParserProperties.ProductsFoldLeft | src/parser.ts:85-89 | a chain `a * b / c ...` of leaf tokens (`let` included) folds to the left and stops at the first token that is not `*` or `/` |
| ParserProperties.TermOfProduct | src/parser.ts:83-92 | a term over a product chain of leaf tokens yields the left-folded product tree |
| ParserProperties.SumsFoldLeft | src/parser.ts:74-78 | a chain of `+`/`-` products of leaf tokens folds to the left, each operand a whole product |
| ParserProperties.PrecedenceAndAssociativity | src/parser.ts:59-92 | for every chain of products of leaf tokens joined by `+`/`-` (the first token not `let`), the expression is the left fold of sums over left-folded products |
| ParserProperties.TimesBindsTighterThanPlus | src/parser.ts:74-89 | `2 + 3 * 4` parses as `op(+, 2, op(*, 3, 4))` |
| ParserProperties.MinusFoldsLeft | src/parser.ts:74-78 | `10 - 2 - 3` parses as `op(-, op(-, 10, 2), 3)` |
| ParserProperties.StatementStep | src/parser.ts:15-21 | after each expression, one `;` is consumed if present and the loop continues on what follows |
| ParserProperties.OnlyStatement | src/parser.ts:10-23 | an expression covering all tokens is the program's only statement |
| ParserProperties.SemicolonsAreOptional | src/parser.ts:15-21 | for statements of one operand token each (not an operator or `;`), each followed by `;` or not, the statement list is the same |
| ParserProperties.ChainSemicolonsAreOptional | src/parser.ts:15-21 | for statements that are whole `+ - * /` chains of operands, none beginning with an operator, `;`, `(` or `let`, each followed by `;` or not, the statement list is the list of their left-folded trees |
| ParserProperties.SemicolonBeforeOperatorMatters | src/parser.ts:15-21 | the `;` is not optional before a statement that begins with an operator: `x ; - y` gives three statements and `x - y` one |
| ParserProperties.SemicolonExample | src/parser.ts:17-19 | `x ; y` and `x y` parse alike |
| ParserProperties.ParamsInOrder | src/parser.ts:33-43 | the parameters come out in source order with the commas removed, and parsing resumes after `)` |
| ParserProperties.LetFunctionShape | src/parser.ts:27-52 | `let name = ( p1, ... ) => body` yields a let of a function node with the parameters in order and the parsed body |
| ParserProperties.LetFunctionBranch | src/parser.ts:27-52 | when `(` follows the skipped `=`, the let holds a function node whose body starts after the token following `)` |
| ParserProperties.LetValueShape | src/parser.ts:27-55 | without `(` after the skipped `=`, the let holds the next expression, and it fails exactly when that expression fails |
| ParserProperties.EqualsIsNotChecked | src/parser.ts:30 | the token in the `=` position is not looked at: `let x + 5` parses like `let x = 5` |
| ParserProperties.ExpressionOfOperand | src/parser.ts:59-80 | a lone operand followed by no operator or `(` is the whole expression |
| ParserProperties.ArgsInOrder | src/parser.ts:61-70 | for arguments that are one operand token each, the arguments come out in source order with the commas removed, and parsing resumes after `)` |
| ParserProperties.CallShape | src/parser.ts:59-72 | a one-token callee applied to one-token arguments becomes a call node of that token with the arguments in order |
| ParserProperties.ExpressionArgsInOrder | src/parser.ts:61-70 | for arguments that are whole expressions (sums, calls, lets), each stopping at the `,` or `)` after it, the arguments come out in source order with the commas removed, and parsing resumes after `)` |
| ParserProperties.CallOfExpressions | src/parser.ts:59-72 | any term followed by `(` and whole-expression arguments becomes a call node of that term with the arguments in order |
| ParserProperties.OperandCallOfExpressions | src/parser.ts:59-72 | a one-token callee followed by `(` and whole-expression arguments becomes a call node of that token with the arguments in order |
| ParserProperties.SumAndCallArguments | src/parser.ts:59-72 | `f ( a + b , g ( x ) )` over operand tokens is one call node holding the sum and the nested call, in that order |
| ParserProperties.NestedArguments | src/parser.ts:59-72 | `f ( a + b , g ( x ) )` parses to `call(f, [op(+, a, b), call(g, [x])])` |
| ParserProperties.CallBranch | src/parser.ts:59-72 | whenever `(` follows the first term, the expression is a call, and it fails exactly when the argument list fails |
| ParserProperties.NothingFoldsAfterCall | src/parser.ts:61-72 | `f ( ) + 1` is a call followed by two separate statements; no `+` folding follows a call |
| Evaluator.Arith | src/evaluator.ts:94-103 | an operator succeeds exactly for `+`, `-`, `*` on two numbers and then yields their sum, difference or product; `/` is reported as left out |
| Evaluator.Eval | src/evaluator.ts:46-124 | evaluation only adds or changes bindings for names bound by a `let` in the expression outside function bodies; every other binding is kept |
| Evaluator.EvalBlock | src/evaluator.ts:57-63 | a statement list only touches names its own `let`s bind |
| Evaluator.Apply | src/evaluator.ts:79-85 | a call leaves the caller's environment changed only by `let`s inside its arguments; the body's own bindings never reach it |
| Evaluator.BindArgs | src/evaluator.ts:82-84 | binding the arguments changes the caller's environment only through `let`s inside the arguments |
| EvaluatorProperties.FrameWithoutNames | src/evaluator.ts:46-124 | an evaluation that can bind no names leaves the environment exactly as it was |
| EvaluatorProperties.BlockSnoc | src/evaluator.ts:57-63 | one more statement is evaluated in the environment the earlier ones leave, or the earlier error is returned |
| EvaluatorProperties.StatementsValueIsLast | src/evaluator.ts:57-63 | a statements node yields its last statement's value, evaluated after all earlier ones in their updated environment; an empty body yields undefined and changes nothing |
| EvaluatorProperties.LetFunctionIsNotEvaluated | src/evaluator.ts:66-68 | a let of a function node always succeeds, binds the node unevaluated, returns it, and changes no other name |
| EvaluatorProperties.LetBindsItsValue | src/evaluator.ts:69-74 | any other let succeeds exactly when its value does, binds and returns that value, fails with the same error otherwise, and adds or changes only that name |
| EvaluatorProperties.NoLetKeepsEnvironment | src/evaluator.ts:46-124 | an expression with no let outside function bodies leaves the environment unchanged |
| EvaluatorProperties.LeavesEvaluate | src/evaluator.ts:107-117 | a number evaluates to itself; an identifier succeeds exactly when it is bound to something other than undefined, yields that binding, and otherwise fails with "Undefined variable" |
| EvaluatorProperties.ErrorsPropagate | src/evaluator.ts:120-123 | an error in the left operand, in the right operand, or in the first statement is the error of the whole expression |
| EvaluatorProperties.BindArgsSucceeds | src/evaluator.ts:82-84 | with let-free arguments, binding succeeds exactly when there are at least as many arguments as parameters and every argument that is used evaluates |
| EvaluatorProperties.BindArgsThreads | src/evaluator.ts:81-84 | binding runs the arguments in order, each in the caller's environment as the earlier ones leave it; it succeeds exactly when every parameter has an argument and those run, and hands back the environment the last one leaves |
| EvaluatorProperties.BindArgsKeepsFrame | src/evaluator.ts:81-84 | whatever the arguments bind, binding adds exactly the parameter names to the copied environment and leaves its other names unchanged; with let-free arguments the caller is unchanged too |
| EvaluatorProperties.BindArgsOverlay | src/evaluator.ts:81-84 | each parameter is bound to its own argument's value, evaluated in the caller's environment as the earlier arguments leave it; for a repeated name, the last one wins |
| EvaluatorProperties.ExtraArgumentsIgnored | src/evaluator.ts:82-84 | arguments past the last parameter are never evaluated: appending any of them changes nothing |
| EvaluatorProperties.MissingArgumentFails | src/evaluator.ts:82-84 | binding fewer arguments than parameters always fails, and when the arguments are let-free and evaluate, it fails with "Unknown expression" |
| EvaluatorProperties.UndefinedFunctionFails | src/evaluator.ts:79-87 | calling a name that is unbound or not bound to a function node fails with "Undefined function" naming it |
| EvaluatorProperties.CallFrameIsDiscarded | src/evaluator.ts:79-85 | a successful call returns the body's value, computed in the copy with the parameters bound, and hands the caller back its own environment; with let-free arguments it is exactly the caller's original environment |
| EvaluatorProperties.ArgumentLetHiddenFromBody | src/evaluator.ts:81-85 | for every call, a name bound neither in the caller nor as a parameter is absent from the body's frame whatever the arguments bind, so a body reading it fails with "Undefined variable"; the copy is taken before the arguments run |
| EvaluatorProperties.ArgumentLetReachesCaller | src/evaluator.ts:81-85 | after every successful call the caller has exactly the environment its used arguments, run in order, leave behind |
| EvaluatorProperties.ArgumentLetExample | src/evaluator.ts:81-85 | an argument `let y = 1` adds `y` to the caller's environment |
| EvaluatorProperties.EvalFuelMonotone | src/evaluator.ts:46-124 | once an evaluation finishes without running out of fuel, more fuel gives the same outcome |
| EvaluatorProperties.ApplyFuelMonotone | src/evaluator.ts:79-85 | likewise for a call of a function value |
| EvaluatorProperties.BlockFuelMonotone | src/evaluator.ts:57-63 | likewise for a statement list |
| EvaluatorProperties.BindFuelMonotone | src/evaluator.ts:82-84 | likewise for argument binding |
| EvaluatorProperties.LeftOperandFirst | src/evaluator.ts:91-93 | on an example, the left operand is evaluated first and its let is visible to the right operand, not the other way round |
| Pipeline.DemoIsTwenty | src/main.ts:5-15 | the demonstration program evaluates to 20 and leaves the four global bindings |
| Pipeline.ParseDemo | src/main.ts:5-15 | the parser turns the tokens of the demonstration program into exactly the five statements that are evaluated, although one `;` is missing |
| Pipeline.DemoFromSource | src/main.ts:17-22 | the demonstration program, from source text through tokenizer, parser and evaluator, yields 20 |
| Pipeline.TimesFirstIsFourteen | src/evaluator.ts:89-103 | `2 + 3 * 4` parses and evaluates to 14 |
| Pipeline.MinusLeftIsFive | src/evaluator.ts:89-103 | `10 - 2 - 3` parses and evaluates to 5 |
| Pipeline.GroupedIsTwenty | src/evaluator.ts:89-103 | `( 2 + 3 ) * 4` parses and evaluates to 20 |
| Pipeline.HogeStep | src/main.ts:10-14 | `hoge(20)` reads `x` from the caller's environment and yields 20 without changing it |
| Pipeline.ParseScope | src/parser.ts:10-108 | the tokens of `let f = (a) => a + x; let x = 10; f(1)` parse to the three expected statements |
| Pipeline.DynamicScope | src/evaluator.ts:78-85 | a function body sees a variable bound after the function's let but before the call: the program yields 11 |
| Pipeline.DynamicScopeFromSource | src/tokenizer.ts:16-22 | the same program, from its tokens written out with spaces, through tokenizer, parser and evaluator, yields 11 |

## Left out

- The output side of `main.ts` (`console.log`, and rendering into the page via `innerHTML`) is I/O. Only its program text is modelled, as the demonstration lemma.
- The `console.error` call in the catch block of `evaluate` is logging. Only the rethrow is modelled, as error propagation.
- Division: `/` is JavaScript floating-point division, with `Infinity` and `NaN` on zero. Values are integers, so `Arith` reports it as `DivisionLeftOut` and does not model it.
- JavaScript coercions: `+`, `-` and `*` on a function node or on `undefined` give a string or `NaN` in the source. The model reports them as `NonNumericOperand`.
- Prototype names: a name such as `toString` is found on every plain object, but the model's environment holds only what `let` and calls put there.
- Number precision: `parseInt` past 2^53, and the exponent form JavaScript uses when a number of 1e21 or more becomes a property key, are not modelled; numbers are unbounded integers.
- Parser.ParseFactor: a token holding a digit in which `parseInt` finds no number (`x1`, `- 5`) becomes `NaN` in the source, and `NaN` flows on into evaluation. The model fails with `NotANumber` instead. Tokens with a sign or leading whitespace (`-5`, ` 5`) are read as `parseInt` reads them, although `tokenize` never emits them.
- Parser.ParseExpression: reading past the last token yields `undefined` in the source. That either builds a node holding `undefined` or loops forever when a `)` never comes. The model fails with `EndOfInput` in all of these cases.
- Evaluator.Eval: recursion is bounded by `fuel`, one unit per function body entered. A program that would recurse without end fails with `OutOfFuel` instead of exhausting the stack.
- Evaluator.Eval: after a failed evaluation the source's environment object may already hold some bindings. The model returns only the error.
- The array branch of `evaluate` (`evaluator.ts:48-54`) is left out, because the parser never produces an array.
- The commented-out earlier tokenizers (`tokenizer.ts:2-13`) are not code.
- The regular-expression engine is restated as the scanner `MatchAt`. The `\d+` alternative is not modelled, because `\w+` before it accepts every digit.
- Pipeline.DemoFromSource: the source text is the program's tokens with one space after each, not the exact layout of `main.ts`. The two differ only in whitespace, but that the layout of `main.ts` tokenizes to the same list is not proved.
- Queue.UseQueue: the source's closure reads the caller's array afresh on every call, so a caller that shrinks the array after `useQueue` can leave `current` past its end. The model takes the queue as an immutable sequence, so this aliasing is not modelled, and `OperationsKeepInvariant` relies on it.
- Pipeline.Run has no contract of its own. It only chains the three stages for the end-to-end lemma.
