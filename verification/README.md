# rusty-lambda in Dafny

A model of the core of rusty-lambda, a small interpreter for a
lambda calculus with unsigned arithmetic, booleans, conditionals and
assignment statements. The interpreter has three stages over one recursive
term tree:

- **Parser** (`src/parse.rs`). A precedence grammar written with nom
  combinators:
  - `assignment` is a variable, `:=` and a term;
  - `term` allows at most one `==`/`!=`;
  - `equalend` handles `+`/`-` and `addend` handles `*`/`/`;
  - `multiplicand` is `if … then … else … endif` or an application;
  - `application` is a left fold of terminals;
  - `terminal` is a variable, a number, a boolean, or a parenthesised lambda or term.
- **Type checker** (`src/type_check.rs`). A structural checker that gives a
  term the type `Int`, `Bool` or `Func{name, body}`.
- **Evaluator** (`src/eval.rs`). A call-by-value tree walker over an
  environment that maps names to values.

The Dafny modules follow the source files:

| module | file | models |
|---|---|---|
| `Ast` | `ast.dfy` | `src/ast.rs`: `Term`, `BinMathOp`, the u64 payload, term size |
| `Results` | `results.dfy` | Rust's `Result` with `?` propagation (`:-` in Dafny) |
| `Parse` | `parse.dfy` | `src/parse.rs`: one function per nonterminal |
| `ParseProperties` | `parse_properties.dfy` | what the grammar accepts and the shape of the trees it builds |
| `ParseFolds` | `parse_folds.dfy` | the repetitions of the grammar as left folds over any number of operands |
| `ParseTests` | `parse_tests.dfy` | the parser's token-level unit tests |
| `ParseTermTests` | `parse_term_tests.dfy` | the parser's term-level unit tests, over their literal inputs |
| `Evaluator` | `eval.dfy` | `src/eval.rs` and its unit tests |
| `TypeChecker` | `type_check.dfy` | `src/type_check.rs` |
| `Soundness` | `soundness.dfy` | the type-safety claim of the evaluator's doc comment |

Every nonterminal is a function from the remaining input to
`Ok(term, rest)` or `Fail(at)`:

- A successful parse consumes at least one character and leaves a suffix of
  its input (`Consumes`).
- Termination is by input length, then grammar level.
- nom's `ws!` wrapper is written out: the blank skipper `Ws` (space, tab,
  CR, LF) runs before every element of a `ws!` sequence and after the whole
  sequence.
- The identifier class is `(?i:[a-z_][a-z0-9_]*)` as Rust's regex crate
  reads it in Unicode mode. Case folding then also admits the long s
  (U+017F) and the Kelvin sign (U+212A) as letters.
- The reserved-word test of `variable` is a case-sensitive prefix test. So
  `iffy`, `thence`, `elsewhere`, `trueness` and `falsehood` are not
  variables (`VariableRefusesReserved`).

The evaluator's `u64` arithmetic follows the checked operations of a debug
build. A result outside `0 .. 2^64 - 1` is the error `ArithmeticOverflow`,
and a zero divisor is `DivideByZero`, where Rust panics.

`Eval` takes a `fuel` argument, because an application can diverge: in
the source, `(\x . x x) (\x . x x)` recurses without end. Each entry into
an applied function body uses one unit of fuel, and nothing else uses any.
`EvalFuelMonotone` shows that the answer never depends on the bound once
the bound is large enough.

Three behaviours of the code shape the model:

- **Scoping is dynamic.** A lambda evaluates to `Func{name, func_term}`,
  which records no environment. An applied body runs in the *caller's*
  environment extended with the parameter (`src/eval.rs:28-37`).
  `Evaluator.DynamicScoping` proves what this means. Take `\y . y + x`,
  defined while `x = 5`, and apply it to 1 after `x` is rebound to 100.
  The result is 101; a lexically scoped reading would give 6.
- **The checker rejects applications and assignments.** `type_check`
  refuses `Apply` and `Assignm` outright (`src/type_check.rs:38`). It gives
  a lambda the type `Func{name, body}` without looking inside the body
  (`src/type_check.rs:31`).
- **Division by zero panics.** Rust's `/` on `u64` panics on a zero
  divisor (`src/eval.rs:70`). The model keeps this case visible as the
  distinct error `DivideByZero`.

The main theorem is `Soundness.TypeSafety`. Take a term the checker
accepts, evaluated in an environment whose values have the types the type
environment gives. Whatever the fuel, the result has the checked type, or
is one of the two arithmetic errors. It is never:

- an unbound variable;
- an application of a non-function;
- ill-typed operands;
- a non-boolean test;
- running out of fuel.

## Model

| member | source | states |
|---|---|---|
| Ast.Size | src/ast.rs:2-18 | every term is a finite tree: each composite form is strictly larger than each of its subterms |
| Parse.Ws | src/parse.rs:26-46 | blank skipping leaves a suffix of the input that does not start with a blank |
| Parse.IdentRun | src/parse.rs:14 | the length of the longest prefix of identifier characters: all counted characters match the class and the next one does not |
| Parse.DigitRun | src/parse.rs:17-18 | the length of the maximal run of decimal digits: all counted characters are digits and the next one is not |
| Parse.ParseVariable | src/parse.rs:7-15 | succeeds exactly when the input starts with an identifier-start character and with no reserved word; then the name is the longest identifier prefix, name + rest is the input and rest does not continue the identifier; a failure is at the input itself |
| Parse.ParseNumber | src/parse.rs:17-21 | succeeds exactly when there is a leading digit run whose base-10 value fits in 64 bits; the result is that value and the rest follows the run |
| Parse.ParseBoolean | src/parse.rs:23-24 | succeeds exactly on a `true` or `false` prefix, giving the matching constant and the text after the literal, with no word-boundary check |
| Parse.ParseParenthesized | src/parse.rs:39 | a parse that succeeds consumes input; a failure is at the input itself (the result is stated by `ParenthesizedResult`) |
| Parse.ParseTerminal | src/parse.rs:38-39 | a parse that succeeds consumes input; a failure is at the input itself (the alternatives are stated by the `TerminalOf…` lemmas) |
| Parse.ParseLambda | src/parse.rs:26-36 | a parse that succeeds builds a `Lambda`, consumes input and leaves no leading blank |
| Parse.LambdaBody | src/parse.rs:29-31 | after the parameter, `.` and a term build the `Lambda` of that parameter name |
| Parse.ApplicationTail | src/parse.rs:43-46 | the `many0` repetition of terminals leaves a suffix of its input |
| Parse.ParseApplication | src/parse.rs:41-46 | a parse that succeeds consumes input and leaves no leading blank |
| Parse.ParseIf | src/parse.rs:49-57 | a parse that succeeds builds an `IfStmt` and consumes input |
| Parse.IfThen | src/parse.rs:52-57 | after the test, the rest of the conditional builds an `IfStmt` with that test |
| Parse.IfElse | src/parse.rs:54-57 | after the then-branch, the rest of the conditional builds an `IfStmt` with that test and then-branch |
| Parse.ParseMultiplicand | src/parse.rs:48-58 | the conditional or, failing that, the application; consumes input on success |
| Parse.AddendTail | src/parse.rs:62-70 | the `*`/`/` repetition leaves a suffix of its input |
| Parse.ParseAddend | src/parse.rs:60-70 | a parse that succeeds consumes input and leaves no leading blank |
| Parse.EqualendTail | src/parse.rs:74-82 | the `+`/`-` repetition leaves a suffix of its input |
| Parse.ParseEqualend | src/parse.rs:72-82 | a parse that succeeds consumes input and leaves no leading blank |
| Parse.ComparisonTail | src/parse.rs:86-96 | the optional comparison leaves a suffix of its input, and no leading blank when its input had none |
| Parse.ParseTerm | src/parse.rs:84-96 | a parse that succeeds consumes input and leaves no leading blank |
| Parse.ParseAssignment | src/parse.rs:98-105 | a parse that succeeds builds an `Assignm`, consumes input and leaves no leading blank |
| ParseProperties.WsDrop | src/parse.rs:26-46 | blank skipping removes exactly the leading run of blanks |
| ParseProperties.WsIdem | src/parse.rs:26-46 | skipping blanks twice is skipping them once |
| ParseProperties.VariableRefusesReserved | src/parse.rs:8-13 | any input that starts with `if`, `then`, `else`, `endif`, `true` or `false` is refused as a variable, whatever follows |
| ParseProperties.VariableReadsIdentifier | src/parse.rs:7-15 | converse of `ParseVariable`: an identifier followed by a non-identifier character, and not starting with a reserved word, is read as that variable with exactly that rest |
| ParseProperties.NumberReadsDigits | src/parse.rs:17-21 | converse of `ParseNumber`: digits whose value fits in 64 bits, followed by a non-digit, are read as that number by `number` and by `terminal` |
| ParseProperties.NumberRefusesOverflow | src/parse.rs:17-21 | a digit run whose value is 2^64 or more is a parse failure |
| ParseProperties.TerminalRefuses | src/parse.rs:38-39 | input that starts with neither an identifier character nor `(` is not a terminal |
| ParseProperties.TerminalStart | src/parse.rs:38-39 | converse of `TerminalRefuses`: a terminal starts with an identifier character or `(`, so never with a blank |
| ParseProperties.TerminalRefusesKeyword | src/parse.rs:7-39 | `if`, `then`, `else` and `endif` start no terminal, whatever follows: the variable alternative refuses reserved words, and no number, boolean or `(` starts with their first letters |
| ParseProperties.TerminalOfVariable | src/parse.rs:38-39 | a variable is a terminal: the variable alternative is tried first and its result is the terminal |
| ParseProperties.TerminalOfNumber | src/parse.rs:38-39 | a number is a terminal, with the number's own result |
| ParseProperties.TerminalOfParenthesized | src/parse.rs:38-39 | input starting with `(` is a terminal exactly as the parenthesised alternative gives it |
| ParseProperties.ParenthesizedResult | src/parse.rs:39 | a parenthesised form that succeeds starts with `(`; its tree is that of the lambda, or failing that the term, after the `(`, and the text after that inner parse is `)` followed by the rest |
| ParseProperties.ParenthesizedLambda | src/parse.rs:39 | `( \x . t )` is a terminal giving the lambda: the only way a lambda enters a term |
| ParseProperties.ParenthesizedTerm | src/parse.rs:39 | `( t )` groups: a parenthesised term that is not a lambda is a terminal giving that term |
| ParseProperties.BooleanTerminal | src/parse.rs:23-24 | `true` and `false` are terminals whatever follows them |
| ParseProperties.ApplicationLeftFold | src/parse.rs:41-46 | three terminals `a b c` build `Apply(c, Apply(b, a))`: the argument is stored first, the function second |
| ParseProperties.ApplicationSingle | src/parse.rs:41-46 | an application of one terminal is that terminal |
| ParseProperties.MultiplicandOfApplication | src/parse.rs:48-58 | input not starting with `if` is a multiplicand exactly when it is an application, with the application's tree |
| ParseProperties.TerminalMultiplicand | src/parse.rs:48-58 | a terminal at input that does not start with `if`, and not followed by another terminal, is a whole multiplicand |
| ParseProperties.AddendTailStops | src/parse.rs:62 | the `*`/`/` repetition with no operator ahead returns its accumulator and input unchanged |
| ParseProperties.EqualendTailStops | src/parse.rs:74 | the `+`/`-` repetition with no operator ahead returns its accumulator and input unchanged |
| ParseProperties.AddendTailStep | src/parse.rs:62-70 | one round of the `*`/`/` repetition folds the next multiplicand onto the accumulator as its right operand |
| ParseProperties.EqualendTailStep | src/parse.rs:74-82 | one round of the `+`/`-` repetition folds the next addend onto the accumulator as its right operand |
| ParseProperties.AddendUnfold | src/parse.rs:60-70 | an addend is its first multiplicand folded with the repetition, followed by a blank skip |
| ParseProperties.EqualendUnfold | src/parse.rs:72-82 | an equalend is its first addend folded with the repetition, followed by a blank skip |
| ParseProperties.AddendOfMultiplicand | src/parse.rs:60-70 | a multiplicand followed by neither `*` nor `/` is a whole addend |
| ParseProperties.EqualendOfAddend | src/parse.rs:72-82 | an addend followed by neither `+` nor `-` is a whole equalend |
| ParseProperties.EqualendLeftAssoc | src/parse.rs:72-82 | `+`/`-` associate to the left: `a op1 b op2 c` builds `(a op1 b) op2 c` |
| ParseProperties.AddendLeftAssoc | src/parse.rs:60-70 | `*`/`/` associate to the left: `a op1 b op2 c` builds `(a op1 b) op2 c` |
| ParseProperties.ProductBindsTighter | src/parse.rs:60-82 | `*`/`/` bind tighter than `+`/`-`: `a + b * c` builds `a + (b * c)` and consumes the whole input |
| ParseProperties.ComparisonDoesNotChain | src/parse.rs:84-96 | a term holds one comparison: `l == r` (or `l != r`) builds `Equals`/`NotEquals` and stops, whatever follows |
| ParseProperties.TermWithoutComparison | src/parse.rs:84-96 | with no `==`/`!=` ahead, a term is its equalend |
| ParseProperties.IfShape | src/parse.rs:48-58 | `if c then t else f endif` is a multiplicand building `IfStmt(c, t, f)` and leaves the text after `endif` |
| ParseProperties.LambdaShape | src/parse.rs:26-36 | `\x . t` builds `Lambda(x, t)` |
| ParseProperties.AssignmentShape | src/parse.rs:98-105 | `name := t` builds `Assignm(name, t)` |
| ParseFolds.FoldApplyLast | src/parse.rs:44-46 | in the fold of applications the last argument is the outermost: `a b … z` is `Apply(z, a b …)` |
| ParseFolds.FoldMathLast | src/parse.rs:63-69 | in the fold of operators the last operator is at the root: `x op1 … opn y` is `(x op1 …) opn y`, left associativity at any length |
| ParseFolds.ApplicationTailFold | src/parse.rs:43-46 | the repetition of terminals folds every terminal it reads onto the accumulator and stops before the first missing one |
| ParseFolds.ApplicationFold | src/parse.rs:41-46 | an application of any number of terminals is the left fold of them all |
| ParseFolds.AddendTailFold | src/parse.rs:62-70 | the `*`/`/` repetition folds every round it reads onto the accumulator and stops where no operator follows |
| ParseFolds.AddendFold | src/parse.rs:60-70 | an addend of any number of multiplicands is the left fold of them all |
| ParseFolds.EqualendTailFold | src/parse.rs:74-82 | the `+`/`-` repetition folds every round it reads onto the accumulator and stops where no operator follows |
| ParseFolds.EqualendFold | src/parse.rs:72-82 | an equalend of any number of addends is the left fold of them all |
| ParseTests.VariableStopsAtBrace | src/parse.rs:113-116 | `_things{}` is the variable `_things` with rest `{}` |
| ParseTests.VariableStopsAtBlank | src/parse.rs:117-120 | `_things _stuff` is the variable `_things` with rest ` _stuff` |
| ParseTests.VariableRefusesDigitStart | src/parse.rs:121-124 | `1_things::/` is not a variable; the failure is at the whole input |
| ParseTests.VariableRefusesEndif | src/parse.rs:125-128 | `endif` is not a variable |
| ParseTests.NumberUnitTests | src/parse.rs:132-143 | `13potato` is the number 13 with rest `potato`; `potato13` is not a number |
| ParseTests.BooleanUnitTests | src/parse.rs:146-161 | `truefalse` and `falsefalse` are booleans with rest `false`; `falsfalse` is refused |
| ParseTermTests.TermOfThree | src/parse.rs:72-96 | three addends joined by `+`/`-` and then the end of input are the whole term `(a op1 b) op2 c` |
| ParseTermTests.TermOfProductInSum | src/parse.rs:60-96 | `a op1 b * c op3 d` with `+`/`-` outside and `*`/`/` inside is the whole term `(a op1 (b * c)) op3 d` |
| ParseTermTests.ComparisonOfTwoSums | src/parse.rs:72-96 | two sums of two addends joined by `==` are the whole term `Equals` of the two sums: the comparison binds loosest |
| ParseTermTests.TermOfConditional | src/parse.rs:48-96 | `if c then t else f endif` followed by blanks is the whole term `IfStmt(c, t, f)`, with the blanks consumed |
| ParseTermTests.TermOfApplicationSum | src/parse.rs:41-96 | three terminals `a b c`, then `+`/`-` and a last addend `d`, are the whole term `Apply(c, Apply(b, a)) op d`: application binds tighter than every operator |
| ParseTermTests.LambdaUnitTest | src/parse.rs:165-178 | `\ x . x + 1` is the lambda `Lambda("x", x + 1)` with nothing left |
| ParseTermTests.TermUnitTestSum | src/parse.rs:183-202 | ` 1 + 2 - 3  ` is the whole term `(1 + 2) - 3`; the leading and trailing blanks are consumed |
| ParseTermTests.TermUnitTestProduct | src/parse.rs:204-229 | `1 + 2 * 3 - 4  ` is the whole term `(1 + (2 * 3)) - 4` |
| ParseTermTests.TermUnitTestComparison | src/parse.rs:231-253 | `1 + 2 == 3 - 4  ` is the whole term `Equals(1 + 2, 3 - 4)` |
| ParseTermTests.TermUnitTestConditional | src/parse.rs:255-268 | `if 1 == 2 then false else true endif  ` is the whole term `IfStmt(Equals(1, 2), false, true)` |
| ParseTermTests.ApplyUnitTest | src/parse.rs:273-289 | `a b c + 5` is the whole term `Apply(c, Apply(b, a)) + 5` |
| ParseTermTests.AssignmentUnitTest | src/parse.rs:294-307 | `_a := 1 + 1` is the assignment `Assignm("_a", 1 + 1)` with nothing left |
| Evaluator.Eval | src/eval.rs:21-63 | running out of fuel happens only for a term that applies a function |
| Evaluator.InU64 | src/eval.rs:65-73 | an exact result is a `u64` value exactly when it lies in `0 .. 2^64 - 1`, otherwise the overflow error |
| Evaluator.EvalBinMathOp | src/eval.rs:65-73 | two numbers give the exact sum, difference, product or quotient when it fits in a u64, overflow otherwise, and division by zero is an error; any non-number operand is the math error |
| Evaluator.EvalEquals | src/eval.rs:75-81 | defined exactly on two numbers or two booleans, giving whether they are equal; otherwise the equality error |
| Evaluator.EvalNotEquals | src/eval.rs:83-89 | defined on the same operands as equality, with the negated answer, and the same error otherwise |
| Evaluator.EvalIf | src/eval.rs:94-105 | a boolean test evaluates exactly one branch, the then-branch on `true` and the else-branch on `false`; any other test is an error; running out of fuel needs an application in a branch |
| Evaluator.EvalFuelMonotone | src/eval.rs:21-63 | an evaluation that did not run out of fuel gives the same answer with any larger fuel |
| Evaluator.EvalFuelMonotoneApply | src/eval.rs:32-40 | the application case of fuel monotonicity |
| Evaluator.EvalFuelMonotoneOperands | src/eval.rs:43-51 | the binary-operator case of fuel monotonicity |
| Evaluator.EvalIfSelects | src/eval.rs:52-56 | once the test evaluates to a boolean, a conditional is the evaluation of the branch it selects and of no other |
| Evaluator.EvalApply | src/eval.rs:32-40 | with the function evaluating to `Func(x, body)` and the argument to `v`, an application is the body evaluated in the caller's environment with only `x` rebound to `v` |
| Evaluator.EvalApplyNotFunction | src/eval.rs:32-40 | applying something that is not a function is an error, whatever the argument would give |
| Evaluator.EvalLeaves | src/eval.rs:23-60 | in every environment, constants evaluate to themselves and a lambda to `Func` of its parameter and body; a variable gives its binding, or the missing-variable error when unbound; an assignment whose right-hand side evaluates to `v` gives `Assignm` of the name and `v` |
| Evaluator.EvalFirstErrorWins | src/eval.rs:32-60 | an error in the first evaluated subterm is the result of every compound term around it |
| Evaluator.EvalSecondErrorWins | src/eval.rs:43-51 | when the left operand succeeds, an error in the right operand is the operator's result |
| Evaluator.DynamicScoping | src/eval.rs:28-37 | a function value ignores the bindings where its lambda was evaluated: the body sees the caller's rebinding |
| Evaluator.EvalMathUnitTests | src/eval.rs:107-157 | the evaluator's constant and arithmetic tests: 1, true, 6-4=2, 4+6=10, 6*4=24, 6/3=2, non-number operands are the math error; also 5/0 is the division error |
| Evaluator.EvalLogicUnitTests | src/eval.rs:159-187 | the equality tests: 4==6 false, 6==6 true, false!=false false, true!=false true, 1!=false is the equality error |
| Evaluator.EvalIfUnitTests | src/eval.rs:189-213 | the conditional tests: a true test gives the then-branch, a false test the else-branch, a number as test is an error |
| TypeChecker.TyEnv.GetVal | src/type_check.rs:17-24 | succeeds exactly on a bound name, with its bound type; otherwise the does-not-exist error |
| TypeChecker.TypeCheck | src/type_check.rs:28-40 | a term that checks is returned with the unchanged environment and contains no application or assignment outside lambda bodies |
| TypeChecker.TypeCheckBinMathOp | src/type_check.rs:42-47 | `Int` exactly when both operands are `Int`, otherwise the arithmetic error |
| TypeChecker.TypeCheckBinLogicOp | src/type_check.rs:49-55 | `Bool` exactly when both sides have the same type and it is not a function type, otherwise the logic error |
| TypeChecker.TypeCheckIf | src/type_check.rs:58-63 | accepted exactly when the test is `Bool` and the branch types are equal, with the branches' type; otherwise the condition error or the mismatch error |
| TypeChecker.MatchType | src/type_check.rs:66-73 | accepted exactly when the two types are structurally equal |
| TypeChecker.TypeCheckWeakening | src/type_check.rs:28-40 | adding bindings to the type environment keeps every accepted term accepted, with the same type |
| TypeChecker.TypeCheckLeaves | src/type_check.rs:28-33 | in every environment, which comes back unchanged: a number is `Int`, a boolean is `Bool`, a lambda has the `Func` type of its own parameter and body; a variable has the type it is bound to, and is the does-not-exist error exactly when unbound |
| TypeChecker.TypeCheckExamples | src/type_check.rs:28-33 | a constant is `Int`, an unbound variable is an error, a bound one has its type, a lambda has the `Func` type of its parameter and body |
| TypeChecker.TypeCheckErrorExamples | src/type_check.rs:34-38 | mismatched equality, a numeric test, branches of different types and an application are each rejected with their own error |
| Soundness.TypeSafety | src/eval.rs:17-20 | a term the checker accepts, in a matching environment, evaluates with any fuel to a value of its type, or fails only in the unsigned arithmetic |

## Left out

- `build.rs`: it generates test functions from files on disk (file I/O and
  code generation). `src/main.rs` only prints a greeting. Neither is part of
  this model, and there is no statement driver that threads environments.
- `src/value.rs` declares `Func{t1, t2}`, but nothing constructs it. The
  model's `Value` has the `Func{name, func_term}` and `Assignm{name, val}`
  forms that `src/eval.rs` builds.
- nom's error values (`ErrorKind::RegexpFind`, `Not`, `Digit`, `Alt`) and
  the exact error strings. A parse failure carries only the remaining input,
  and evaluator and checker errors are one tag per message.
- Parse failure positions: inside a sequence, the model reports the input
  at which the failing element was tried. nom's positions for `ws!`
  sequences are not reproduced beyond that.
- Evaluator.Eval: the source has no fuel bound. A run that would recurse
  forever in Rust (or overflow its stack) ends here with `OutOfFuel`.
- Evaluator.EvalBinMathOp: a release build wraps u64 arithmetic modulo
  2^64 instead of panicking; only the debug build's checked arithmetic is
  modelled.
- The fall-through `_` arm of `eval` (`src/eval.rs:61`) cannot be reached,
  because the other arms cover all ten term forms, so it has no model.
- `HashMap` hashing and iteration order: environments are Dafny maps.
  Rust lifetimes and borrowing (`&'a Term` against `Box<Term>`) are not
  behaviour and are not modelled.
- Parse.ParseMultiplicand, Parse.ParseAddend, Parse.ParseEqualend and
  Parse.ParseTerm: their own contracts state only consumption and blank
  trimming. The trees they build are stated by the `ParseProperties`
  lemmas, under the conditions those lemmas name.
