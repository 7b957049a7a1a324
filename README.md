# SeExpr type tester, modelled in Dafny

SeExpr's type tester checks that the expression engine's type checker
infers the right type for each construct of the language. It binds the
free variables of a fixed expression template, such as `$x + $y`, to
types drawn from a small representative set. It asks the checker to parse
and type the template. It then compares the answer with an oracle, a
hand-written rule that predicts the type.

A type has a shape and a lifetime. The shape is Error, a string, or FP
with N components (FP1 is the scalar, FPN a vector). The lifetime is
Constant, Uniform or Varying, ordered in that order. When a construct
succeeds, the result's lifetime is the join (the maximum) of its operands'
lifetimes.

The project models the following parts of `src/tests/TypeTester.cpp`:

- `types.dfy` (module `ExprTypes`): the type model the oracles use. It
  covers shapes, lifetimes and their join (`becomeLifetime`),
  `isUnderNumeric`, `isUnderValue`, `isa` and `==`.
- `oracles.dfy` (module `Oracles`): the nine oracle functions and the
  properties that relate them.
- `templates.dfy` (module `Templates`): the sweep's table of templates,
  each dispatched to its oracle. It also states properties that hold
  across all the oracles.
- `runner.dfy` (module `Runner`): the pass/fail decision of
  `TypeTesterExpr::test`, and the `testSingle`/`testDouble`/`testTriple`
  driver loop.
- `cli.dfy` (module `CommandLine`): the argument scan of `main`.
- `wrappers.dfy` (module `Wrappers`): an `Option` datatype.

The external checker is modelled as an input. Its verdict is a
`CheckerReply(valid, ret)`, holding the values of `isValid()` and
`returnType()`.

`SeExprType::isa` is not part of this model. The comment at
`src/tests/TypeTester.cpp:151-155` fixes it on numeric types:
- two FP1 types are compatible;
- an FP1 and an FPN are compatible, in either order;
- two FPN types are compatible only when they have the same N.

The model adds two assumptions of its own, which the comment does not state:
- any other pair is compatible only when the shapes are equal;
- lifetimes play no part in `isa`.

These assumptions decide `generalComparison` on strings. Two strings
give FP1, and a string against an FP type gives Error. They also underlie
the third `ensures` of `Oracles.ComparisonsAgree`.

Three consequences of the code that a reader might not expect:

- `isa` admits an FPN against an FP1 in either order (comment at lines
  151-155), and `numericToNumeric` relies on that: a vector plus a scalar
  is a vector (`Oracles.ArithmeticBroadcast`).
- `conditional` compares whole types with `==` at line 192, so lifetimes
  count too. Two FP2 branches of different lifetimes, such as a constant
  then-branch and a uniform else-branch, give an error
  (`Oracles.ConditionalScenario`).
- In `test`, `returned` is the error type when the checker rejects the
  expression, and also when the checker accepts it and reports the error
  type (`Runner.Test`).

## Model

| member | source | states |
|---|---|---|
| `ExprTypes.Join` | src/tests/TypeTester.cpp:123 | the lifetime `becomeLifetime` gives to a two-operand result is an upper bound of both operands' lifetimes and is one of them, so it is their maximum |
| `ExprTypes.Join3` | src/tests/TypeTester.cpp:180 | the three-operand join is an upper bound of all three lifetimes and equals one of them |
| `ExprTypes.JoinLaws` | src/tests/TypeTester.cpp:123 | the join is commutative, associative and idempotent; Constant is its identity and Varying absorbs everything |
| `ExprTypes.ErrorType` | src/tests/TypeTester.cpp:108 | `ErrorType_varying` is an error type and keeps the Error-is-Varying invariant |
| `ExprTypes.FP1Type` | src/tests/TypeTester.cpp:114 | `FP1Type_varying()` followed by `becomeLifetime` gives a numeric FP1 with exactly the lifetime given |
| `ExprTypes.FPNType` | src/tests/TypeTester.cpp:158-160 | `FPNType_varying(n)` followed by `becomeLifetime` gives a numeric type of dimension n with exactly the lifetime given |
| `ExprTypes.ExprType.Isa` | src/tests/TypeTester.cpp:151-155 | equal shapes are always compatible; a scalar is compatible with every numeric type, in either order; compatible types are both numeric or both not, and both errors or both not. On pairs that are not both numeric the comment says nothing, so there these follow the model's assumption (see Left out) |
| `ExprTypes.IsaLaws` | src/tests/TypeTester.cpp:151-155 | `isa` is reflexive and symmetric; FP1 is compatible with every FPN in both orders; two FPN types are compatible iff their dimensions agree |
| `ExprTypes.IsaIgnoresLifetimes` | src/tests/TypeTester.cpp:151-155 | changing either operand's lifetime never changes `isa` |
| `Oracles.Identity` | src/tests/TypeTester.cpp:98-102 | assignment returns its operand's type unchanged |
| `Oracles.Numeric` | src/tests/TypeTester.cpp:104-109 | succeeds iff the operand is numeric; then it is the operand itself, otherwise exactly Error@Varying |
| `Oracles.UnaryNumericToScalar` | src/tests/TypeTester.cpp:111-116 | succeeds iff the operand is numeric; then it is FP1 with the operand's lifetime, otherwise exactly Error@Varying |
| `Oracles.NumericToScalar` | src/tests/TypeTester.cpp:118-125 | succeeds iff both operands are numeric, of any dimensions; then it is FP1 with the joined lifetime, otherwise exactly Error@Varying |
| `Oracles.GeneralComparison` | src/tests/TypeTester.cpp:127-135 | succeeds iff both operands are values and `isa` holds; then it is FP1 with the joined lifetime, otherwise exactly Error@Varying |
| `Oracles.NumericComparison` | src/tests/TypeTester.cpp:137-145 | succeeds iff both operands are numeric and `isa` holds; then it is FP1 with the joined lifetime, otherwise exactly Error@Varying |
| `Oracles.NumericToNumeric` | src/tests/TypeTester.cpp:147-162 | succeeds iff both operands are numeric and `isa` holds; then its dimension is the larger operand dimension (the vector operand's, or 1 for two scalars) and its lifetime the join, otherwise exactly Error@Varying |
| `Oracles.NumericTo2Vector` | src/tests/TypeTester.cpp:164-171 | succeeds iff both operands are numeric, with no `isa` check; then it is FP2 with the joined lifetime, otherwise exactly Error@Varying |
| `Oracles.NumericTo3Vector` | src/tests/TypeTester.cpp:173-182 | succeeds iff all three operands are numeric; then it is FP3 with the join of all three lifetimes, otherwise exactly Error@Varying |
| `Oracles.Conditional` | src/tests/TypeTester.cpp:184-194 | succeeds iff the condition is numeric, both branches are values and the branches are equal as whole types; then it has the branches' shape and the join of the condition's and branches' lifetimes, otherwise exactly Error@Varying |
| `Oracles.ComparisonsAgree` | src/tests/TypeTester.cpp:127-145 | wherever the numeric comparison succeeds, the general comparison gives the same type; the two agree on numeric operands and differ only when both operands are strings |
| `Oracles.ArithmeticSymmetric` | src/tests/TypeTester.cpp:147-162 | the arithmetic rule gives the same type for both operand orders |
| `Oracles.ArithmeticDimensionMismatch` | src/tests/TypeTester.cpp:151-161 | two FPN operands with different N give exactly Error@Varying |
| `Oracles.ArithmeticBroadcast` | src/tests/TypeTester.cpp:151-160 | a scalar combined with an FPN gives an FPN of the joined lifetime, on either side |
| `Oracles.ArithmeticDomainIsComparisonDomain` | src/tests/TypeTester.cpp:137-171 | arithmetic accepts exactly the operands the ordering comparisons accept; the 2-vector literal accepts exactly those the binary numeric-to-scalar rule accepts |
| `Oracles.ArithmeticClosed` | src/tests/TypeTester.cpp:104-162 | an arithmetic result passes unchanged through the unary numeric rule |
| `Oracles.VectorLiteralsIgnoreDimensions` | src/tests/TypeTester.cpp:164-182 | numeric operands of any dimensions give FP2 and FP3 from the vector literals |
| `Oracles.IdentityScenario` | src/tests/TypeTester.cpp:316 | assignment of a uniform FP3 gives a uniform FP3 |
| `Oracles.BroadcastScenario` | src/tests/TypeTester.cpp:331 | a constant scalar plus a varying FP2 is a varying FP2 |
| `Oracles.MismatchScenario` | src/tests/TypeTester.cpp:331 | a uniform FP2 plus a uniform FP3 is an error |
| `Oracles.ConditionalScenario` | src/tests/TypeTester.cpp:340 | a conditional whose FP2 branches differ only in lifetime is an error; with equal uniform branches it is a uniform FP2 |
| `Templates.JoinAll` | src/tests/TypeTester.cpp:114-192 | the join of any number of operand lifetimes bounds each of them and is one of them |
| `Templates.Expected` | src/tests/TypeTester.cpp:316-341 | for every template: a valid result needs every operand to be valid and has the join of all their lifetimes; a failure is exactly Error@Varying (except assignment, which returns its operand); well-formed operands give a well-formed result |
| `Templates.ShapeDecidesSuccess` | src/tests/TypeTester.cpp:107-182 | for every template except the two conditionals, success and the result's shape depend only on the operand shapes |
| `Templates.ConditionalSeesLifetimes` | src/tests/TypeTester.cpp:192 | the conditional gives different outcomes for two bindings with the same shapes |
| `Templates.Sweep` | src/tests/TypeTester.cpp:316-341 | the sweep runs 24 templates. Every construct is among them, no two entries are the same construct, and no two have the same expression text |
| `Runner.Classify` | src/tests/TypeTester.cpp:68-75 | stands for no code in TypeTester.cpp: a reference classification of a case. A case is a Match iff an accepted, non-error reply has exactly the predicted type, or a rejected or error reply meets a predicted error. It is an under-constraint iff an accepted, non-error reply meets a predicted error, and an over-constraint iff a rejected or error reply meets a predicted valid type; the rest are divergences |
| `Runner.Test` | src/tests/TypeTester.cpp:56-77 | the checker's rejection sets `parseError`. An accepted expression fails iff the expected type differs from `returnType()`. A rejected one fails iff the expected type is valid. Together these make the failure flag exactly the failure rule `Mismatch`. `returned` is `returnType()` when accepted and Error@Varying when rejected. For well-formed types, failure is exactly a non-Match outcome |
| `Runner.MismatchIsNotMatch` | src/tests/TypeTester.cpp:68-75 | for well-formed types, the failure rule fails exactly the under-constraint, over-constraint and divergence outcomes |
| `Runner.RunTemplate` | src/tests/TypeTester.cpp:197-245 | testing the first binding and then each remaining one tests every binding once, in order; the k-th failure flag is the failure rule applied to the checker's reply and the oracle's prediction for the k-th binding |
| `CommandLine.CharAt` | src/tests/TypeTester.cpp:271-275 | reading `argv[i][k]`: within the argument it is the k-th character, past the end it is the terminating NUL |
| `CommandLine.VerbositySetting` | src/tests/TypeTester.cpp:273-292 | an argument sets a verbosity iff it starts with `-v=` and a digit 0 to 3; the setting is that digit's value, and such an argument is never `-t` |
| `CommandLine.LastVerbosity` | src/tests/TypeTester.cpp:265-291 | the verbosity left by a run of arguments is between 0 and 3, and it is the default 0 when none sets one |
| `CommandLine.LastVerbosityIsLastSetting` | src/tests/TypeTester.cpp:270-291 | the verbosity left by a run of arguments is the value set by the last argument that sets one |
| `CommandLine.FirstTestFlag` | src/tests/TypeTester.cpp:293-299 | finds the first argument that starts with `-t`, or reports there is none |
| `CommandLine.IsTestFlag` | src/tests/TypeTester.cpp:271-293 | an argument selects the single-expression mode iff its first two characters are `-t`, whatever follows |
| `CommandLine.ScanArguments` | src/tests/TypeTester.cpp:264-303 | the scan leaves one of two results. With no `-t`, it leaves the last valid verbosity and no test. With a first `-t` at position i, it leaves the last valid verbosity before i, `givenTest` set, and the next argument as the expression, or the empty string when the `-t` is last |
| `CommandLine.LaterArgumentsIgnored` | src/tests/TypeTester.cpp:293-298 | once a `-t` with a following argument is seen, the test is selected with that argument, and appending any arguments changes nothing |
| `CommandLine.VerbosityFlagTakesEffect` | src/tests/TypeTester.cpp:273-291 | before any `-t`, an argument that starts with `-v=N`, N from 0 to 3, sets the verbosity to N whatever follows the digit, and leaves the rest unchanged |
| `CommandLine.OtherArgumentIgnored` | src/tests/TypeTester.cpp:271-302 | before any `-t`, an argument that is neither `-t` nor a valid `-v=N` changes nothing. Such arguments include unknown flags, `-v` followed by another character, and plain words |
| `CommandLine.TrailingTestFlag` | src/tests/TypeTester.cpp:293-299 | a `-t` as the last argument selects the single-expression mode with the empty expression, keeping the verbosity |

## Left out

- The parser and type checker (`setExpr`, `isValid`, `setReturnType`, `returnType`, `parseError`) are foreign calls into the expression engine. They are modelled only as the `CheckerReply` input of `Runner.Test` and the `check` function of `Runner.RunTemplate`. The type passed to `setReturnType` is therefore not modelled.
- `SeExprType` itself is not part of this model. Only the uses above are modelled. `Identity` can return an error type with any lifetime, because nothing in this file constrains its input.
- `TypeIterator.h` and `TypeBuilder.h` are not part of this model. These are the representative type set, the single, double and triple type iterators, the binding descriptions and the injection of variable types into the checker. `Runner.RunTemplate` takes the bindings as a sequence. It assumes that `start()` and `next()` return the number of bindings left after the current one.
- Runner.RunTemplate: does not say that the iterator's bindings cover the representative set, because the iterators are not part of this model.
- All console output and the verbosity-gated messages are I/O and are left out. These are lines 63-67, 79-95 and 305-314, and the announcements in the driver loops.
- The single-expression mode at lines 305-314 only reports the checker's verdict. Beyond the settings `CommandLine.ScanArguments` computes, it is I/O.
- The fixed builtin and local-function checks (lines 343-365) are left out. Their expected results depend on `func` and `compress` definitions inside the expression engine.
- ExprTypes.ExprType.Isa: outside numeric pairs, the behaviour of `isa` is assumed, not taken from the code. Two error types, or two string types, are assumed compatible. A string is assumed incompatible with an FP type or an error type, and an FP type incompatible with an error type. Lifetimes are assumed never to matter. `SeExprType::isa` is not part of this model, and the comment at lines 151-155 covers only numeric shapes.
- The process always exits with status 0 (line 368). This is not modelled.
