# Lox tree-walking interpreter, modelled in Dafny

This project models the runtime core of a Java interpreter for Lox, the small
dynamically typed language of *Crafting Interpreters*: the class `Interpreter`
in `src/main/java/com/thomasha/jlox/Interpreter.java`. It consumes syntax trees
built by the parser and gives them their meaning:

- **Values** (`values.dfy`, module `LoxValues`): nil, booleans, numbers and
  strings; truthiness, equality, the number checks of the operators and the
  conversion of a value to display text.
- **Syntax trees** (`ast.dfy`, module `Ast`): the expression kinds Literal,
  Grouping, Unary, Binary, Variable and Assign, and the statement kinds
  Expression, Print, Var, Block and If. The operator sets are closed datatypes,
  so the visitor dispatch becomes a `match`.
- **Scope chain** (`environment.dfy`, module `Environments`): the environment
  is a sequence of finite maps, innermost scope first. It offers only what the
  interpreter calls: `get`, `assign`, `define` and the creation of a child
  scope for a block.
- **Reference semantics** (`semantics.dfy`, module `Semantics`): evaluation
  and execution as functions. Evaluation threads the environment, because an
  assignment inside an expression changes it even when a later part of the
  same expression fails. A thrown `RuntimeError` becomes a `Result`/`Option`
  value, and execution stops at the first one.
- **The interpreter object** (`interpreter.dfy`, module `Jlox`): a class with
  the mutable fields `environment` and `output`. Its methods `Interpret`,
  `Evaluate`, `Execute` and `ExecuteBlock`, and the loop `ExecuteStatements`
  that a program and a block share, are written in the imperative
  shape of the Java methods, including the loops and the swap and restore of
  the current environment around a block. Each one is proved equal to the
  corresponding function of `Semantics`.
- **Properties** (`properties.dfy`, module `LoxProperties`) and **example
  programs** (`scenarios.dfy`, module `LoxScenarios`): what the interpreter
  promises, stated over the reference semantics.

Output is a sequence of printed lines. The reporting call `Lox.runtimeError`
is modelled by `Interpret` returning the error it would report.

The error messages end in a full stop, as in the code
(`"Operand must be a number."`).

`Environment.java` is not part of this model. Its behaviour is taken from how the
interpreter uses it:
- `get` and `assign` search from the innermost scope outwards;
- `define` writes to the innermost scope;
- an unbound name gives the error `Undefined variable '<name>'.`, the usual
  wording of the jlox environment.

In Java, the scopes enclosing a block are shared objects. So reinstating the
previous environment after a block keeps the assignments the block made
through them. With a chain of map values, the same effect is obtained by
dropping the block's own scope.

## Model

| member | source | states |
|---|---|---|
| LoxValues.IsTruthy | src/main/java/com/thomasha/jlox/Interpreter.java:208-222 | a value is falsy exactly when it is nil or `false`; 0 and "" are truthy |
| LoxValues.IsEqual | src/main/java/com/thomasha/jlox/Interpreter.java:224-241 | nil equals only nil, and otherwise two values are equal exactly when they have the same kind and the same payload (no coercion) |
| LoxValues.ObjectEquals | src/main/java/com/thomasha/jlox/Interpreter.java:240 | `equals` on a non-nil value is true exactly for a value of the same kind with the same payload |
| LoxValues.CheckNumberOperand | src/main/java/com/thomasha/jlox/Interpreter.java:196-200 | succeeds exactly on a number, and then hands back its payload; otherwise fails with "Operand must be a number." at the operator token |
| LoxValues.CheckNumberOperands | src/main/java/com/thomasha/jlox/Interpreter.java:202-206 | succeeds exactly when both operands are numbers; otherwise fails with "Operands must be numbers." at the operator token |
| LoxValues.TrimIntegralSuffix | src/main/java/com/thomasha/jlox/Interpreter.java:255-259 | a text ending in ".0" loses exactly that suffix; any other text is unchanged |
| LoxValues.Stringify | src/main/java/com/thomasha/jlox/Interpreter.java:250-263 | nil prints as `nil`, a boolean as `true` or `false`, a string as itself, and a number as its text with a trailing ".0" removed |
| LoxValues.StringifyIntegralNumber | src/main/java/com/thomasha/jlox/Interpreter.java:250-260 | a number whose text is `d.0` prints as `d` (3.0 prints as 3) |
| LoxValues.StringifyFractionalNumber | src/main/java/com/thomasha/jlox/Interpreter.java:254-260 | a number whose text does not end in ".0" prints as that text (3.5 prints as 3.5) |
| Environments.Get | src/main/java/com/thomasha/jlox/Interpreter.java:61-64 | succeeds exactly when some scope binds the name, with the value of the innermost such scope; otherwise fails with the undefined-variable error |
| Environments.Assign | src/main/java/com/thomasha/jlox/Interpreter.java:114 | succeeds exactly when some scope binds the name and then overwrites the binding in the innermost such scope only; an unbound name is an error, never a new definition |
| Environments.AssignKeepsShape | src/main/java/com/thomasha/jlox/Interpreter.java:114 | assignment never changes which names any scope declares |
| Environments.GetAfterAssign | src/main/java/com/thomasha/jlox/Interpreter.java:112-116 | after assigning a bound name, reading it yields the assigned value |
| Environments.Define | src/main/java/com/thomasha/jlox/Interpreter.java:190 | binds the name in the innermost scope, replacing an earlier binding there, keeps the other names of that scope and leaves the enclosing scopes untouched |
| Environments.GetAfterDefine | src/main/java/com/thomasha/jlox/Interpreter.java:190 | a name just defined reads back as the defined value |
| Environments.GetOtherAfterDefine | src/main/java/com/thomasha/jlox/Interpreter.java:190 | defining one name leaves every other name reading as before |
| Environments.Child | src/main/java/com/thomasha/jlox/Interpreter.java:134 | a block's environment is a new empty scope whose parent is the current chain |
| Semantics.Quotient | src/main/java/com/thomasha/jlox/Interpreter.java:99-101 | division by a non-zero number is exact division, and division never fails |
| Semantics.ApplyUnary | src/main/java/com/thomasha/jlox/Interpreter.java:46-58 | `!` accepts any value and yields the negated truthiness; `-` succeeds exactly on a number, yields its negation, and otherwise fails with "Operand must be a number." |
| Semantics.ApplyBinary | src/main/java/com/thomasha/jlox/Interpreter.java:67-109 | `==` and `!=` never fail and give equality and its negation; the comparisons and `-`, `/`, `*` succeed exactly on two numbers, else "Operands must be numbers."; `+` succeeds exactly on two numbers or two strings, else "Operands must be two numbers or two strings."; on two numbers `>`, `>=`, `<`, `<=` compare them and `-`, `+`, `*`, `/` give the difference, sum, product and quotient; on two strings `+` concatenates |
| Semantics.Eval | src/main/java/com/thomasha/jlox/Interpreter.java:29-116 | evaluating any expression never declares a name: the chain keeps its depth and every scope keeps its names |
| Semantics.AssignEvaluated | src/main/java/com/thomasha/jlox/Interpreter.java:112-116 | an assignment succeeds exactly when the name is bound and then yields the assigned value; the new chain is the old one with the innermost binding of the name overwritten; otherwise it fails with the undefined-variable error and changes nothing; it never changes which names a scope declares |
| Semantics.AssignEvaluatedReadsBack | src/main/java/com/thomasha/jlox/Interpreter.java:114-115 | after an assignment to a bound name, the name reads back as the assigned value |
| Semantics.Exec | src/main/java/com/thomasha/jlox/Interpreter.java:128-130 | executing any statement keeps the chain's depth, adds names only to the innermost scope and only appends output, on success and on error |
| Semantics.ExecExpression | src/main/java/com/thomasha/jlox/Interpreter.java:151-155 | keeps the effects of the expression, drops its value, and fails exactly when the expression fails, with the expression's own error |
| Semantics.ExecPrint | src/main/java/com/thomasha/jlox/Interpreter.java:157-162 | appends exactly one line, the display text of the value, when the expression succeeds, and no line when it fails |
| Semantics.ExecVar | src/main/java/com/thomasha/jlox/Interpreter.java:175-192 | binds the initializer's value, or nil without an initializer, in the innermost scope; an initializer error is the statement's error and defines nothing; prints nothing |
| Semantics.ExecIf | src/main/java/com/thomasha/jlox/Interpreter.java:164-173 | the chain keeps its depth and only gains names in its innermost scope, and output is only appended |
| Semantics.ExecBlock | src/main/java/com/thomasha/jlox/Interpreter.java:132-149 | on normal and on error exit alike, the chain after a block has the depth and the declared names it had before, and output was only appended |
| Semantics.ExecSeq | src/main/java/com/thomasha/jlox/Interpreter.java:143-145 | running statements in order keeps the chain's depth, only adds names to the innermost scope and only appends output |
| Semantics.ExecSeqStopsAtError | src/main/java/com/thomasha/jlox/Interpreter.java:8-16 | once a prefix of a program stops with an error, the program ends exactly as that prefix did: nothing after it runs |
| Semantics.ExecSeqAppend | src/main/java/com/thomasha/jlox/Interpreter.java:10-12 | without an error, running two statement lists one after the other equals running their concatenation |
| Jlox.Interpreter.constructor | src/main/java/com/thomasha/jlox/Interpreter.java:6 | a new interpreter has just the empty global scope and no output |
| Jlox.Interpreter.Interpret | src/main/java/com/thomasha/jlox/Interpreter.java:8-16 | the loop leaves exactly the state and the reported error of `ExecSeq`; the printed lines before an error are kept and the chain keeps its depth |
| Jlox.Interpreter.ExecuteStatements | src/main/java/com/thomasha/jlox/Interpreter.java:143-145 | the loop over a statement list, shared by a program and a block, leaves exactly the state and error of `ExecSeq`: statements run in order and the first error ends the loop |
| Jlox.Interpreter.Evaluate | src/main/java/com/thomasha/jlox/Interpreter.java:29-116 | the value or error and the new environment are exactly those of `Eval`; output is untouched |
| Jlox.Interpreter.Execute | src/main/java/com/thomasha/jlox/Interpreter.java:128-192 | the new environment, output and error are exactly those of `Exec` |
| Jlox.Interpreter.ExecuteBlock | src/main/java/com/thomasha/jlox/Interpreter.java:138-149 | runs the statements with the child chain installed, stops at the first error, and on every exit reinstates a chain of the previous depth; the result is exactly that of `ExecBlock` |
| LoxProperties.IsEqualIsEquivalence | src/main/java/com/thomasha/jlox/Interpreter.java:234-241 | Lox equality is reflexive, symmetric and transitive |
| LoxProperties.IsEqualNoCoercion | src/main/java/com/thomasha/jlox/Interpreter.java:234-241 | nil equals nil, nil never equals a non-nil value, a number never equals a string, `false` does not equal nil and 0 does not equal `false` |
| LoxProperties.BangEqualNegatesEqualEqual | src/main/java/com/thomasha/jlox/Interpreter.java:72-75 | `a != b` has the same effects and errors as `a == b` and otherwise yields the opposite boolean |
| LoxProperties.EqualityNeverFails | src/main/java/com/thomasha/jlox/Interpreter.java:72-75 | `==` and `!=` fail only when one of their operands fails |
| LoxProperties.BinaryEvaluatesLeftFirst | src/main/java/com/thomasha/jlox/Interpreter.java:67-69 | an error in the left operand is the result of the binary expression; the right operand runs in the environment the left one left behind, and its error, or else the operator applied to both values in the environment the right one left behind, is the result |
| LoxProperties.PlusRejectsMixedOperands | src/main/java/com/thomasha/jlox/Interpreter.java:91-98 | a number plus a string, in either order, fails with "Operands must be two numbers or two strings." |
| LoxProperties.AssignYieldsAssignedValue | src/main/java/com/thomasha/jlox/Interpreter.java:112-116 | an assignment to a bound name yields the value of its right-hand side and the name then reads back as it |
| LoxProperties.AssignUndeclaredFails | src/main/java/com/thomasha/jlox/Interpreter.java:112-116 | the right-hand side runs first: if it fails, its own error is the result; after a successful right-hand side, assigning an unbound name fails with the undefined-variable error and keeps only the effects of the right-hand side |
| LoxProperties.VarWithoutInitializerBindsNil | src/main/java/com/thomasha/jlox/Interpreter.java:183-192 | `var x;` succeeds, binds nil in the current scope, leaves enclosing scopes alone and prints nothing |
| LoxProperties.VarRedeclarationRebinds | src/main/java/com/thomasha/jlox/Interpreter.java:183-192 | declaring the same name twice in one scope is no error and the second value wins |
| LoxProperties.IfChoosesByTruthiness | src/main/java/com/thomasha/jlox/Interpreter.java:164-173 | an error in the condition ends the statement with that error and runs no branch; otherwise a truthy value runs the then-branch, a falsy one the else-branch if present and otherwise nothing |
| LoxProperties.IfZeroRunsThenBranch | src/main/java/com/thomasha/jlox/Interpreter.java:164-173 | `if (0)` and `if ("")` run the then-branch |
| LoxProperties.DeclarationsStayInScope | src/main/java/com/thomasha/jlox/Interpreter.java:183-192 | declarations with literal initializers run in a child scope change only that scope: no error, no output, the enclosing chain untouched |
| LoxProperties.BlockOfDeclarationsLeavesNoTrace | src/main/java/com/thomasha/jlox/Interpreter.java:133-149 | a block of such declarations (`{ var x = 1; var y; }`) leaves the whole state exactly as it was |
| LoxProperties.InterpretStopsAtFirstError | src/main/java/com/thomasha/jlox/Interpreter.java:8-16 | a program whose statement `n` fails ends with that statement's error and state; nothing after it runs and the earlier output is kept |
| LoxScenarios.Shadowing | src/main/java/com/thomasha/jlox/Interpreter.java:133-192 | `var x = "outer"; { var x = "inner"; print x; } print x;` prints inner, then outer |
| LoxScenarios.AssignmentReachesEnclosingScope | src/main/java/com/thomasha/jlox/Interpreter.java:112-149 | `var x = 1; { x = 2; } print x;` prints 2 |
| LoxScenarios.AssignUndeclared | src/main/java/com/thomasha/jlox/Interpreter.java:8-16 | `x = 1; print "after";` without a declaration stops with `Undefined variable 'x'.`, prints nothing and changes nothing |
| LoxScenarios.PrintMixedPlusStops | src/main/java/com/thomasha/jlox/Interpreter.java:91-98 | `print "a"; print 1 + "2"; print "b";` prints a and stops with the error of `+` |
| LoxScenarios.IfElsePrintsElse | src/main/java/com/thomasha/jlox/Interpreter.java:164-173 | `if (false) print "a"; else print "b";` prints b |

## Left out

- Numbers are exact reals. IEEE-754 rounding, NaN, infinities and signed zero
  (`(double)` arithmetic at Interpreter.java:52 and 78-104) are not modelled.
  So `NaN == NaN` and `0.0 == -0.0`, which `Double.equals` decides by bit
  pattern, are not captured.
- Semantics.Quotient: division by zero yields 0 in the model, where Java
  yields an infinity or NaN. What the model keeps is that division by zero is
  not a runtime error.
- `Double.toString` is a parameter, `numberText`, of the interpreter and of
  the statement semantics. Only the removal of a trailing ".0" by `stringify`
  is modelled. `Boolean.toString` gives "true" and "false".
- Real I/O: `System.out.println` appends to the `output` field. `Lox.runtimeError`
  is replaced by `Interpret` returning the error it would report.
- The visitor and `accept` double dispatch (Interpreter.java:29-31, 128-130),
  and the unreachable `default`/`return null` branches (Interpreter.java:55-57,
  107-108). The operator sets are closed datatypes instead.
- The internals of `Environment.java` and `RuntimeError.java` are not part of
  this model. Nor are tokens beyond their lexeme and line. The wording of the
  undefined-variable message follows the standard jlox environment.
- Environments are values, not shared objects. The model does not capture
  aliasing of `Environment` objects beyond what a block needs. In this
  language subset no environment outlives its block, so nothing observable
  depends on it.
- Semantics.ExecIf: its own contract states only the frame properties
  (depth, innermost-scope growth, appended output). The choice of branch and
  the error of a failing condition are stated by
  LoxProperties.IfChoosesByTruthiness.
