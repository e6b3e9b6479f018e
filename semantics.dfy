/**
 * The meaning of expressions and statements as functions: the reference
 * the interpreter's methods are proved against. Evaluation threads the
 * environment because an assignment inside an expression changes it, and
 * does so even when a later part of the same expression fails.
 */
module Semantics {
  import opened LoxValues
  import opened Ast
  import opened Environments

  /** Java's `Double.toString`; only its ".0" suffix is interpreted here. */
  type NumberText = real -> string

  /** Division in the model. IEEE-754 division by zero yields an infinity or
      NaN, which exact reals lack; the model yields 0 there. Either way it is
      not a runtime error. */
  function Quotient(a: real, b: real): (q: real)
    ensures b != 0.0 ==> q * b == a
  {
    if b == 0.0 then 0.0 else a / b
  }

  /** Unary `-` needs a number; unary `!` takes any value. */
  function ApplyUnary(op: UnaryOp, operator: Token, right: Value): (r: Result<Value>)
    ensures op == Not ==> r == Ok(Bool(!IsTruthy(right)))
    ensures op == Negate ==> (r.Ok? <==> right.Number?)
    ensures op == Negate && r.Ok? ==> r.value.Number? && r.value.x + right.x == 0.0
    ensures r.Err? ==> r.error == RuntimeError(operator, OperandMustBeNumber)
  {
    match op
    case Negate =>
      var x :- CheckNumberOperand(operator, right);
      Ok(Number(-x))
    case Not => Ok(Bool(!IsTruthy(right)))
  }

  /** The operators that accept numbers only. */
  predicate NumericOnly(op: BinaryOp) {
    op in {Greater, GreaterEqual, Less, LessEqual, Minus, Slash, Star}
  }

  function ApplyBinary(op: BinaryOp, operator: Token, left: Value, right: Value): (r: Result<Value>)
    ensures op == EqualEqual ==> r == Ok(Bool(left == right))
    ensures op == BangEqual ==> r == Ok(Bool(left != right))
    ensures NumericOnly(op) ==> (r.Ok? <==> left.Number? && right.Number?)
    ensures NumericOnly(op) && r.Err? ==> r.error == RuntimeError(operator, OperandsMustBeNumbers)
    ensures op == Plus ==> (r.Ok? <==> (left.Number? && right.Number?) || (left.Str? && right.Str?))
    ensures op == Plus && r.Err? ==> r.error == RuntimeError(operator, OperandsMustBeNumbersOrStrings)
    ensures op == Plus && left.Str? && right.Str? ==> r == Ok(Str(left.s + right.s))
    ensures left.Number? && right.Number? ==>
      && (op == Greater ==> r == Ok(Bool(left.x > right.x)))
      && (op == GreaterEqual ==> r == Ok(Bool(left.x >= right.x)))
      && (op == Less ==> r == Ok(Bool(left.x < right.x)))
      && (op == LessEqual ==> r == Ok(Bool(left.x <= right.x)))
      && (op == Minus ==> r == Ok(Number(left.x - right.x)))
      && (op == Plus ==> r == Ok(Number(left.x + right.x)))
      && (op == Slash ==> r == Ok(Number(Quotient(left.x, right.x))))
      && (op == Star ==> r == Ok(Number(left.x * right.x)))
  {
    match op
    case BangEqual => Ok(Bool(!IsEqual(left, right)))
    case EqualEqual => Ok(Bool(IsEqual(left, right)))
    case Greater =>
      var _ :- CheckNumberOperands(operator, left, right);
      Ok(Bool(left.x > right.x))
    case GreaterEqual =>
      var _ :- CheckNumberOperands(operator, left, right);
      Ok(Bool(left.x >= right.x))
    case Less =>
      var _ :- CheckNumberOperands(operator, left, right);
      Ok(Bool(left.x < right.x))
    case LessEqual =>
      var _ :- CheckNumberOperands(operator, left, right);
      Ok(Bool(left.x <= right.x))
    case Minus =>
      var _ :- CheckNumberOperands(operator, left, right);
      Ok(Number(left.x - right.x))
    case Plus =>
      if left.Number? && right.Number? then Ok(Number(left.x + right.x))
      else if left.Str? && right.Str? then Ok(Str(left.s + right.s))
      else Err(RuntimeError(operator, OperandsMustBeNumbersOrStrings))
    case Slash =>
      var _ :- CheckNumberOperands(operator, left, right);
      Ok(Number(Quotient(left.x, right.x)))
    case Star =>
      var _ :- CheckNumberOperands(operator, left, right);
      Ok(Number(left.x * right.x))
  }

  /** The outcome of evaluating an expression: its value or the error it
      raised, and the environment as it stands afterwards. */
  datatype Evaluated = Evaluated(result: Result<Value>, env: Env)

  /** Evaluates `e` in `env`. Sub-expressions are evaluated left to right and
      the first error aborts the rest. Evaluation never declares a name, so the
      shape of the chain is unchanged. */
  function Eval(e: Expr, env: Env): (r: Evaluated)
    ensures SameShape(env, r.env)
    decreases e
  {
    match e
    case Literal(v) => Evaluated(Ok(v), env)
    case Grouping(inner) => Eval(inner, env)
    case Unary(op, operator, right) =>
      var ev := Eval(right, env);
      if ev.result.Err? then ev
      else Evaluated(ApplyUnary(op, operator, ev.result.value), ev.env)
    case Binary(left, op, operator, right) =>
      var lv := Eval(left, env);
      if lv.result.Err? then lv
      else
        var rv := Eval(right, lv.env);
        if rv.result.Err? then rv
        else Evaluated(ApplyBinary(op, operator, lv.result.value, rv.result.value), rv.env)
    case Variable(name) => Evaluated(Get(env, name), env)
    case Assign(name, rhs) =>
      var ev := Eval(rhs, env);
      if ev.result.Err? then ev else AssignEvaluated(name, ev.result.value, ev.env)
  }

  /** An assignment whose right-hand side evaluated to `value`: it writes the
      value to the innermost binding of `name` and yields the value itself;
      without a binding it fails and changes nothing. */
  function AssignEvaluated(name: Token, value: Value, env: Env): (r: Evaluated)
    ensures r.result.Ok? <==> Binds(env, name.lexeme)
    ensures r.result.Ok? ==> r.result.value == value
    ensures r.result.Err? ==> r == Evaluated(Err(UndefinedVariable(name)), env)
    ensures forall k :: Innermost(env, name.lexeme, k) ==> r.env == env[k := env[k][name.lexeme := value]]
    ensures SameShape(env, r.env)
  {
    var updated := Environments.Assign(env, name, value);
    if updated.Err? then Evaluated(Err(updated.error), env)
    else
      AssignKeepsShape(env, name, value);
      Evaluated(Ok(value), updated.value)
  }

  /** An assignment whose right-hand side succeeds ends as `AssignEvaluated`
      of that value, in the environment the right-hand side left behind. */
  lemma EvalAssignOk(name: Token, rhs: Expr, env: Env)
    requires Eval(rhs, env).result.Ok?
    ensures Eval(Assign(name, rhs), env) ==
      AssignEvaluated(name, Eval(rhs, env).result.value, Eval(rhs, env).env)
  {
  }

  /** After an assignment that succeeds, the name reads back as the assigned value. */
  lemma AssignEvaluatedReadsBack(name: Token, value: Value, env: Env)
    requires Binds(env, name.lexeme)
    ensures Get(AssignEvaluated(name, value, env).env, name) == Ok(value)
  {
    GetAfterAssign(env, name, value);
  }

  /** What a program can observe: the scope chain and the lines printed so far. */
  datatype State = State(env: Env, out: seq<string>)

  /** The state after running statements, and the error that stopped them, if any. */
  datatype Executed = Executed(state: State, error: Option<RuntimeError>)

  /** A state after running statements from `st`: the chain is as deep as before,
      only its innermost scope gained names, and output was only appended. */
  ghost predicate Follows(st: State, st': State) {
    Grows(st.env, st'.env) && st.out <= st'.out
  }

  lemma FollowsTransitive(a: State, b: State, c: State)
    requires Follows(a, b) && Follows(b, c)
    ensures Follows(a, c)
  {
  }

  /** The state after an expression was evaluated for its effect on the chain. */
  function AfterEval(ev: Evaluated, st: State): (after: State) {
    State(ev.env, st.out)
  }

  /** The error a statement reports for an expression result: none on success. */
  function ErrorOf(r: Result<Value>): (error: Option<RuntimeError>) {
    if r.Err? then Some(r.error) else None
  }

  /** Executes one statement; a runtime error stops it and is returned
      together with the state reached, whose effects are not undone. */
  function Exec(s: Stmt, st: State, numberText: NumberText): (r: Executed)
    requires |st.env| > 0
    ensures Follows(st, r.state)
    decreases s, 1
  {
    match s
    case Expression(e) => ExecExpression(e, st)
    case Print(e) => ExecPrint(e, st, numberText)
    case Var(name, initializer) => ExecVar(name, initializer, st)
    case Block(statements) => ExecBlock(statements, map[], st, numberText)
    case If(condition, thenBranch, elseBranch) => ExecIf(condition, thenBranch, elseBranch, st, numberText)
  }

  /** An expression statement keeps the effects of its expression and drops its value. */
  function ExecExpression(e: Expr, st: State): (r: Executed)
    ensures r.error == ErrorOf(Eval(e, st.env).result)
    ensures r.state == State(Eval(e, st.env).env, st.out)
    ensures Follows(st, r.state)
  {
    var ev := Eval(e, st.env);
    Executed(AfterEval(ev, st), ErrorOf(ev.result))
  }

  /** A print statement appends the display text of its value as one line. */
  function ExecPrint(e: Expr, st: State, numberText: NumberText): (r: Executed)
    ensures var ev := Eval(e, st.env);
      && r.state.env == ev.env
      && (r.error.None? <==> ev.result.Ok?)
      && (ev.result.Ok? ==> r.state.out == st.out + [Stringify(ev.result.value, numberText)])
      && (ev.result.Err? ==> r.state.out == st.out && r.error == Some(ev.result.error))
    ensures Follows(st, r.state)
  {
    var ev := Eval(e, st.env);
    if ev.result.Err? then Executed(AfterEval(ev, st), Some(ev.result.error))
    else Executed(State(ev.env, st.out + [Stringify(ev.result.value, numberText)]), None)
  }

  /** A declaration binds its initializer's value, or nil without one, in the
      innermost scope; a binding of the same name there is replaced. */
  function ExecVar(name: Token, initializer: Option<Expr>, st: State): (r: Executed)
    requires |st.env| > 0
    ensures initializer.None? ==> r == Executed(State(Define(st.env, name.lexeme, Nil), st.out), None)
    ensures initializer.Some? ==> var ev := Eval(initializer.value, st.env);
      && (r.error.None? <==> ev.result.Ok?)
      && (ev.result.Ok? ==> r.state.env == Define(ev.env, name.lexeme, ev.result.value))
      && (ev.result.Err? ==> r.state.env == ev.env && r.error == Some(ev.result.error))
    ensures r.state.out == st.out
    ensures Follows(st, r.state)
  {
    if initializer.None? then Executed(State(Define(st.env, name.lexeme, Nil), st.out), None)
    else
      var ev := Eval(initializer.value, st.env);
      if ev.result.Err? then Executed(AfterEval(ev, st), Some(ev.result.error))
      else Executed(State(Define(ev.env, name.lexeme, ev.result.value), st.out), None)
  }

  /** Runs the then-branch on a truthy condition, else the else-branch if there
      is one; with neither, only the condition's effects remain. */
  function ExecIf(condition: Expr, thenBranch: Stmt, elseBranch: Option<Stmt>, st: State, numberText: NumberText): (r: Executed)
    requires |st.env| > 0
    ensures Follows(st, r.state)
    decreases If(condition, thenBranch, elseBranch), 0
  {
    var ev := Eval(condition, st.env);
    var st' := AfterEval(ev, st);
    if ev.result.Err? then Executed(st', Some(ev.result.error))
    else if IsTruthy(ev.result.value) then
      var r := Exec(thenBranch, st', numberText);
      FollowsTransitive(st, st', r.state);
      r
    else if elseBranch.Some? then
      var r := Exec(elseBranch.value, st', numberText);
      FollowsTransitive(st, st', r.state);
      r
    else Executed(st', None)
  }

  /** Runs `statements` in a child of the current environment whose own
      scope starts as `scope`, then drops that scope again, on the normal and
      on the error path alike: whatever the block declared is gone, while
      assignments it made to enclosing scopes stay. */
  function ExecBlock(statements: seq<Stmt>, scope: Scope, st: State, numberText: NumberText): (r: Executed)
    requires |st.env| > 0
    ensures SameShape(st.env, r.state.env)
    ensures st.out <= r.state.out
    decreases statements, 1
  {
    var inner := ExecSeq(statements, State([scope] + st.env, st.out), numberText);
    var r := Executed(State(inner.state.env[1..], inner.state.out), inner.error);
    assert SameShape(st.env, r.state.env) by {
      forall i | 0 <= i < |st.env| ensures r.state.env[i].Keys == st.env[i].Keys {
        assert r.state.env[i] == inner.state.env[i + 1];
        assert ([scope] + st.env)[i + 1] == st.env[i];
      }
    }
    r
  }

  /** Runs `statements` in order in the current environment, stopping at
      the first runtime error. */
  function ExecSeq(statements: seq<Stmt>, st: State, numberText: NumberText): (r: Executed)
    requires |st.env| > 0
    ensures Follows(st, r.state)
    decreases statements, 0
  {
    if statements == [] then Executed(st, None)
    else
      var prev := ExecSeq(statements[..|statements| - 1], st, numberText);
      if prev.error.Some? then prev
      else
        var r := Exec(statements[|statements| - 1], prev.state, numberText);
        FollowsTransitive(st, prev.state, r.state);
        r
  }

  /** A block's outcome is that of its statements run in the child chain,
      with the child's scope dropped. */
  lemma ExecBlockFinish(statements: seq<Stmt>, st: State, scope: Scope, numberText: NumberText)
    requires |st.env| > 0
    ensures var inner := ExecSeq(statements, State([scope] + st.env, st.out), numberText);
      ExecBlock(statements, scope, st, numberText) ==
        Executed(State(inner.state.env[1..], inner.state.out), inner.error)
  {
  }

  /** Running one more statement: the prefix runs first, and the statement
      runs only if the prefix raised no error. */
  lemma ExecSeqSnoc(statements: seq<Stmt>, s: Stmt, st: State, numberText: NumberText)
    requires |st.env| > 0
    ensures var prev := ExecSeq(statements, st, numberText);
      ExecSeq(statements + [s], st, numberText) ==
        if prev.error.Some? then prev else Exec(s, prev.state, numberText)
  {
  }

  /** The step a loop over `statements` takes at index `i`. */
  lemma ExecSeqStep(statements: seq<Stmt>, i: nat, st: State, numberText: NumberText)
    requires |st.env| > 0 && i < |statements|
    ensures var prev := ExecSeq(statements[..i], st, numberText);
      ExecSeq(statements[..i + 1], st, numberText) ==
        if prev.error.Some? then prev else Exec(statements[i], prev.state, numberText)
  {
    assert statements[..i + 1][..i] == statements[..i];
  }

  /** Once a runtime error stops a prefix of a sequence, the statements after
      that prefix never run: the whole sequence ends as the prefix did. */
  lemma {:induction false} ExecSeqStopsAtError(statements: seq<Stmt>, n: nat, st: State, numberText: NumberText)
    requires |st.env| > 0 && n <= |statements|
    requires ExecSeq(statements[..n], st, numberText).error.Some?
    ensures ExecSeq(statements, st, numberText) == ExecSeq(statements[..n], st, numberText)
    decreases |statements|
  {
    if n < |statements| {
      var front := statements[..|statements| - 1];
      assert front[..n] == statements[..n];
      ExecSeqStopsAtError(front, n, st, numberText);
    } else {
      assert statements[..n] == statements;
    }
  }

  /** Without an error, running two sequences one after the other is running their concatenation. */
  lemma {:induction false} ExecSeqAppend(first: seq<Stmt>, second: seq<Stmt>, st: State, numberText: NumberText)
    requires |st.env| > 0
    requires ExecSeq(first, st, numberText).error.None?
    ensures ExecSeq(first + second, st, numberText) ==
      ExecSeq(second, ExecSeq(first, st, numberText).state, numberText)
    decreases |second|
  {
    if second == [] {
      assert first + second == first;
    } else {
      var front := second[..|second| - 1];
      var last := second[|second| - 1];
      ExecSeqAppend(first, front, st, numberText);
      assert first + second == (first + front) + [last];
      ExecSeqSnoc(first + front, last, st, numberText);
      assert front + [last] == second;
      ExecSeqSnoc(front, last, ExecSeq(first, st, numberText).state, numberText);
    }
  }
}
