/**
 * What the interpreter promises about whole expressions, statements and
 * programs, stated over the reference semantics.
 */
module LoxProperties {
  import opened LoxValues
  import opened Ast
  import opened Environments
  import opened Semantics

  /** Lox equality is an equivalence: reflexive, symmetric and transitive. */
  lemma IsEqualIsEquivalence(a: Value, b: Value, c: Value)
    ensures IsEqual(a, a)
    ensures IsEqual(a, b) == IsEqual(b, a)
    ensures IsEqual(a, b) && IsEqual(b, c) ==> IsEqual(a, c)
  {
  }

  /** Nil equals nil and nothing else; a number never equals a string, not even its own text. */
  lemma IsEqualNoCoercion(x: real, s: string, v: Value)
    ensures IsEqual(Nil, Nil)
    ensures v != Nil ==> !IsEqual(Nil, v) && !IsEqual(v, Nil)
    ensures !IsEqual(Number(x), Str(s))
    ensures !IsEqual(Bool(false), Nil) && !IsEqual(Number(0.0), Bool(false))
  {
  }

  /** `a != b` always evaluates to the negation of `a == b`: the same effects,
      the same error if either operand fails, and otherwise opposite booleans. */
  lemma BangEqualNegatesEqualEqual(left: Expr, right: Expr, t: Token, env: Env)
    ensures var eq := Eval(Binary(left, EqualEqual, t, right), env);
      var ne := Eval(Binary(left, BangEqual, t, right), env);
      && eq.env == ne.env
      && (eq.result.Ok? <==> ne.result.Ok?)
      && (eq.result.Err? ==> eq.result == ne.result)
      && (eq.result.Ok? ==> eq.result.value.Bool? && ne.result == Ok(Bool(!eq.result.value.b)))
  {
  }

  /** Equality never raises an error of its own: it fails only when an operand does. */
  lemma EqualityNeverFails(left: Expr, op: BinaryOp, t: Token, right: Expr, env: Env)
    requires op == EqualEqual || op == BangEqual
    ensures Eval(left, env).result.Ok? && Eval(right, Eval(left, env).env).result.Ok? ==>
      Eval(Binary(left, op, t, right), env).result.Ok?
  {
  }

  /** The left operand is evaluated first, so its error wins over anything
      the right operand would do; the right operand runs in the environment
      the left one left behind, and the operator sees both values. */
  lemma BinaryEvaluatesLeftFirst(left: Expr, op: BinaryOp, t: Token, right: Expr, env: Env)
    ensures Eval(left, env).result.Err? ==> Eval(Binary(left, op, t, right), env) == Eval(left, env)
    ensures Eval(left, env).result.Ok? && Eval(right, Eval(left, env).env).result.Err? ==>
      Eval(Binary(left, op, t, right), env) == Eval(right, Eval(left, env).env)
    ensures var lv := Eval(left, env);
      var rv := Eval(right, lv.env);
      lv.result.Ok? && rv.result.Ok? ==>
        Eval(Binary(left, op, t, right), env) ==
          Evaluated(ApplyBinary(op, t, lv.result.value, rv.result.value), rv.env)
  {
  }

  /** Mixing a number and a string under `+` is an error, never a conversion. */
  lemma PlusRejectsMixedOperands(x: real, s: string, t: Token, env: Env)
    ensures Eval(Binary(Literal(Number(x)), Plus, t, Literal(Str(s))), env).result ==
      Err(RuntimeError(t, OperandsMustBeNumbersOrStrings))
    ensures Eval(Binary(Literal(Str(s)), Plus, t, Literal(Number(x))), env).result ==
      Err(RuntimeError(t, OperandsMustBeNumbersOrStrings))
  {
  }

  /** An assignment evaluates its right-hand side first, then yields the
      assigned value, and the variable then reads back as it. */
  lemma AssignYieldsAssignedValue(name: Token, rhs: Expr, env: Env)
    requires Binds(env, name.lexeme)
    requires Eval(rhs, env).result.Ok?
    ensures Eval(Assign(name, rhs), env).result == Eval(rhs, env).result
    ensures Get(Eval(Assign(name, rhs), env).env, name) == Eval(rhs, env).result
  {
    var ev := Eval(rhs, env);
    SameShapeBinds(env, ev.env, name.lexeme);
    EvalAssignOk(name, rhs, env);
    AssignEvaluatedReadsBack(name, ev.result.value, ev.env);
  }

  /** The right-hand side of an assignment runs first, so its own error wins.
      When it succeeds, assigning a name no scope declares fails with an
      undefined-variable error and leaves only the right-hand side's effects. */
  lemma AssignUndeclaredFails(name: Token, rhs: Expr, env: Env)
    requires !Binds(env, name.lexeme)
    ensures Eval(rhs, env).result.Err? ==> Eval(Assign(name, rhs), env) == Eval(rhs, env)
    ensures Eval(rhs, env).result.Ok? ==>
      Eval(Assign(name, rhs), env) == Evaluated(Err(UndefinedVariable(name)), Eval(rhs, env).env)
  {
    var ev := Eval(rhs, env);
    if ev.result.Ok? {
      SameShapeBinds(env, ev.env, name.lexeme);
      EvalAssignOk(name, rhs, env);
    }
  }

  /** A declaration without initializer binds nil in the current scope. */
  lemma VarWithoutInitializerBindsNil(name: Token, st: State, numberText: NumberText)
    requires |st.env| > 0
    ensures var r := Exec(Var(name, None), st, numberText);
      && r.error.None?
      && Get(r.state.env, name) == Ok(Nil)
      && r.state.env[1..] == st.env[1..]
      && r.state.out == st.out
  {
    GetAfterDefine(st.env, name, Nil);
  }

  /** Redeclaring a name in the same scope is no error: the new value replaces the old one. */
  lemma VarRedeclarationRebinds(name: Token, v: Value, w: Value, st: State, numberText: NumberText)
    requires |st.env| > 0
    ensures var first := Exec(Var(name, Some(Literal(v))), st, numberText);
      var second := Exec(Var(name, Some(Literal(w))), first.state, numberText);
      && first.error.None? && second.error.None?
      && Get(second.state.env, name) == Ok(w)
  {
    var first := Exec(Var(name, Some(Literal(v))), st, numberText);
    assert first == ExecVar(name, Some(Literal(v)), st);
    var second := Exec(Var(name, Some(Literal(w))), first.state, numberText);
    assert second == ExecVar(name, Some(Literal(w)), first.state);
    GetAfterDefine(first.state.env, name, w);
  }

  /** An `if` evaluates its condition once, first. An error there stops the
      statement with that error and runs no branch; otherwise a truthy value
      runs the then-branch, a falsy one the else-branch if there is one and
      nothing if there is none. */
  lemma IfChoosesByTruthiness(condition: Expr, thenBranch: Stmt, elseBranch: Option<Stmt>, st: State, numberText: NumberText)
    requires |st.env| > 0
    ensures var ev := Eval(condition, st.env);
      var after := State(ev.env, st.out);
      var r := Exec(If(condition, thenBranch, elseBranch), st, numberText);
      && (ev.result.Err? ==> r == Executed(after, Some(ev.result.error)))
      && (ev.result.Ok? && IsTruthy(ev.result.value) ==> r == Exec(thenBranch, after, numberText))
      && (ev.result.Ok? && !IsTruthy(ev.result.value) && elseBranch.Some? ==>
            r == Exec(elseBranch.value, after, numberText))
      && (ev.result.Ok? && !IsTruthy(ev.result.value) && elseBranch.None? ==> r == Executed(after, None))
  {
    var ev := Eval(condition, st.env);
    assert AfterEval(ev, st) == State(ev.env, st.out);
    var r := ExecIf(condition, thenBranch, elseBranch, st, numberText);
    assert Exec(If(condition, thenBranch, elseBranch), st, numberText) == r;
    if ev.result.Ok? && IsTruthy(ev.result.value) {
      assert r == Exec(thenBranch, State(ev.env, st.out), numberText);
    } else if ev.result.Ok? && elseBranch.Some? {
      assert r == Exec(elseBranch.value, State(ev.env, st.out), numberText);
    }
  }

  /** 0 and the empty string are truthy: `if (0) s` runs `s`. */
  lemma IfZeroRunsThenBranch(thenBranch: Stmt, elseBranch: Option<Stmt>, st: State, numberText: NumberText)
    requires |st.env| > 0
    ensures Exec(If(Literal(Number(0.0)), thenBranch, elseBranch), st, numberText) == Exec(thenBranch, st, numberText)
    ensures Exec(If(Literal(Str("")), thenBranch, elseBranch), st, numberText) == Exec(thenBranch, st, numberText)
  {
    assert Exec(If(Literal(Number(0.0)), thenBranch, elseBranch), st, numberText) ==
      ExecIf(Literal(Number(0.0)), thenBranch, elseBranch, st, numberText);
    assert Exec(If(Literal(Str("")), thenBranch, elseBranch), st, numberText) ==
      ExecIf(Literal(Str("")), thenBranch, elseBranch, st, numberText);
  }


  /** A declaration whose initializer, if any, is a literal: it can change
      nothing but the innermost scope. */
  predicate LiteralDeclaration(s: Stmt) {
    s.Var? && (s.initializer.None? || s.initializer.value.Literal?)
  }

  /** Running declarations of that kind in a child scope leaves the enclosing
      chain and the output as they were and raises no error. */
  lemma {:induction false} DeclarationsStayInScope(statements: seq<Stmt>, n: nat, scope: Scope, env: Env, out: seq<string>, numberText: NumberText)
    requires n <= |statements|
    requires forall i :: 0 <= i < |statements| ==> LiteralDeclaration(statements[i])
    ensures var r := ExecSeq(statements[..n], State([scope] + env, out), numberText);
      && r.error.None? && |r.state.env| == |env| + 1
      && r.state.env[1..] == env && r.state.out == out
  {
    var st := State([scope] + env, out);
    if n > 0 {
      DeclarationsStayInScope(statements, n - 1, scope, env, out, numberText);
      ExecSeqStep(statements, n - 1, st, numberText);
      var prev := ExecSeq(statements[..n - 1], st, numberText);
      var s := statements[n - 1];
      assert LiteralDeclaration(s);
      assert Exec(s, prev.state, numberText) == ExecVar(s.name, s.initializer, prev.state);
    }
  }

  /** A block that only declares, with literal initializers, leaves the whole
      state exactly as it was: every declaration is gone after the block, and
      no enclosing binding changed. */
  lemma BlockOfDeclarationsLeavesNoTrace(statements: seq<Stmt>, st: State, numberText: NumberText)
    requires |st.env| > 0
    requires forall i :: 0 <= i < |statements| ==> LiteralDeclaration(statements[i])
    ensures Exec(Block(statements), st, numberText) == Executed(st, None)
  {
    DeclarationsStayInScope(statements, |statements|, map[], st.env, st.out, numberText);
    assert statements[..|statements|] == statements;
    ExecBlockFinish(statements, st, map[], numberText);
  }

  /** A program stopped by an error at statement `n` keeps the output printed
      before it, and nothing after statement `n` runs. */
  lemma InterpretStopsAtFirstError(statements: seq<Stmt>, n: nat, st: State, numberText: NumberText)
    requires |st.env| > 0 && n < |statements|
    requires ExecSeq(statements[..n], st, numberText).error.None?
    requires Exec(statements[n], ExecSeq(statements[..n], st, numberText).state, numberText).error.Some?
    ensures var r := ExecSeq(statements, st, numberText);
      && r == Exec(statements[n], ExecSeq(statements[..n], st, numberText).state, numberText)
      && ExecSeq(statements[..n], st, numberText).state.out <= r.state.out
  {
    ExecSeqStep(statements, n, st, numberText);
    ExecSeqStopsAtError(statements, n + 1, st, numberText);
  }
}
