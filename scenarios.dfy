/**
 * Small Lox programs run from a fresh global scope, with the output each
 * one prints and the error it stops with.
 */
module LoxScenarios {
  import opened LoxValues
  import opened Ast
  import opened Environments
  import opened Semantics

  const Fresh := State([map[]], [])

  function Name(lexeme: string): (t: Token) { Token(lexeme, 1) }

  /** Running `first` and then the rest of a program. */
  lemma RunFirst(first: Stmt, rest: seq<Stmt>, st: State, numberText: NumberText)
    requires |st.env| > 0
    requires Exec(first, st, numberText).error.None?
    ensures ExecSeq([first] + rest, st, numberText) == ExecSeq(rest, Exec(first, st, numberText).state, numberText)
  {
    ExecSeqStep([first], 0, st, numberText);
    assert [first][..0] == [] && [first][..1] == [first];
    ExecSeqAppend([first], rest, st, numberText);
  }

  lemma RunOne(s: Stmt, st: State, numberText: NumberText)
    requires |st.env| > 0
    ensures ExecSeq([s], st, numberText) == Exec(s, st, numberText)
  {
  }

  /** var x = "outer"; { var x = "inner"; print x; } print x;
      prints "inner" then "outer": the inner declaration shadows the outer
      one inside the block and is gone after it. */
  lemma Shadowing(numberText: NumberText)
    ensures var x := Name("x");
      var r := ExecSeq([
        Var(x, Some(Literal(Str("outer")))),
        Block([Var(x, Some(Literal(Str("inner")))), Print(Variable(x))]),
        Print(Variable(x))], Fresh, numberText);
      r.error.None? && r.state.out == ["inner", "outer"]
  {
    var x := Name("x");
    var s1 := Var(x, Some(Literal(Str("outer"))));
    var s2 := Block([Var(x, Some(Literal(Str("inner")))), Print(Variable(x))]);
    var s3 := Print(Variable(x));
    var st1 := State([map["x" := Str("outer")]], []);
    assert Exec(s1, Fresh, numberText) == Executed(st1, None) by {
      assert Exec(s1, Fresh, numberText) == ExecVar(x, Some(Literal(Str("outer"))), Fresh);
    }
    var st2 := State(st1.env, ["inner"]);
    ShadowingBlock(st1, numberText);
    var st3 := State(st1.env, ["inner", "outer"]);
    assert Exec(s3, st2, numberText) == Executed(st3, None) by {
      assert Exec(s3, st2, numberText) == ExecPrint(Variable(x), st2, numberText);
      assert Innermost(st2.env, "x", 0);
    }
    assert [s1, s2, s3] == [s1] + [s2, s3];
    RunFirst(s1, [s2, s3], Fresh, numberText);
    RunFirst(s2, [s3], st1, numberText);
    RunOne(s3, st2, numberText);
  }

  lemma ShadowingBlock(st1: State, numberText: NumberText)
    requires st1 == State([map["x" := Str("outer")]], [])
    ensures var x := Name("x");
      Exec(Block([Var(x, Some(Literal(Str("inner")))), Print(Variable(x))]), st1, numberText) ==
        Executed(State(st1.env, ["inner"]), None)
  {
    var x := Name("x");
    var body := [Var(x, Some(Literal(Str("inner")))), Print(Variable(x))];
    var inner := State([map[]] + st1.env, []);
    ShadowingBlockBody(inner, numberText);
    ExecBlockFinish(body, st1, map[], numberText);
    assert Exec(Block(body), st1, numberText) == ExecBlock(body, map[], st1, numberText);
  }

  lemma ShadowingBlockBody(inner: State, numberText: NumberText)
    requires inner == State([map[], map["x" := Str("outer")]], [])
    ensures var x := Name("x");
      ExecSeq([Var(x, Some(Literal(Str("inner")))), Print(Variable(x))], inner, numberText) ==
        Executed(State([map["x" := Str("inner")], map["x" := Str("outer")]], ["inner"]), None)
  {
    var x := Name("x");
    var d := Var(x, Some(Literal(Str("inner"))));
    var p := Print(Variable(x));
    var in1 := State([map["x" := Str("inner")], map["x" := Str("outer")]], []);
    assert Exec(d, inner, numberText) == Executed(in1, None) by {
      assert Exec(d, inner, numberText) == ExecVar(x, Some(Literal(Str("inner"))), inner);
    }
    var in2 := State(in1.env, ["inner"]);
    assert Exec(p, in1, numberText) == Executed(in2, None) by {
      assert Exec(p, in1, numberText) == ExecPrint(Variable(x), in1, numberText);
      assert Innermost(in1.env, "x", 0);
    }
    RunFirst(d, [p], inner, numberText);
    RunOne(p, in1, numberText);
  }

  /** var x = 1; { x = 2; } print x;  prints 2: an assignment in a block
      writes the enclosing binding, which outlives the block. */
  lemma AssignmentReachesEnclosingScope(numberText: NumberText)
    requires numberText(2.0) == "2.0"
    ensures var x := Name("x");
      var r := ExecSeq([
        Var(x, Some(Literal(Number(1.0)))),
        Block([Expression(Assign(x, Literal(Number(2.0))))]),
        Print(Variable(x))], Fresh, numberText);
      r.error.None? && r.state.out == ["2"]
  {
    var x := Name("x");
    var s1 := Var(x, Some(Literal(Number(1.0))));
    var s2 := Block([Expression(Assign(x, Literal(Number(2.0))))]);
    var s3 := Print(Variable(x));
    var st1 := State([map["x" := Number(1.0)]], []);
    assert Exec(s1, Fresh, numberText) == Executed(st1, None) by {
      assert Exec(s1, Fresh, numberText) == ExecVar(x, Some(Literal(Number(1.0))), Fresh);
    }
    var st2 := State([map["x" := Number(2.0)]], []);
    AssignInBlock(st1, numberText);
    StringifyIntegralNumber(2.0, numberText, "2");
    assert Exec(s3, st2, numberText) == Executed(State(st2.env, ["2"]), None) by {
      assert Exec(s3, st2, numberText) == ExecPrint(Variable(x), st2, numberText);
      assert Innermost(st2.env, "x", 0);
    }
    assert [s1, s2, s3] == [s1] + [s2, s3];
    RunFirst(s1, [s2, s3], Fresh, numberText);
    RunFirst(s2, [s3], st1, numberText);
    RunOne(s3, st2, numberText);
  }

  lemma AssignInBlock(st1: State, numberText: NumberText)
    requires st1 == State([map["x" := Number(1.0)]], [])
    ensures var x := Name("x");
      Exec(Block([Expression(Assign(x, Literal(Number(2.0))))]), st1, numberText) ==
        Executed(State([map["x" := Number(2.0)]], []), None)
  {
    var x := Name("x");
    var a := Expression(Assign(x, Literal(Number(2.0))));
    var inner := State([map[]] + st1.env, []);
    var in1 := State([map[], map["x" := Number(2.0)]], []);
    assert Eval(Assign(x, Literal(Number(2.0))), inner.env) == Evaluated(Ok(Number(2.0)), in1.env) by {
      assert Innermost(inner.env, "x", 1);
      assert inner.env[1] == map["x" := Number(1.0)];
      assert map["x" := Number(1.0)]["x" := Number(2.0)] == map["x" := Number(2.0)];
      assert inner.env[1 := inner.env[1]["x" := Number(2.0)]] == in1.env;
      assert Environments.Assign(inner.env, x, Number(2.0)) == Ok(in1.env);
      assert Eval(Assign(x, Literal(Number(2.0))), inner.env) == AssignEvaluated(x, Number(2.0), inner.env);
    }
    assert Exec(a, inner, numberText) == Executed(in1, None) by {
      assert Exec(a, inner, numberText) == ExecExpression(Assign(x, Literal(Number(2.0))), inner);
    }
    RunOne(a, inner, numberText);
    ExecBlockFinish([a], st1, map[], numberText);
    assert Exec(Block([a]), st1, numberText) == ExecBlock([a], map[], st1, numberText);
  }

  /** x = 1; with no declaration of x fails with an undefined-variable error,
      changes nothing and prints nothing; the statement after it never runs. */
  lemma AssignUndeclared(numberText: NumberText)
    ensures var x := Name("x");
      var r := ExecSeq([Expression(Assign(x, Literal(Number(1.0)))), Print(Literal(Str("after")))], Fresh, numberText);
      r == Executed(Fresh, Some(RuntimeError(x, "Undefined variable 'x'.")))
  {
    var x := Name("x");
    var s1 := Expression(Assign(x, Literal(Number(1.0))));
    assert !Binds(Fresh.env, "x");
    assert UndefinedVariable(x) == RuntimeError(x, "Undefined variable 'x'.");
    assert Exec(s1, Fresh, numberText) == Executed(Fresh, Some(UndefinedVariable(x))) by {
      assert Exec(s1, Fresh, numberText) == ExecExpression(Assign(x, Literal(Number(1.0))), Fresh);
      assert Eval(Assign(x, Literal(Number(1.0))), Fresh.env) == AssignEvaluated(x, Number(1.0), Fresh.env);
    }
    RunOne(s1, Fresh, numberText);
    assert [s1, Print(Literal(Str("after")))][..1] == [s1];
    ExecSeqStopsAtError([s1, Print(Literal(Str("after")))], 1, Fresh, numberText);
  }

  /** print "a"; print 1 + "2"; print "b";  prints "a", then stops with the
      error of `+`; the line printed before the error stays printed. */
  lemma PrintMixedPlusStops(numberText: NumberText)
    ensures var plus := Token("+", 1);
      var r := ExecSeq([
        Print(Literal(Str("a"))),
        Print(Binary(Literal(Number(1.0)), Plus, plus, Literal(Str("2")))),
        Print(Literal(Str("b")))], Fresh, numberText);
      r == Executed(State(Fresh.env, ["a"]), Some(RuntimeError(plus, OperandsMustBeNumbersOrStrings)))
  {
    var plus := Token("+", 1);
    var s1 := Print(Literal(Str("a")));
    var s2 := Print(Binary(Literal(Number(1.0)), Plus, plus, Literal(Str("2"))));
    var s3 := Print(Literal(Str("b")));
    var st1 := State(Fresh.env, ["a"]);
    assert Exec(s1, Fresh, numberText) == Executed(st1, None);
    assert Exec(s2, st1, numberText) == Executed(st1, Some(RuntimeError(plus, OperandsMustBeNumbersOrStrings)));
    RunFirst(s1, [s2], Fresh, numberText);
    RunOne(s2, st1, numberText);
    assert [s1, s2, s3][..2] == [s1] + [s2];
    ExecSeqStopsAtError([s1, s2, s3], 2, Fresh, numberText);
  }

  /** if (false) print "a"; else print "b";  prints "b". */
  lemma IfElsePrintsElse(numberText: NumberText)
    ensures Exec(If(Literal(Bool(false)), Print(Literal(Str("a"))), Some(Print(Literal(Str("b"))))), Fresh, numberText)
      == Executed(State(Fresh.env, ["b"]), None)
  {
  }
}
