/**
 * The interpreter object: it holds the current environment, which it
 * replaces while a block runs and reinstates afterwards, and it collects the
 * printed lines. Each method is proved to do what the corresponding
 * function of `Semantics` describes.
 */
module Jlox {
  import opened LoxValues
  import opened Ast
  import opened Environments
  import opened Semantics

  class Interpreter {
    /** The current scope chain, innermost scope first. */
    var environment: Env
    /** The lines printed so far; standard output in the source. */
    var output: seq<string>
    /** Java's `Double.toString`, used when a number is printed. */
    const numberText: NumberText

    ghost predicate Valid()
      reads this
    {
      |environment| > 0
    }

    ghost function Current(): (st: State)
      reads this
    {
      State(environment, output)
    }

    /** A fresh interpreter has only the empty global scope and has printed nothing. */
    constructor (numberText: NumberText)
      ensures Valid() && environment == [map[]] && output == []
      ensures this.numberText == numberText
    {
      environment := [map[]];
      output := [];
      this.numberText := numberText;
    }

    /** Runs a program. The first runtime error stops it and is returned as
        the one error to report; the lines printed before it stay printed and
        the environment keeps its depth, ready for the next call. */
    method Interpret(statements: seq<Stmt>) returns (reported: Option<RuntimeError>)
      requires Valid()
      modifies this`environment, this`output
      ensures Valid()
      ensures Executed(Current(), reported) == ExecSeq(statements, old(Current()), numberText)
      ensures |environment| == old(|environment|) && old(output) <= output
    {
      reported := ExecuteStatements(statements);
    }

    /** The loop over a statement list shared by a program and a block: each
        statement runs in turn and the first runtime error ends the loop. */
    method ExecuteStatements(statements: seq<Stmt>) returns (error: Option<RuntimeError>)
      requires Valid()
      modifies this`environment, this`output
      ensures Valid()
      ensures Executed(Current(), error) == ExecSeq(statements, old(Current()), numberText)
      decreases statements, 0
    {
      ghost var start := Current();
      error := None;
      var i := 0;
      while i < |statements|
        invariant 0 <= i <= |statements| && Valid()
        invariant ExecSeq(statements[..i], start, numberText) == Executed(Current(), None)
        invariant error.None?
      {
        error := Execute(statements[i]);
        ExecSeqStep(statements, i, start, numberText);
        if error.Some? {
          ExecSeqStopsAtError(statements, i + 1, start, numberText);
          return;
        }
        i := i + 1;
      }
      assert statements[..i] == statements;
    }

    /** Evaluates an expression in the current environment. Only an
        assignment changes the environment; nothing is printed. */
    method Evaluate(e: Expr) returns (r: Result<Value>)
      modifies this`environment
      ensures Evaluated(r, environment) == Eval(e, old(environment))
      decreases e
    {
      match e
      case Literal(v) =>
        r := Ok(v);
      case Grouping(inner) =>
        r := Evaluate(inner);
      case Unary(op, operator, right) =>
        r := Evaluate(right);
        if r.Ok? {
          r := ApplyUnary(op, operator, r.value);
        }
      case Binary(left, op, operator, right) =>
        var lv := Evaluate(left);
        if lv.Err? {
          r := lv;
        } else {
          var rv := Evaluate(right);
          if rv.Err? {
            r := rv;
          } else {
            r := ApplyBinary(op, operator, lv.value, rv.value);
          }
        }
      case Variable(name) =>
        r := Get(environment, name);
      case Assign(name, rhs) =>
        var value := Evaluate(rhs);
        r := value;
        if value.Ok? {
          var updated := Environments.Assign(environment, name, value.value);
          if updated.Err? {
            r := Err(updated.error);
          } else {
            environment := updated.value;
          }
        }
    }

    /** Executes one statement; a runtime error is returned rather than thrown. */
    method Execute(s: Stmt) returns (error: Option<RuntimeError>)
      requires Valid()
      modifies this`environment, this`output
      ensures Valid()
      ensures Executed(Current(), error) == Exec(s, old(Current()), numberText)
      decreases s, 0
    {
      match s
      case Expression(e) =>
        var r := Evaluate(e);
        error := ErrorOf(r);
      case Print(e) =>
        var r := Evaluate(e);
        if r.Err? {
          error := Some(r.error);
        } else {
          output := output + [Stringify(r.value, numberText)];
          error := None;
        }
      case Var(name, initializer) =>
        var value := Nil;
        error := None;
        if initializer.Some? {
          var r := Evaluate(initializer.value);
          if r.Err? {
            error := Some(r.error);
            return;
          }
          value := r.value;
        }
        environment := Define(environment, name.lexeme, value);
      case Block(statements) =>
        error := ExecuteBlock(statements, Child(environment));
      case If(condition, thenBranch, elseBranch) =>
        var r := Evaluate(condition);
        if r.Err? {
          error := Some(r.error);
        } else if IsTruthy(r.value) {
          error := Execute(thenBranch);
        } else if elseBranch.Some? {
          error := Execute(elseBranch.value);
        } else {
          error := None;
        }
    }

    /** Runs `statements` with `child`, a child of the current environment,
        installed as current, and reinstates the enclosing chain
        on every exit, the error path included. */
    method ExecuteBlock(statements: seq<Stmt>, child: Env) returns (error: Option<RuntimeError>)
      requires Valid()
      requires |child| == |this.environment| + 1 && child[1..] == this.environment
      modifies this`environment, this`output
      ensures Valid()
      ensures Executed(Current(), error) == ExecBlock(statements, child[0], old(Current()), numberText)
      ensures |this.environment| == old(|this.environment|)
      decreases statements, 1
    {
      assert child == [child[0]] + this.environment;
      this.environment := child;
      error := ExecuteStatements(statements);
      // The enclosing scopes are shared with the chain that was current before
      // the block, so reinstating it is dropping the block's own scope.
      this.environment := this.environment[1..];
      ExecBlockFinish(statements, old(Current()), child[0], numberText);
    }
  }
}
