/**
 * The chain of lexical scopes, as the interpreter uses it: `get` and
 * `assign` walk from the innermost scope outwards, `define` writes into the
 * innermost scope only, and a block pushes a fresh child scope.
 */
module Environments {
  import opened LoxValues

  type Scope = map<string, Value>

  /** The scope chain, innermost scope first; the last scope is the global one. */
  type Env = seq<Scope>

  /** Some scope of the chain binds `name`. */
  ghost predicate Binds(env: Env, name: string) {
    exists i :: 0 <= i < |env| && name in env[i]
  }

  /** Scope `k` is the innermost scope of the chain that binds `name`. */
  ghost predicate Innermost(env: Env, name: string, k: int) {
    0 <= k < |env| && name in env[k] && forall j :: 0 <= j < k ==> name !in env[j]
  }

  /** Two chains have the same depth and every scope declares the same names. */
  ghost predicate SameShape(env: Env, env': Env) {
    |env| == |env'| && forall i :: 0 <= i < |env| ==> env'[i].Keys == env[i].Keys
  }

  /** `env'` is `env` after declarations in the innermost scope only: same depth,
      the innermost scope may have gained names, the enclosing ones have not. */
  ghost predicate Grows(env: Env, env': Env) {
    && |env| == |env'|
    && (|env| > 0 ==> env[0].Keys <= env'[0].Keys)
    && forall i :: 0 < i < |env| ==> env'[i].Keys == env[i].Keys
  }

  /** The error for a name no scope binds; it is reported at the name's token. */
  function UndefinedVariable(name: Token): (error: RuntimeError) {
    RuntimeError(name, "Undefined variable '" + name.lexeme + "'.")
  }

  lemma InnermostOfTail(env: Env, name: string, k: int)
    requires |env| > 0 && name !in env[0] && Innermost(env, name, k)
    ensures Innermost(env[1..], name, k - 1)
  {
  }

  /** The value bound to `name` in the innermost scope that binds it. */
  function Get(env: Env, name: Token): (r: Result<Value>)
    ensures r.Ok? <==> Binds(env, name.lexeme)
    ensures r.Err? ==> r.error == UndefinedVariable(name)
    ensures forall k :: Innermost(env, name.lexeme, k) ==> r == Ok(env[k][name.lexeme])
    decreases |env|
  {
    if env == [] then Err(UndefinedVariable(name))
    else if name.lexeme in env[0] then Ok(env[0][name.lexeme])
    else
      BindsTail(env, name.lexeme);
      assert forall k :: Innermost(env, name.lexeme, k) ==> Innermost(env[1..], name.lexeme, k - 1) by {
        forall k | Innermost(env, name.lexeme, k) ensures Innermost(env[1..], name.lexeme, k - 1) {
          InnermostOfTail(env, name.lexeme, k);
        }
      }
      Get(env[1..], name)
  }

  /** Overwrites the binding of `name` in the innermost scope that binds it;
      assigning a name no scope binds is an error, never a new definition. */
  function Assign(env: Env, name: Token, value: Value): (r: Result<Env>)
    ensures r.Ok? <==> Binds(env, name.lexeme)
    ensures r.Err? ==> r.error == UndefinedVariable(name)
    ensures forall k :: Innermost(env, name.lexeme, k) ==>
      r == Ok(env[k := env[k][name.lexeme := value]])
    decreases |env|
  {
    if env == [] then Err(UndefinedVariable(name))
    else if name.lexeme in env[0] then
      assert forall k :: Innermost(env, name.lexeme, k) ==> k == 0;
      Ok(env[0 := env[0][name.lexeme := value]])
    else
      var rest := Assign(env[1..], name, value);
      BindsTail(env, name.lexeme);
      if rest.Err? then Err(rest.error)
      else
        AssignInTail(env, name.lexeme, value, rest.value);
        Ok([env[0]] + rest.value)
  }

  lemma AssignInTail(env: Env, name: string, value: Value, rest: Env)
    requires |env| > 0 && name !in env[0]
    requires forall k :: Innermost(env[1..], name, k) ==> rest == env[1..][k := env[1..][k][name := value]]
    ensures forall k :: Innermost(env, name, k) ==> [env[0]] + rest == env[k := env[k][name := value]]
  {
    forall k | Innermost(env, name, k)
      ensures [env[0]] + rest == env[k := env[k][name := value]]
    {
      InnermostOfTail(env, name, k);
    }
  }

  /** Assignment changes a value, never which names a scope declares. */
  lemma AssignKeepsShape(env: Env, name: Token, value: Value)
    requires Binds(env, name.lexeme)
    ensures SameShape(env, Assign(env, name, value).value)
  {
    var k := InnermostExists(env, name.lexeme);
    var env' := Assign(env, name, value).value;
    assert env' == env[k := env[k][name.lexeme := value]];
  }

  /** A chain whose innermost scope lacks `name` binds it exactly when its tail does. */
  lemma BindsTail(env: Env, name: string)
    requires |env| > 0 && name !in env[0]
    ensures Binds(env[1..], name) <==> Binds(env, name)
  {
  }

  /** Binds `name` in the innermost scope, replacing a binding it already has
      there; enclosing scopes are untouched. Never fails. */
  function Define(env: Env, name: string, value: Value): (r: Env)
    requires |env| > 0
    ensures |r| == |env| && r[1..] == env[1..]
    ensures r[0].Keys == env[0].Keys + {name}
    ensures name in r[0] && r[0][name] == value
    ensures forall n :: n in env[0] && n != name ==> n in r[0] && r[0][n] == env[0][n]
  {
    [env[0][name := value]] + env[1..]
  }

  /** The environment of a block: a new, empty child of the current one. */
  function Child(env: Env): (r: Env)
    ensures |r| == |env| + 1 && r[0] == map[] && r[1..] == env
  {
    [map[]] + env
  }

  /** A name just defined reads back as the defined value. */
  lemma GetAfterDefine(env: Env, name: Token, value: Value)
    requires |env| > 0
    ensures Get(Define(env, name.lexeme, value), name) == Ok(value)
  {
  }

  /** Defining one name leaves every other name reading as before. */
  lemma GetOtherAfterDefine(env: Env, name: string, other: Token, value: Value)
    requires |env| > 0 && other.lexeme != name
    ensures Get(Define(env, name, value), other) == Get(env, other)
  {
  }

  /** After a successful assignment the name reads back as the assigned value. */
  lemma GetAfterAssign(env: Env, name: Token, value: Value)
    requires Binds(env, name.lexeme)
    ensures Assign(env, name, value).Ok?
    ensures Get(Assign(env, name, value).value, name) == Ok(value)
  {
  }

  /** A bound name has an innermost binding scope. */
  lemma InnermostExists(env: Env, name: string) returns (k: nat)
    requires Binds(env, name)
    ensures Innermost(env, name, k)
  {
    var i :| 0 <= i < |env| && name in env[i];
    k := 0;
    while name !in env[k]
      invariant 0 <= k <= i
      invariant forall j :: 0 <= j < k ==> name !in env[j]
      decreases i - k
    {
      k := k + 1;
    }
  }

  /** Chains of the same shape bind the same names. */
  lemma SameShapeBinds(env: Env, env': Env, name: string)
    requires SameShape(env, env')
    ensures Binds(env, name) <==> Binds(env', name)
  {
  }
}
