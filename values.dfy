/**
 * Runtime values of Lox and the helper functions of the interpreter that
 * work on them alone: truthiness, equality, the number checks of the
 * arithmetic operators and the conversion of a value to display text.
 */
module LoxValues {

  /** A Lox runtime value. Java's `null` is `Nil`; a `Double` is `Number`.
      Numbers are exact reals here: IEEE-754 rounding is not modelled. */
  datatype Value = Nil | Bool(b: bool) | Number(x: real) | Str(s: string)

  /** The part of a scanner token the interpreter looks at: the source text
      of the token (an operator or an identifier) and its line. */
  datatype Token = Token(lexeme: string, line: int)

  /** A runtime error carries the offending token and a message. */
  datatype RuntimeError = RuntimeError(token: Token, message: string)

  datatype Option<+T> = None | Some(value: T)

  /** Either a result or the runtime error that was thrown instead. */
  datatype Result<+T> = Ok(value: T) | Err(error: RuntimeError) {
    predicate IsFailure() { Err? }

    function PropagateFailure<U>(): Result<U>
      requires Err?
    {
      Err(error)
    }

    function Extract(): T
      requires Ok?
    {
      value
    }
  }

  const OperandMustBeNumber := "Operand must be a number."
  const OperandsMustBeNumbers := "Operands must be numbers."
  const OperandsMustBeNumbersOrStrings := "Operands must be two numbers or two strings."

  /** `nil` and `false` are falsy; every other value, 0 and "" included, is truthy. */
  predicate IsTruthy(v: Value): (r: bool)
    ensures !r <==> v == Nil || v == Bool(false)
  {
    match v
    case Nil => false
    case Bool(b) => b
    case _ => true
  }

  /** Java's `Object.equals` on a non-null receiver: `Boolean`, `Double` and
      `String` are each equal only to an object of the same class holding the
      same payload. */
  function ObjectEquals(a: Value, b: Value): (r: bool)
    requires a != Nil
    ensures r <==> a == b
  {
    match a
    case Bool(p) => b.Bool? && b.b == p
    case Number(x) => b.Number? && b.x == x
    case Str(s) => b.Str? && b.s == s
  }

  /** Lox equality: nil equals only nil; otherwise the kinds and payloads
      must both agree, with no conversion between kinds. */
  predicate IsEqual(a: Value, b: Value): (r: bool)
    ensures r <==> a == b
  {
    if a == Nil && b == Nil then true
    else if a == Nil then false
    else ObjectEquals(a, b)
  }

  /** The operand of unary minus must be a number; on success its payload is returned. */
  function CheckNumberOperand(operator: Token, operand: Value): (r: Result<real>)
    ensures r.Ok? <==> operand.Number?
    ensures r.Ok? ==> operand == Number(r.value)
    ensures r.Err? ==> r.error == RuntimeError(operator, OperandMustBeNumber)
  {
    if operand.Number? then Ok(operand.x)
    else Err(RuntimeError(operator, OperandMustBeNumber))
  }

  /** Both operands of a numeric binary operator must be numbers. */
  function CheckNumberOperands(operator: Token, left: Value, right: Value): (r: Result<(real, real)>)
    ensures r.Ok? <==> left.Number? && right.Number?
    ensures r.Ok? ==> left == Number(r.value.0) && right == Number(r.value.1)
    ensures r.Err? ==> r.error == RuntimeError(operator, OperandsMustBeNumbers)
  {
    if left.Number? && right.Number? then Ok((left.x, right.x))
    else Err(RuntimeError(operator, OperandsMustBeNumbers))
  }

  predicate EndsWith(text: string, suffix: string) {
    |suffix| <= |text| && text[|text| - |suffix|..] == suffix
  }

  /** The text of a number whose value is integral ends in ".0"; that suffix is cut off. */
  function TrimIntegralSuffix(text: string): (r: string)
    ensures EndsWith(text, ".0") ==> r + ".0" == text
    ensures !EndsWith(text, ".0") ==> r == text
  {
    if EndsWith(text, ".0") then text[..|text| - 2] else text
  }

  /** The display text of a value. `numberText` stands for Java's
      `Double.toString`, which is not part of this model. */
  function Stringify(v: Value, numberText: real -> string): (r: string)
    ensures v == Nil ==> r == "nil"
    ensures v.Bool? ==> r == (if v.b then "true" else "false")
    ensures v.Number? ==> r == TrimIntegralSuffix(numberText(v.x))
    ensures v.Str? ==> r == v.s
  {
    match v
    case Nil => "nil"
    case Bool(b) => if b then "true" else "false"
    case Number(x) => TrimIntegralSuffix(numberText(x))
    case Str(s) => s
  }

  /** A number whose text ends in ".0" prints without it, as 3.0 prints as "3". */
  lemma StringifyIntegralNumber(x: real, numberText: real -> string, digits: string)
    requires numberText(x) == digits + ".0"
    ensures Stringify(Number(x), numberText) == digits
  {
  }

  /** A number whose text does not end in ".0" prints unchanged, as 3.5 prints as "3.5". */
  lemma StringifyFractionalNumber(x: real, numberText: real -> string)
    requires !EndsWith(numberText(x), ".0")
    ensures Stringify(Number(x), numberText) == numberText(x)
  {
  }
}
