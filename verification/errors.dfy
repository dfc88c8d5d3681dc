/**
  The crate-wide error union and the `expect_*` helpers of `src/error/mod.rs`.
  Rust's per-variant constructor functions (`expected_string`,
  `unmatched_partial_token`, `addition_error`, ...) are the datatype's own
  constructors here. The three that take their arguments in a different order
  from the fields (`wrong_operator_argument_amount`,
  `wrong_function_argument_amount` and `type_error`), and `expected_type`, are
  written out as functions.
 */
module Errors {
  import opened Results
  import opened Values
  import opened Tokens

  datatype EvalexprError =
    // arity mismatches
    | WrongOperatorArgumentAmount(expectedAmount: nat, actualAmount: nat)
    | WrongFunctionArgumentAmount(expectedAmount: nat, actualAmount: nat)
    // type expectations, each carrying the value that was found
    | ExpectedString(actual: Value)
    | ExpectedInt(actual: Value)
    | ExpectedFloat(actual: Value)
    | ExpectedNumber(actual: Value)
    | ExpectedNumberOrString(actual: Value)
    | ExpectedBoolean(actual: Value)
    | ExpectedTuple(actual: Value)
    | ExpectedEmpty(actual: Value)
    // operator tree
    | AppendedToLeafNode
    | PrecedenceViolation
    // lookups
    | VariableIdentifierNotFound(identifier: string)
    | FunctionIdentifierNotFound(identifier: string)
    | TypeError(expectedTypes: TupleType, actual: Value)
    // braces and lexing
    | UnmatchedLBrace
    | UnmatchedRBrace
    | UnmatchedPartialToken(first: PartialToken, second: Option<PartialToken>)
    // arithmetic
    | AdditionError(augend: Value, addend: Value)
    | SubtractionError(minuend: Value, subtrahend: Value)
    | NegationError(argument: Value)
    | MultiplicationError(multiplicand: Value, multiplier: Value)
    | DivisionError(dividend: Value, divisor: Value)
    | ModulationError(dividend: Value, divisor: Value)
    // everything else
    | InvalidRegex(regex: string, message: string)
    | ContextNotManipulable
    | IllegalEscapeSequence(sequence: string)
    | CustomMessage(message: string)

  /** `EvalexprResult<T>`. */
  type EvalexprResult<T> = Result<T, EvalexprError>

  /** The six "Expected…" variants that name one value type. */
  predicate IsTypeExpectation(e: EvalexprError)
  {
    e.ExpectedString? || e.ExpectedInt? || e.ExpectedFloat? ||
    e.ExpectedBoolean? || e.ExpectedTuple? || e.ExpectedEmpty?
  }

  /** The value type an "Expected…" variant names, if it names exactly one. */
  function ExpectedTypeOf(e: EvalexprError): (t: Option<ValueType>)
  {
    match e
    case ExpectedString(_) => Some(ValueType.String)
    case ExpectedInt(_) => Some(ValueType.Int)
    case ExpectedFloat(_) => Some(ValueType.Float)
    case ExpectedBoolean(_) => Some(ValueType.Boolean)
    case ExpectedTuple(_) => Some(ValueType.Tuple)
    case ExpectedEmpty(_) => Some(ValueType.Empty)
    case _ => None
  }

  /** `EvalexprError::wrong_operator_argument_amount(actual, expected)`. */
  function OperatorArgumentAmountError(actual: nat, expected: nat): (e: EvalexprError)
    ensures e.WrongOperatorArgumentAmount?
    ensures e.actualAmount == actual && e.expectedAmount == expected
  {
    WrongOperatorArgumentAmount(expectedAmount := expected, actualAmount := actual)
  }

  /** `EvalexprError::wrong_function_argument_amount(actual, expected)`. */
  function FunctionArgumentAmountError(actual: nat, expected: nat): (e: EvalexprError)
    ensures e.WrongFunctionArgumentAmount?
    ensures e.actualAmount == actual && e.expectedAmount == expected
  {
    WrongFunctionArgumentAmount(expectedAmount := expected, actualAmount := actual)
  }

  /** `EvalexprError::type_error(actual, expected)`. */
  function TypeErrorOf(actual: Value, expected: TupleType): (e: EvalexprError)
    ensures e.TypeError?
    ensures e.actual == actual && e.expectedTypes == expected
  {
    TypeError(expectedTypes := expected, actual := actual)
  }

  /** The argument-count constructors never swap their counts: the error determines both arguments. */
  lemma ArgumentAmountErrorsInjective(a1: nat, e1: nat, a2: nat, e2: nat)
    ensures OperatorArgumentAmountError(a1, e1) == OperatorArgumentAmountError(a2, e2) <==> a1 == a2 && e1 == e2
    ensures FunctionArgumentAmountError(a1, e1) == FunctionArgumentAmountError(a2, e2) <==> a1 == a2 && e1 == e2
    ensures OperatorArgumentAmountError(a1, e1) != FunctionArgumentAmountError(a2, e2)
  {
  }

  /** `EvalexprError::expected_type`: an error naming the type of `expected`, carrying `actual`. */
  function ExpectedType(expected: Value, actual: Value): (e: EvalexprError)
    ensures IsTypeExpectation(e)
    ensures e.actual == actual
    ensures ExpectedTypeOf(e) == Some(TypeOf(expected))
  {
    match TypeOf(expected)
    case String => ExpectedString(actual)
    case Int => ExpectedInt(actual)
    case Float => ExpectedFloat(actual)
    case Boolean => ExpectedBoolean(actual)
    case Tuple => ExpectedTuple(actual)
    case Empty => ExpectedEmpty(actual)
  }

  /** `expect_operator_argument_amount`. */
  function ExpectOperatorArgumentAmount(actual: nat, expected: nat): (r: EvalexprResult<()>)
    ensures r.Ok? <==> actual == expected
    ensures r.Err? ==> r.error.WrongOperatorArgumentAmount?
    ensures r.Err? ==> r.error.actualAmount == actual && r.error.expectedAmount == expected
  {
    if actual == expected then Ok(()) else Err(OperatorArgumentAmountError(actual, expected))
  }

  /** `expect_function_argument_amount`. */
  function ExpectFunctionArgumentAmount(actual: nat, expected: nat): (r: EvalexprResult<()>)
    ensures r.Ok? <==> actual == expected
    ensures r.Err? ==> r.error.WrongFunctionArgumentAmount?
    ensures r.Err? ==> r.error.actualAmount == actual && r.error.expectedAmount == expected
  {
    if actual == expected then Ok(()) else Err(FunctionArgumentAmountError(actual, expected))
  }

  /** `expect_string`. */
  function ExpectString(actual: Value): (r: EvalexprResult<string>)
    ensures r.Ok? <==> actual.String?
    ensures r.Ok? ==> actual == Value.String(r.value)
    ensures r.Err? ==> r.error == ExpectedString(actual)
  {
    match actual
    case String(s) => Ok(s)
    case _ => Err(ExpectedString(actual))
  }

  /** `expect_number`: integers and floats are numbers. */
  function ExpectNumber(actual: Value): (r: EvalexprResult<()>)
    ensures r.Ok? <==> TypeOf(actual) in {ValueType.Int, ValueType.Float}
    ensures r.Err? ==> r.error == ExpectedNumber(actual)
  {
    match actual
    case Float(_) => Ok(())
    case Int(_) => Ok(())
    case _ => Err(ExpectedNumber(actual))
  }

  /** `expect_number_or_string`. */
  function ExpectNumberOrString(actual: Value): (r: EvalexprResult<()>)
    ensures r.Ok? <==> TypeOf(actual) in {ValueType.String, ValueType.Int, ValueType.Float}
    ensures r.Err? ==> r.error == ExpectedNumberOrString(actual)
  {
    match actual
    case String(_) => Ok(())
    case Float(_) => Ok(())
    case Int(_) => Ok(())
    case _ => Err(ExpectedNumberOrString(actual))
  }

  /** `expect_boolean`. */
  function ExpectBoolean(actual: Value): (r: EvalexprResult<bool>)
    ensures r.Ok? <==> actual.Boolean?
    ensures r.Ok? ==> actual == Value.Boolean(r.value)
    ensures r.Err? ==> r.error == ExpectedBoolean(actual)
  {
    match actual
    case Boolean(b) => Ok(b)
    case _ => Err(ExpectedBoolean(actual))
  }

  /** `expect_tuple`. */
  function ExpectTuple(actual: Value): (r: EvalexprResult<TupleType>)
    ensures r.Ok? <==> actual.Tuple?
    ensures r.Ok? ==> actual == Value.Tuple(r.value)
    ensures r.Err? ==> r.error == ExpectedTuple(actual)
  {
    match actual
    case Tuple(t) => Ok(t)
    case _ => Err(ExpectedTuple(actual))
  }

  /** The two arity checks agree on success and report the same counts in different variants, never swapped. */
  lemma ArityChecksAgree(actual: nat, expected: nat)
    ensures ExpectOperatorArgumentAmount(actual, expected).Ok? <==>
            ExpectFunctionArgumentAmount(actual, expected).Ok?
    ensures actual != expected ==>
              ExpectOperatorArgumentAmount(actual, expected) ==
                Err(WrongOperatorArgumentAmount(expectedAmount := expected, actualAmount := actual)) &&
              ExpectFunctionArgumentAmount(actual, expected) ==
                Err(WrongFunctionArgumentAmount(expectedAmount := expected, actualAmount := actual))
    ensures actual != expected ==>
              ExpectOperatorArgumentAmount(actual, expected) != ExpectOperatorArgumentAmount(expected, actual)
  {
  }

  /** Every number is accepted where a number or a string is expected; the strings are the only addition. */
  lemma NumberOrStringExtendsNumber(v: Value)
    ensures ExpectNumber(v).Ok? ==> ExpectNumberOrString(v).Ok?
    ensures ExpectNumberOrString(v).Ok? <==> ExpectNumber(v).Ok? || ExpectString(v).Ok?
    ensures ExpectNumber(v).Ok? ==> ExpectString(v).Err?
  {
  }

  /** The value classifiers partition the values: none of them accepts what another accepts. */
  lemma ClassifiersDisjoint(v: Value)
    ensures ExpectString(v).Ok? ==> ExpectBoolean(v).Err? && ExpectTuple(v).Err? && ExpectNumber(v).Err?
    ensures ExpectBoolean(v).Ok? ==> ExpectTuple(v).Err? && ExpectNumberOrString(v).Err?
    ensures ExpectTuple(v).Ok? ==> ExpectNumberOrString(v).Err?
    ensures v.Empty? ==> ExpectNumberOrString(v).Err? && ExpectBoolean(v).Err? && ExpectTuple(v).Err?
  {
  }

  /** `expected_type` depends on the type of `expected` only, and distinct types give distinct variants. */
  lemma ExpectedTypeByTypeOnly(e1: Value, e2: Value, actual: Value)
    ensures ExpectedType(e1, actual) == ExpectedType(e2, actual) <==> TypeOf(e1) == TypeOf(e2)
  {
    var a, b := ExpectedType(e1, actual), ExpectedType(e2, actual);
    if a == b {
      assert ExpectedTypeOf(a) == ExpectedTypeOf(b);
    }
  }

  /** `expected_type` never produces the two-type variants or the generic type error. */
  lemma ExpectedTypeNeverGeneric(expected: Value, actual: Value)
    ensures !ExpectedType(expected, actual).ExpectedNumber?
    ensures !ExpectedType(expected, actual).ExpectedNumberOrString?
    ensures !ExpectedType(expected, actual).TypeError?
  {
  }

  /**
    `expected_type` and the single-type classifiers report a mismatch with the
    same error: expecting the type of a string, boolean or tuple and finding
    something else is exactly what `expect_string`, `expect_boolean` or
    `expect_tuple` reports.
   */
  lemma ExpectedTypeAgreesWithClassifiers(expected: Value, actual: Value)
    ensures expected.String? && ExpectString(actual).Err? ==>
              ExpectString(actual) == Err(ExpectedType(expected, actual))
    ensures expected.Boolean? && ExpectBoolean(actual).Err? ==>
              ExpectBoolean(actual) == Err(ExpectedType(expected, actual))
    ensures expected.Tuple? && ExpectTuple(actual).Err? ==>
              ExpectTuple(actual) == Err(ExpectedType(expected, actual))
  {
  }
}
