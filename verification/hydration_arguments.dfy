/**
 * The arguments of an actor query: each hydration argument takes its value either from an
 * argument of the hydrated field or from a value in the parent object, converted from JSON
 * to a GraphQL literal.
 */
module HydrationArgumentsBuilder {
  import opened Wrappers
  import opened Fields
  import opened Json
  import opened Grouping

  const TwoTo63: int := 0x8000_0000_0000_0000
  const TwoTo64: int := 0x1_0000_0000_0000_0000

  /** Kotlin's `Number.toLong()` on an integral number: the low 64 bits, read as a signed value. */
  function ToLong(i: int): (r: int)
    ensures -TwoTo63 <= r < TwoTo63
    ensures (r - i) % TwoTo64 == 0
    ensures -TwoTo63 <= i < TwoTo63 ==> r == i
  {
    var low := i % TwoTo64;
    if low >= TwoTo63 then low - TwoTo64 else low
  }

  /** 10 to the power `n`. */
  function Pow10(n: nat): (r: nat)
    ensures r >= 1
  {
    if n == 0 then 1 else 10 * Pow10(n - 1)
  }

  /**
   * The integer part of the decimal `unscaled` × 10^-`scale`, as `BigDecimal` gives it to
   * `toLong`: the fraction is discarded, rounding toward zero.
   */
  function IntegerPart(unscaled: int, scale: int): (r: int)
    ensures scale <= 0 ==> r == unscaled * Pow10(-scale)
    ensures scale > 0 && unscaled >= 0 ==> 0 <= r && r * Pow10(scale) <= unscaled < (r + 1) * Pow10(scale)
    ensures scale > 0 && unscaled < 0 ==> r <= 0 && -r * Pow10(scale) <= -unscaled < (1 - r) * Pow10(scale)
  {
    if scale <= 0 then unscaled * Pow10(-scale)
    else
      var p := Pow10(scale);
      var n := if unscaled >= 0 then unscaled else -unscaled;
      DivisionBounds(n, p);
      if unscaled >= 0 then n / p else -(n / p)
  }

  /** Truncating division leaves the quotient's multiple at most the dividend, and the next one past it. */
  lemma DivisionBounds(n: nat, p: nat)
    requires p >= 1
    ensures 0 <= n / p && (n / p) * p <= n < (n / p + 1) * p
  {
    var q, m := n / p, n % p;
    assert n == q * p + m && 0 <= m < p;
    assert (q + 1) * p == q * p + p;
  }

  /**
   * A JSON value as a GraphQL literal: lists and objects element by element (keys and order
   * kept), null, `Double` and `Float` as float literals, any other number (integral or
   * `BigDecimal`) as an integer truncated to 64 bits, strings and booleans as they are. Any
   * other kind of value is an error.
   */
  function ValueToAstValue(value: JsonValue): (r: Result<AstValue>)
    decreases value, 1
    ensures r.Failure? <==> HasUnknownValue(value)
    ensures r.Success? ==> SameShape(value, r.value)
  {
    match value
    case JList(items) =>
      var values :- ValuesToAstValues(items);
      Success(ArrayValue(values))
    case JObject(entries) =>
      var objectFields :- EntriesToObjectFields(value, entries);
      Success(ObjectValue(objectFields))
    case JNull => Success(NullValue)
    case JFloat(tag) => Success(FloatValue(tag))
    case JInt(i) => Success(IntValue(ToLong(i)))
    case JDecimal(unscaled, scale) => Success(IntValue(ToLong(IntegerPart(unscaled, scale))))
    case JString(s) => Success(StringValue(s))
    case JBool(b) => Success(BooleanValue(b))
    case JOther(kind) => Failure("Unknown value type '" + kind + "'")
  }

  function ValuesToAstValues(items: seq<JsonValue>): (r: Result<seq<AstValue>>)
    decreases items, 0
    ensures r.Failure? <==> exists i :: 0 <= i < |items| && HasUnknownValue(items[i])
    ensures r.Success? ==> |r.value| == |items| && forall i :: 0 <= i < |items| ==> SameShape(items[i], r.value[i])
  {
    if items == [] then Success([])
    else
      var first :- ValueToAstValue(items[0]);
      var rest :- ValuesToAstValues(items[1..]);
      assert forall i :: 1 <= i < |items| ==> items[i] == items[1..][i - 1];
      Success([first] + rest)
  }

  function EntriesToObjectFields(parent: JsonValue, entries: seq<(string, JsonValue)>): (r: Result<seq<ObjectField>>)
    requires parent.JObject? && forall i :: 0 <= i < |entries| ==> entries[i] in parent.entries
    decreases parent, 0, |entries|
    ensures r.Failure? <==> exists i :: 0 <= i < |entries| && HasUnknownValue(entries[i].1)
    ensures r.Success? ==>
      && |r.value| == |entries|
      && forall i :: 0 <= i < |entries| ==> r.value[i].name == entries[i].0 && SameShape(entries[i].1, r.value[i].value)
  {
    if entries == [] then Success([])
    else
      assert entries[0] in parent.entries;
      var first :- ValueToAstValue(entries[0].1);
      var rest :- EntriesToObjectFields(parent, entries[1..]);
      assert forall i :: 1 <= i < |entries| ==> entries[i] == entries[1..][i - 1];
      Success([ObjectField(entries[0].0, first)] + rest)
  }

  /** The value holds, at any depth, something that is not JSON null, boolean, number, string, list or object. */
  ghost predicate HasUnknownValue(value: JsonValue)
    decreases value
  {
    match value
    case JList(items) => exists i :: 0 <= i < |items| && HasUnknownValue(items[i])
    case JObject(entries) => exists i :: 0 <= i < |entries| && HasUnknownValue(entries[i].1)
    case JOther(_) => true
    case _ => false
  }

  /**
   * The literal mirrors the JSON value: same kind at every position, same list lengths, same
   * object keys in the same order, same strings, booleans and float tags, integers equal
   * modulo 2^64, and a decimal's integer part equal modulo 2^64 to an integer literal.
   */
  ghost predicate SameShape(value: JsonValue, ast: AstValue)
    decreases value
  {
    match value
    case JList(items) =>
      ast.ArrayValue? && |ast.values| == |items| &&
      forall i :: 0 <= i < |items| ==> SameShape(items[i], ast.values[i])
    case JObject(entries) =>
      ast.ObjectValue? && |ast.objectFields| == |entries| &&
      forall i :: 0 <= i < |entries| ==> ast.objectFields[i].name == entries[i].0 && SameShape(entries[i].1, ast.objectFields[i].value)
    case JNull => ast == NullValue
    case JFloat(tag) => ast == FloatValue(tag)
    case JInt(i) => ast.IntValue? && -TwoTo63 <= ast.i < TwoTo63 && (ast.i - i) % TwoTo64 == 0
    case JDecimal(unscaled, scale) =>
      ast.IntValue? && -TwoTo63 <= ast.i < TwoTo63 && (ast.i - IntegerPart(unscaled, scale)) % TwoTo64 == 0
    case JString(s) => ast == StringValue(s)
    case JBool(b) => ast == BooleanValue(b)
    case JOther(_) => false
  }

  /** The JSON reading of a literal (the inverse direction of the conversion). */
  function AstValueToJson(ast: AstValue): JsonValue
    decreases ast
  {
    match ast
    case NullValue => JNull
    case BooleanValue(b) => JBool(b)
    case IntValue(i) => JInt(i)
    case FloatValue(tag) => JFloat(tag)
    case StringValue(s) => JString(s)
    case ArrayValue(values) => JList(seq(|values|, i requires 0 <= i < |values| => AstValueToJson(values[i])))
    case ObjectValue(objectFields) =>
      JObject(seq(|objectFields|, i requires 0 <= i < |objectFields| => (objectFields[i].name, AstValueToJson(objectFields[i].value))))
  }

  /**
   * Every number in the value is an integral number that fits in a signed 64-bit long. A
   * `BigDecimal` never qualifies: it becomes an integer literal and reads back as one.
   */
  ghost predicate FitsInLong(value: JsonValue)
    decreases value
  {
    match value
    case JList(items) => forall i :: 0 <= i < |items| ==> FitsInLong(items[i])
    case JObject(entries) => forall i :: 0 <= i < |entries| ==> FitsInLong(entries[i].1)
    case JInt(i) => -TwoTo63 <= i < TwoTo63
    case JDecimal(_, _) => false
    case _ => true
  }

  /** A literal of the same shape as a value whose integers fit in a long reads back as that value. */
  lemma {:induction false} SameShapeRoundTrip(value: JsonValue, ast: AstValue)
    requires SameShape(value, ast) && FitsInLong(value)
    ensures AstValueToJson(ast) == value
    decreases value
  {
    match value
    case JList(items) =>
      forall i | 0 <= i < |items| ensures AstValueToJson(ast.values[i]) == items[i] {
        SameShapeRoundTrip(items[i], ast.values[i]);
      }
    case JObject(entries) =>
      forall i | 0 <= i < |entries| ensures (ast.objectFields[i].name, AstValueToJson(ast.objectFields[i].value)) == entries[i] {
        SameShapeRoundTrip(entries[i].1, ast.objectFields[i].value);
      }
    case JInt(i) =>
      assert ast.i == i by {
        var d := ast.i - i;
        assert -TwoTo64 < d < TwoTo64 && d % TwoTo64 == 0;
      }
    case _ =>
  }

  /**
   * Converting JSON to a literal loses nothing when every integer fits in a long: reading the
   * literal back gives the original value.
   */
  lemma RoundTrip(value: JsonValue)
    requires !HasUnknownValue(value) && FitsInLong(value)
    ensures ValueToAstValue(value).Success?
    ensures AstValueToJson(ValueToAstValue(value).value) == value
  {
    SameShapeRoundTrip(value, ValueToAstValue(value).value);
  }

  /**
   * A `BigDecimal` loses its fraction, rounding toward zero, while a `Double` keeps it: 2.5 and
   * -2.5 as decimals become the integer literals 2 and -2, and the double 2.5 stays a float.
   */
  lemma DecimalIsTruncated()
    ensures ValueToAstValue(JDecimal(25, 1)) == Success(IntValue(2))
    ensures ValueToAstValue(JDecimal(-25, 1)) == Success(IntValue(-2))
    ensures ValueToAstValue(JDecimal(3, -2)) == Success(IntValue(300))
    ensures ValueToAstValue(JFloat("2.5")) == Success(FloatValue("2.5"))
  {
    assert Pow10(1) == 10;
    assert Pow10(2) == 100;
  }

  /**
   * The argument value from a field of the parent object: the value of the node at the result
   * keys for the path (none gives null), as a literal, typed with the argument's printed type.
   * A missing argument definition is an error.
   */
  function MakeFieldInputValue(
    argumentType: Option<string>, valueSource: HydrationArgumentValueSource, parentNode: JsonNode,
    pathToResultKeys: seq<string> -> seq<string>,
    getNodeAt: (JsonNode, seq<string>) -> Option<JsonNode>): (r: Result<NormalizedInputValue>)
    requires valueSource.FieldValue?
    ensures var node := getNodeAt(parentNode, pathToResultKeys(valueSource.pathToField));
      && (r.Failure? <==> argumentType.None? || (node.Some? && HasUnknownValue(node.value.value)))
      && (r.Success? && node.None? ==> r.value == NormalizedInputValue(argumentType.value, NullValue))
      && (r.Success? && node.Some? ==> r.value.typeName == argumentType.value && SameShape(node.value.value, r.value.value))
  {
    var node := getNodeAt(parentNode, pathToResultKeys(valueSource.pathToField));
    var value := if node.Some? then node.value.value else JNull;
    match argumentType
    case None => Failure("argument definition is null")
    case Some(typeName) =>
      var ast :- ValueToAstValue(value);
      Success(NormalizedInputValue(typeName, ast))
  }

  /**
   * The value of one actor-query argument. From an argument of the hydrated field: that
   * argument as it is (absent when the field does not have it). From a field value: see
   * `MakeFieldInputValue`.
   */
  function MakeInputValue(
    argument: HydrationArgument, argumentType: Option<string>, parentNode: JsonNode, hydrationField: Field,
    pathToResultKeys: seq<string> -> seq<string>,
    getNodeAt: (JsonNode, seq<string>) -> Option<JsonNode>): (r: Result<Option<NormalizedInputValue>>)
    ensures argument.valueSource.ArgumentValue? ==>
      r == Success(Lookup(hydrationField.arguments, argument.valueSource.argumentName))
    ensures argument.valueSource.FieldValue? ==>
      var v := MakeFieldInputValue(argumentType, argument.valueSource, parentNode, pathToResultKeys, getNodeAt);
      (r.Failure? <==> v.Failure?) && (r.Success? ==> r.value == Some(v.value))
  {
    match argument.valueSource
    case ArgumentValue(argumentName) => Success(Lookup(hydrationField.arguments, argumentName))
    case FieldValue(_) =>
      var v :- MakeFieldInputValue(argumentType, argument.valueSource, parentNode, pathToResultKeys, getNodeAt);
      Success(Some(v))
  }

  /**
   * One entry per hydration argument, in order, keyed by the argument's name, before the
   * entries are put into a map. `argumentTypeOf` gives the printed type of the source field's
   * argument of that name, if it has one.
   */
  function CreateSourceFieldArgs(
    arguments: seq<HydrationArgument>, argumentTypeOf: string -> Option<string>,
    parentNode: JsonNode, hydrationField: Field,
    pathToResultKeys: seq<string> -> seq<string>,
    getNodeAt: (JsonNode, seq<string>) -> Option<JsonNode>): (r: Result<seq<(string, Option<NormalizedInputValue>)>>)
    ensures r.Failure? <==>
      exists i :: 0 <= i < |arguments| && MakeInputValue(arguments[i], argumentTypeOf(arguments[i].name), parentNode, hydrationField, pathToResultKeys, getNodeAt).Failure?
    ensures r.Success? ==>
      && |r.value| == |arguments|
      && forall i :: 0 <= i < |arguments| ==>
           && r.value[i].0 == arguments[i].name
           && Success(r.value[i].1) ==
              MakeInputValue(arguments[i], argumentTypeOf(arguments[i].name), parentNode, hydrationField, pathToResultKeys, getNodeAt)
  {
    if arguments == [] then Success([])
    else
      var first :- MakeInputValue(arguments[0], argumentTypeOf(arguments[0].name), parentNode, hydrationField, pathToResultKeys, getNodeAt);
      var rest :- CreateSourceFieldArgs(arguments[1..], argumentTypeOf, parentNode, hydrationField, pathToResultKeys, getNodeAt);
      assert forall i :: 1 <= i < |arguments| ==> arguments[i] == arguments[1..][i - 1];
      Success([(arguments[0].name, first)] + rest)
  }
}
