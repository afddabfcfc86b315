/**
 * Hydration in the engine library: a field whose value is fetched from another ("actor")
 * service. The query keeps the field only for object types without a hydration; for the
 * others the value is fetched per parent object and set into the result.
 */
module HydrationTransform {
  import opened Wrappers
  import opened Fields
  import opened Json
  import opened Transform
  import opened Grouping

  /** One actor call per parent object, or one per item of a list of keys. */
  datatype HydrationStrategy = OneToOne | ManyToOne

  /** The parts of a hydration instruction the transform reads. */
  datatype HydrationFieldInstruction = HydrationFieldInstruction(
    location: FieldCoordinates,
    actorService: string,
    queryPathToActorField: seq<string>,
    hydrationStrategy: HydrationStrategy)

  /**
   * The execution hooks. Only the engine's own hooks can choose among several instructions;
   * their choice, which may be none, is an input here.
   */
  datatype Hooks =
    | ServiceExecutionHooks
    | EngineExecutionHooks(getHydrationInstruction: (seq<HydrationFieldInstruction>, JsonNode, AliasHelper) -> Option<HydrationFieldInstruction>)

  /** The field's instructions per object type name (in map order), the field, its service and its alias helper. */
  datatype State = State(
    instructionsByObjectTypeNames: Groups<string, HydrationFieldInstruction>,
    hydratedFieldService: string,
    hydratedField: Field,
    aliasHelper: AliasHelper)

  const HydrationAliasTag := "hydration"

  /** Applies exactly when some object type of the field has hydration instructions. */
  function IsApplicable(
    hydrationInstructionsByTypeNames: Groups<string, HydrationFieldInstruction>,
    service: string, overallField: Field,
    aliasHelperForField: (string, Field) -> AliasHelper): (r: Option<State>)
    ensures r.None? <==> hydrationInstructionsByTypeNames == []
    ensures r.Some? ==>
      && r.value.instructionsByObjectTypeNames == hydrationInstructionsByTypeNames
      && r.value.hydratedFieldService == service
      && r.value.hydratedField == overallField
      && r.value.aliasHelper == aliasHelperForField(HydrationAliasTag, overallField)
  {
    if hydrationInstructionsByTypeNames == [] then None
    else Some(State(hydrationInstructionsByTypeNames, service, overallField, aliasHelperForField(HydrationAliasTag, overallField)))
  }

  /** The names of `names` that are (`inKeys`) or are not (`!inKeys`) among `keys`, in order. */
  function SelectNames(names: seq<string>, keys: seq<string>, inKeys: bool): (r: seq<string>)
    ensures |r| <= |names|
    ensures forall n :: n in r <==> n in names && (n in keys) == inKeys
  {
    if names == [] then []
    else (if (names[0] in keys) == inKeys then [names[0]] else []) + SelectNames(names[1..], keys, inKeys)
  }

  /** The artificial `__typename` selection, over the field's object types that have instructions; none when there are none. */
  function MakeTypeNameField(state: State, field: Field): (r: Option<Field>)
    ensures r.None? <==> forall n :: n in field.objectTypeNames ==> n !in Keys(state.instructionsByObjectTypeNames)
    ensures r.Some? ==>
      && r.value.fieldName == TypeNameFieldName
      && r.value.ResultKey() == state.aliasHelper.typeNameResultKey
      && r.value.objectTypeNames == SelectNames(field.objectTypeNames, Keys(state.instructionsByObjectTypeNames), true)
  {
    var objectTypeNames := SelectNames(field.objectTypeNames, Keys(state.instructionsByObjectTypeNames), true);
    if objectTypeNames == [] then None
    else
      assert objectTypeNames[0] in objectTypeNames;
      Some(Fields.MakeTypeNameField(state.aliasHelper.typeNameResultKey, objectTypeNames))
  }

  /**
   * The field stays in the query only for its object types without instructions, and is
   * removed when every type has one; the source fields each typed instruction list needs are
   * added, followed by the `__typename` field when it is needed.
   */
  function TransformField(
    state: State, field: Field,
    makeRequiredSourceFields: (string, seq<HydrationFieldInstruction>) -> seq<Field>): (r: TransformFieldResult)
    ensures var keys := Keys(state.instructionsByObjectTypeNames);
      && (r.newField.None? <==> forall n :: n in field.objectTypeNames ==> n in keys)
      && (r.newField.Some? ==>
            && r.newField.value.objectTypeNames == SelectNames(field.objectTypeNames, keys, false)
            && r.newField.value == field.(objectTypeNames := r.newField.value.objectTypeNames))
    ensures var sourceFields := FlatMap(state.instructionsByObjectTypeNames,
        (entry: (string, seq<HydrationFieldInstruction>)) => makeRequiredSourceFields(entry.0, entry.1));
      && (MakeTypeNameField(state, field).None? ==> r.artificialFields == sourceFields)
      && (MakeTypeNameField(state, field).Some? ==> r.artificialFields == sourceFields + [MakeTypeNameField(state, field).value])
  {
    var objectTypesNoRenames := SelectNames(field.objectTypeNames, Keys(state.instructionsByObjectTypeNames), false);
    assert objectTypesNoRenames != [] ==> objectTypesNoRenames[0] in objectTypesNoRenames;
    var newField := if objectTypesNoRenames != [] then Some(field.(objectTypeNames := objectTypesNoRenames)) else None;
    var fields := FlatMap(state.instructionsByObjectTypeNames,
      (entry: (string, seq<HydrationFieldInstruction>)) => makeRequiredSourceFields(entry.0, entry.1));
    match MakeTypeNameField(state, field)
    case None => TransformFieldResult(newField, fields)
    case Some(typeNameField) => TransformFieldResult(newField, fields + [typeNameField])
  }

  /**
   * Between them, the narrowed query field and the `__typename` field cover each object type
   * of the original field exactly once.
   */
  lemma NarrowingPartitions(state: State, field: Field, makeRequiredSourceFields: (string, seq<HydrationFieldInstruction>) -> seq<Field>, n: string)
    requires n in field.objectTypeNames
    ensures var r := TransformField(state, field, makeRequiredSourceFields);
      var typeNameField := MakeTypeNameField(state, field);
      (r.newField.Some? && n in r.newField.value.objectTypeNames) !=
      (typeNameField.Some? && n in typeNameField.value.objectTypeNames)
  {
  }

  const UndecidableInstructionMessage :=
    "Cannot decide which hydration instruction should be used. " +
    "Provided ServiceExecutionHooks has to be of type NadelEngineExecutionHooks"

  /**
   * The instruction to hydrate with: the only one when there is exactly one; otherwise the
   * engine hooks' choice, and an error when the hooks are not the engine's.
   */
  function GetHydrationFieldInstruction(
    state: State, instructions: seq<HydrationFieldInstruction>, hooks: Hooks, parentNode: JsonNode): (r: Result<Option<HydrationFieldInstruction>>)
    ensures |instructions| == 1 ==> r == Success(Some(instructions[0]))
    ensures |instructions| != 1 ==> (r.Failure? <==> hooks.ServiceExecutionHooks?)
    ensures |instructions| != 1 && hooks.EngineExecutionHooks? ==>
      r == Success(hooks.getHydrationInstruction(instructions, parentNode, state.aliasHelper))
  {
    if |instructions| == 1 then Success(Some(instructions[0]))
    else
      match hooks
      case EngineExecutionHooks(getHydrationInstruction) => Success(getHydrationInstruction(instructions, parentNode, state.aliasHelper))
      case ServiceExecutionHooks =>
        Failure(UndecidableInstructionMessage)
  }

  /** Nothing, or the only element; more than one element is an error. */
  function EmptyOrSingle<T>(xs: seq<T>): (r: Result<Option<T>>)
    ensures r.Failure? <==> |xs| > 1
    ensures r.Success? ==> (r.value.None? <==> xs == []) && (r.value.Some? ==> xs == [r.value.value])
  {
    if xs == [] then Success(None)
    else if |xs| == 1 then Success(Some(xs[0]))
    else Failure("Expected at most one element")
  }

  /** The value of a node, or null when there is no node. */
  function ValueOrNull(node: Option<JsonNode>): (r: JsonValue)
    ensures node.Some? ==> r == node.value.value
    ensures node.None? ==> r == JNull
  {
    if node.Some? then node.value.value else JNull
  }

  /** The actor field's value in one actor result, or null when it is not there. */
  function ActorValue(
    getNodeAt: (JsonValue, seq<string>) -> Option<JsonNode>, instruction: HydrationFieldInstruction, result: ServiceResult): JsonValue
  {
    ValueOrNull(getNodeAt(result.data, instruction.queryPathToActorField))
  }

  /**
   * The instructions once an instruction is chosen, given the actor results in actor-query
   * order. One-to-one: the single actor value (or null) is set at the field's place, followed
   * by that result's errors; more than one actor result is an error. Many-to-one: a list with
   * one entry per actor result, in order, followed by all their errors.
   */
  function HydrateWith(
    parentNode: JsonNode, fieldToHydrate: Field, instruction: HydrationFieldInstruction,
    actorQueryResults: seq<ServiceResult>,
    getNodeAt: (JsonValue, seq<string>) -> Option<JsonNode>,
    getInstructionsToAddErrors: seq<ServiceResult> -> seq<ResultInstruction>): (r: Result<seq<ResultInstruction>>)
    ensures r.Failure? <==> instruction.hydrationStrategy.OneToOne? && |actorQueryResults| > 1
    ensures r.Success? ==> |r.value| >= 1 && r.value[0].Set? && r.value[0].subjectPath == Child(parentNode.resultPath, fieldToHydrate.ResultKey())
    ensures r.Success? && instruction.hydrationStrategy.OneToOne? ==>
      if actorQueryResults == [] then r.value == [Set(Child(parentNode.resultPath, fieldToHydrate.ResultKey()), JNull)]
      else
        var result := actorQueryResults[0];
        && r.value[0].newValue == (if result.data.JNull? then JNull else ActorValue(getNodeAt, instruction, result))
        && r.value[1..] == getInstructionsToAddErrors([result])
    ensures r.Success? && instruction.hydrationStrategy.ManyToOne? ==>
      && r.value[0].newValue.JList?
      && |r.value[0].newValue.items| == |actorQueryResults|
      && (forall i :: 0 <= i < |actorQueryResults| ==>
            r.value[0].newValue.items[i] == ActorValue(getNodeAt, instruction, actorQueryResults[i]))
      && r.value[1..] == getInstructionsToAddErrors(actorQueryResults)
  {
    var destination := Child(parentNode.resultPath, fieldToHydrate.ResultKey());
    match instruction.hydrationStrategy
    case OneToOne =>
      var result :- EmptyOrSingle(actorQueryResults);
      var data := if result.None? || result.value.data.JNull? then JNull else ActorValue(getNodeAt, instruction, result.value);
      var errors := if result.Some? then getInstructionsToAddErrors([result.value]) else [];
      Success([Set(destination, data)] + errors)
    case ManyToOne =>
      var data := seq(|actorQueryResults|, i requires 0 <= i < |actorQueryResults| => ActorValue(getNodeAt, instruction, actorQueryResults[i]));
      Success([Set(destination, JList(data))] + getInstructionsToAddErrors(actorQueryResults))
  }

  /**
   * The instructions for one parent object, as written: when the hooks choose no instruction,
   * null is set under the field's name rather than its result key.
   */
  function HydrateAsWritten(
    state: State, parentNode: JsonNode, fieldToHydrate: Field, hooks: Hooks,
    getInstructionsForNode: JsonNode -> seq<HydrationFieldInstruction>,
    actorQueryResults: (HydrationFieldInstruction, JsonNode) -> seq<ServiceResult>,
    getNodeAt: (JsonValue, seq<string>) -> Option<JsonNode>,
    getInstructionsToAddErrors: seq<ServiceResult> -> seq<ResultInstruction>): (r: Result<seq<ResultInstruction>>)
    ensures getInstructionsForNode(parentNode) == [] ==> r == Success([])
    ensures var chosen := GetHydrationFieldInstruction(state, getInstructionsForNode(parentNode), hooks, parentNode);
      getInstructionsForNode(parentNode) != [] && chosen == Success(None) ==>
        r == Success([Set(Child(parentNode.resultPath, state.hydratedField.fieldName), JNull)])
  {
    var instructions := getInstructionsForNode(parentNode);
    if instructions == [] then Success([])
    else
      var chosen :- GetHydrationFieldInstruction(state, instructions, hooks, parentNode);
      match chosen
      case None => Success([Set(Child(parentNode.resultPath, state.hydratedField.fieldName), JNull)])
      case Some(instruction) =>
        HydrateWith(parentNode, fieldToHydrate, instruction, actorQueryResults(instruction, parentNode), getNodeAt, getInstructionsToAddErrors)
  }

  /**
   * The instructions for one parent object: none when its type has no instruction; null at the
   * field's place when the hooks choose none; otherwise the hydrated value. Errors come from
   * choosing an instruction or from a one-to-one hydration with several actor results.
   */
  function Hydrate(
    state: State, parentNode: JsonNode, fieldToHydrate: Field, hooks: Hooks,
    getInstructionsForNode: JsonNode -> seq<HydrationFieldInstruction>,
    actorQueryResults: (HydrationFieldInstruction, JsonNode) -> seq<ServiceResult>,
    getNodeAt: (JsonValue, seq<string>) -> Option<JsonNode>,
    getInstructionsToAddErrors: seq<ServiceResult> -> seq<ResultInstruction>): (r: Result<seq<ResultInstruction>>)
    ensures getInstructionsForNode(parentNode) == [] ==> r == Success([])
    ensures var chosen := GetHydrationFieldInstruction(state, getInstructionsForNode(parentNode), hooks, parentNode);
      getInstructionsForNode(parentNode) != [] ==>
        && (chosen.Failure? ==> r.Failure?)
        && (chosen == Success(None) ==> r == Success([Set(Child(parentNode.resultPath, fieldToHydrate.ResultKey()), JNull)]))
        && (chosen.Success? && chosen.value.Some? ==>
              r == HydrateWith(parentNode, fieldToHydrate, chosen.value.value, actorQueryResults(chosen.value.value, parentNode),
                getNodeAt, getInstructionsToAddErrors))
    ensures r.Success? && r.value != [] ==> r.value[0].Set? && r.value[0].subjectPath == Child(parentNode.resultPath, fieldToHydrate.ResultKey())
  {
    var instructions := getInstructionsForNode(parentNode);
    if instructions == [] then Success([])
    else
      var chosen :- GetHydrationFieldInstruction(state, instructions, hooks, parentNode);
      match chosen
      case None => Success([Set(Child(parentNode.resultPath, fieldToHydrate.ResultKey()), JNull)])
      case Some(instruction) =>
        HydrateWith(parentNode, fieldToHydrate, instruction, actorQueryResults(instruction, parentNode), getNodeAt, getInstructionsToAddErrors)
  }

  /**
   * For an aliased field whose hooks choose no instruction, the code as written puts the null
   * under the field's name, a key the overall query never asked for, while the field's own
   * result key is left unset.
   */
  lemma AliasedNullHydrationMisplaced(
    state: State, parentNode: JsonNode, hooks: Hooks,
    getInstructionsForNode: JsonNode -> seq<HydrationFieldInstruction>,
    actorQueryResults: (HydrationFieldInstruction, JsonNode) -> seq<ServiceResult>,
    getNodeAt: (JsonValue, seq<string>) -> Option<JsonNode>,
    getInstructionsToAddErrors: seq<ServiceResult> -> seq<ResultInstruction>)
    requires state.hydratedField == Field("owner", Some("author"), ["Issue"], [], [])
    requires |getInstructionsForNode(parentNode)| == 2
    requires hooks.EngineExecutionHooks? && hooks.getHydrationInstruction(getInstructionsForNode(parentNode), parentNode, state.aliasHelper).None?
    ensures var r := HydrateAsWritten(state, parentNode, state.hydratedField, hooks, getInstructionsForNode,
        actorQueryResults, getNodeAt, getInstructionsToAddErrors);
      && r.Success? && |r.value| == 1
      && r.value[0].subjectPath == Child(parentNode.resultPath, "owner")
      && r.value[0].subjectPath != Child(parentNode.resultPath, state.hydratedField.ResultKey())
  {
    assert Child(parentNode.resultPath, "owner")[|parentNode.resultPath|] == Key("owner");
  }

  /**
   * The result instructions: each parent object's hydration in parent order, concatenated; the
   * first error fails them all.
   */
  function GetResultInstructions(
    state: State, overallField: Field, parentNodes: seq<JsonNode>, hooks: Hooks,
    getInstructionsForNode: JsonNode -> seq<HydrationFieldInstruction>,
    actorQueryResults: (HydrationFieldInstruction, JsonNode) -> seq<ServiceResult>,
    getNodeAt: (JsonValue, seq<string>) -> Option<JsonNode>,
    getInstructionsToAddErrors: seq<ServiceResult> -> seq<ResultInstruction>): (r: Result<seq<ResultInstruction>>)
    ensures r.Failure? <==>
      exists i :: 0 <= i < |parentNodes| &&
        Hydrate(state, parentNodes[i], overallField, hooks, getInstructionsForNode, actorQueryResults, getNodeAt, getInstructionsToAddErrors).Failure?
    ensures r.Success? ==> r.value == FlatMap(parentNodes, (p: JsonNode) =>
      ValueOrEmpty(Hydrate(state, p, overallField, hooks, getInstructionsForNode, actorQueryResults, getNodeAt, getInstructionsToAddErrors)))
  {
    if parentNodes == [] then Success([])
    else
      var first :- Hydrate(state, parentNodes[0], overallField, hooks, getInstructionsForNode, actorQueryResults, getNodeAt, getInstructionsToAddErrors);
      var rest :- GetResultInstructions(state, overallField, parentNodes[1..], hooks, getInstructionsForNode, actorQueryResults, getNodeAt, getInstructionsToAddErrors);
      assert forall i :: 1 <= i < |parentNodes| ==> parentNodes[i] == parentNodes[1..][i - 1];
      Success(first + rest)
  }
}
