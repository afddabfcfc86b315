/**
 * The earlier hydration transform, kept beside the library one: the field is always removed
 * from the query, and each parent object whose overall type has an instruction gets exactly
 * one value set from its actor result.
 */
module HydrationTransformOld {
  import opened Wrappers
  import opened Fields
  import opened Json
  import opened Transform
  import opened Grouping

  /** The parts of an earlier hydration instruction the transform reads. */
  datatype HydrationFieldInstruction = HydrationFieldInstruction(
    location: FieldCoordinates,
    sourceService: string,
    pathToSourceField: seq<string>)

  /** The field's instructions keyed by coordinates (in map order), the field, and its artificial-field naming. */
  datatype State = State(
    instructions: seq<(FieldCoordinates, HydrationFieldInstruction)>,
    field: Field,
    artificialFields: AliasHelper)

  const ArtificialFieldsTag := "hydration_uuid"

  /** Applies exactly when the blueprint has hydration instructions for the field. */
  function IsApplicable(
    hydrationInstructions: seq<(FieldCoordinates, HydrationFieldInstruction)>, field: Field,
    artificialFieldsFor: string -> AliasHelper): (r: Option<State>)
    ensures r.None? <==> hydrationInstructions == []
    ensures r.Some? ==>
      && r.value.instructions == hydrationInstructions
      && r.value.field == field
      && r.value.artificialFields == artificialFieldsFor(ArtificialFieldsTag)
  {
    if hydrationInstructions == [] then None
    else Some(State(hydrationInstructions, field, artificialFieldsFor(ArtificialFieldsTag)))
  }

  /** `__typename`, aliased with the type-name result key, over the instruction type names. */
  function MakeTypeNameField(state: State): (r: Field)
    ensures r.fieldName == TypeNameFieldName && r.alias == Some(state.artificialFields.typeNameResultKey)
    ensures |r.objectTypeNames| == |state.instructions|
    ensures forall i :: 0 <= i < |state.instructions| ==> r.objectTypeNames[i] == state.instructions[i].0.typeName
  {
    Fields.MakeTypeNameField(state.artificialFields.typeNameResultKey,
      seq(|state.instructions|, i requires 0 <= i < |state.instructions| => state.instructions[i].0.typeName))
  }

  /** The field is always removed; each instruction's source fields are added, then `__typename`. */
  function TransformField(
    state: State,
    getArtificialFields: (FieldCoordinates, HydrationFieldInstruction) -> seq<Field>): (r: TransformFieldResult)
    ensures r.DeletesField()
    ensures var sourceFields := FlatMap(state.instructions,
        (entry: (FieldCoordinates, HydrationFieldInstruction)) => getArtificialFields(entry.0, entry.1));
      r.artificialFields == sourceFields + [MakeTypeNameField(state)]
  {
    TransformFieldResult(None,
      FlatMap(state.instructions, (entry: (FieldCoordinates, HydrationFieldInstruction)) => getArtificialFields(entry.0, entry.1)) +
      [MakeTypeNameField(state)])
  }

  /** The instruction for the parent's overall type and the field's name, if any (the type condition may not hold). */
  function GetMatchingInstruction(
    state: State, overallTypeNameOf: JsonNode -> string, parentNode: JsonNode): (r: Option<HydrationFieldInstruction>)
    ensures var coordinates := FieldCoordinates(overallTypeNameOf(parentNode), state.field.fieldName);
      && (r.Some? ==> (coordinates, r.value) in state.instructions)
      && (r.None? <==> forall i :: 0 <= i < |state.instructions| ==> state.instructions[i].0 != coordinates)
  {
    Lookup(state.instructions, FieldCoordinates(overallTypeNameOf(parentNode), state.field.fieldName))
  }

  /**
   * One parent object: nothing when no instruction matches, otherwise one `Set` of the value at
   * the instruction's source path in the actor result (null when absent) at the field's place.
   */
  function Hydrate(
    state: State, parentNode: JsonNode, hydrationField: Field,
    overallTypeNameOf: JsonNode -> string,
    executeHydration: (HydrationFieldInstruction, JsonNode) -> ServiceResult,
    getNodeAt: (JsonValue, seq<string>) -> Option<JsonNode>): (r: seq<ResultInstruction>)
    ensures GetMatchingInstruction(state, overallTypeNameOf, parentNode).None? <==> r == []
    ensures var instruction := GetMatchingInstruction(state, overallTypeNameOf, parentNode);
      instruction.Some? ==>
        var data := getNodeAt(executeHydration(instruction.value, parentNode).data, instruction.value.pathToSourceField);
        r == [Set(Child(parentNode.resultPath, hydrationField.ResultKey()), if data.Some? then data.value.value else JNull)]
  {
    match GetMatchingInstruction(state, overallTypeNameOf, parentNode)
    case None => []
    case Some(instruction) =>
      var result := executeHydration(instruction, parentNode);
      var data := getNodeAt(result.data, instruction.pathToSourceField);
      [Set(Child(parentNode.resultPath, hydrationField.ResultKey()), if data.Some? then data.value.value else JNull)]
  }

  /** The hydrations of the parents at the field's parent path (flattened), in parent order. */
  function GetResultInstructions(
    state: State, field: Field, parentKeys: seq<string>, data: JsonValue,
    getNodesAt: (JsonValue, seq<string>) -> seq<JsonNode>,
    overallTypeNameOf: JsonNode -> string,
    executeHydration: (HydrationFieldInstruction, JsonNode) -> ServiceResult,
    getNodeAt: (JsonValue, seq<string>) -> Option<JsonNode>): (r: seq<ResultInstruction>)
    ensures r == HydrateAll(state, getNodesAt(data, ListOfResultKeys(parentKeys, field)[..|parentKeys|]), field,
      overallTypeNameOf, executeHydration, getNodeAt)
  {
    var keys := ListOfResultKeys(parentKeys, field);
    HydrateAll(state, getNodesAt(data, keys[..|keys| - 1]), field, overallTypeNameOf, executeHydration, getNodeAt)
  }

  /** `flatMap` of `Hydrate` over the parents. */
  function HydrateAll(
    state: State, parentNodes: seq<JsonNode>, field: Field,
    overallTypeNameOf: JsonNode -> string,
    executeHydration: (HydrationFieldInstruction, JsonNode) -> ServiceResult,
    getNodeAt: (JsonValue, seq<string>) -> Option<JsonNode>): seq<ResultInstruction>
  {
    FlatMap(parentNodes, (p: JsonNode) => Hydrate(state, p, field, overallTypeNameOf, executeHydration, getNodeAt))
  }

  /**
   * Exactly the parents with a matching instruction get one instruction each, in parent order,
   * and it sets the field's place under that parent.
   */
  lemma {:induction false} HydrateAllMatched(
    state: State, parentNodes: seq<JsonNode>, field: Field,
    overallTypeNameOf: JsonNode -> string,
    executeHydration: (HydrationFieldInstruction, JsonNode) -> ServiceResult,
    getNodeAt: (JsonValue, seq<string>) -> Option<JsonNode>)
    ensures var matched := Kept(parentNodes, (p: JsonNode) => GetMatchingInstruction(state, overallTypeNameOf, p));
      var r := HydrateAll(state, parentNodes, field, overallTypeNameOf, executeHydration, getNodeAt);
      && |r| == |matched|
      && forall i :: 0 <= i < |r| ==> r[i].Set? && r[i].subjectPath == Child(matched[i].resultPath, field.ResultKey())
  {
    if parentNodes != [] {
      HydrateAllMatched(state, parentNodes[1..], field, overallTypeNameOf, executeHydration, getNodeAt);
    }
  }
}
