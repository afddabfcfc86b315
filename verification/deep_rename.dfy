/**
 * The deep rename: an overall field declared as renamed from a deeper path of the underlying
 * type (`name @renamed(from: ["collar", "name"])`) is fetched through that path and its value
 * is moved up to where the overall field belongs.
 */
module DeepRenameTransform {
  import opened Wrappers
  import opened Fields
  import opened Json
  import opened Transform
  import PathToField

  /** The declared deep path of a field at `location`, as a query path of underlying field names. */
  datatype DeepRenameFieldInstruction = DeepRenameFieldInstruction(location: FieldCoordinates, queryPathToField: seq<string>)

  /**
   * The field's instructions keyed by coordinates, in map order: an abstract field can have a
   * different deep path per object type. The alias helper names the artificial fields.
   */
  datatype State = State(
    instructions: seq<(FieldCoordinates, DeepRenameFieldInstruction)>,
    aliasHelper: AliasHelper,
    field: Field)

  const DeepRenameAliasTag := "deep_rename"

  /** The type names of the instruction coordinates, in map order. */
  function InstructionTypeNames(instructions: seq<(FieldCoordinates, DeepRenameFieldInstruction)>): (r: seq<string>)
    ensures |r| == |instructions| && forall i :: 0 <= i < |r| ==> r[i] == instructions[i].0.typeName
  {
    seq(|instructions|, i requires 0 <= i < |instructions| => instructions[i].0.typeName)
  }

  /**
   * Applies exactly when the blueprint has deep-rename instructions for the field; the state
   * keeps those instructions, the alias helper made for the field, and the field itself.
   */
  function IsApplicable(
    deepRenameInstructions: seq<(FieldCoordinates, DeepRenameFieldInstruction)>,
    aliasHelperForField: (string, Field) -> AliasHelper,
    overallField: Field): (r: Option<State>)
    ensures r.None? <==> deepRenameInstructions == []
    ensures r.Some? ==>
      && r.value.instructions == deepRenameInstructions
      && r.value.aliasHelper == aliasHelperForField(DeepRenameAliasTag, overallField)
      && r.value.field == overallField
  {
    if deepRenameInstructions == [] then None
    else Some(State(deepRenameInstructions, aliasHelperForField(DeepRenameAliasTag, overallField), overallField))
  }

  /**
   * The artificial selection telling the object types apart: `__typename` aliased with the
   * helper's type-name result key, on exactly the instruction type names.
   */
  function MakeTypeNameField(state: State): (r: Field)
    ensures r.fieldName == TypeNameFieldName && r.ResultKey() == state.aliasHelper.typeNameResultKey
    ensures r.objectTypeNames == InstructionTypeNames(state.instructions)
  {
    Fields.MakeTypeNameField(state.aliasHelper.typeNameResultKey, InstructionTypeNames(state.instructions))
  }

  /**
   * The deep selection for one instruction, built under the underlying object type of the
   * instruction's type and made artificial. It fails when that object type is missing or the
   * path cannot be built.
   */
  function MakeDeepField(
    state: State, underlyingSchema: PathToField.Schema, getUnderlyingTypeName: string -> string,
    transformedChildren: seq<Field>, coordinates: FieldCoordinates, deepRename: DeepRenameFieldInstruction): (r: Result<Field>)
    ensures PathToField.GetObjectType(underlyingSchema, getUnderlyingTypeName(coordinates.typeName)).None? ==> r.Failure?
    ensures r.Success? ==>
      exists f ::
        && PathToField.ChainFrom(f, deepRename.queryPathToField, 0, [], transformedChildren)
        && f.objectTypeNames == [PathToField.GetObjectType(underlyingSchema, getUnderlyingTypeName(coordinates.typeName)).value.name]
        && r.value == state.aliasHelper.toArtificial(f)
  {
    match PathToField.GetObjectType(underlyingSchema, getUnderlyingTypeName(coordinates.typeName))
    case None => Failure("No underlying object type")
    case Some(underlyingObjectType) =>
      var f :- PathToField.CreateObjectField(underlyingSchema, underlyingObjectType, deepRename.queryPathToField, [], transformedChildren);
      Success(state.aliasHelper.toArtificial(f))
  }

  /** The deep fields of the instructions, in order; the first failure fails them all. */
  function MakeDeepFields(
    state: State, underlyingSchema: PathToField.Schema, getUnderlyingTypeName: string -> string,
    transformedChildren: seq<Field>, instructions: seq<(FieldCoordinates, DeepRenameFieldInstruction)>): (r: Result<seq<Field>>)
    ensures r.Failure? <==>
      exists i :: 0 <= i < |instructions| &&
        MakeDeepField(state, underlyingSchema, getUnderlyingTypeName, transformedChildren, instructions[i].0, instructions[i].1).Failure?
    ensures r.Success? ==> |r.value| == |instructions| && forall i :: 0 <= i < |instructions| ==>
      Success(r.value[i]) == MakeDeepField(state, underlyingSchema, getUnderlyingTypeName, transformedChildren, instructions[i].0, instructions[i].1)
  {
    if instructions == [] then Success([])
    else
      var f :- MakeDeepField(state, underlyingSchema, getUnderlyingTypeName, transformedChildren, instructions[0].0, instructions[0].1);
      var rest :- MakeDeepFields(state, underlyingSchema, getUnderlyingTypeName, transformedChildren, instructions[1..]);
      assert forall i :: 1 <= i < |instructions| ==> instructions[i] == instructions[1..][i - 1];
      Success([f] + rest)
  }

  /**
   * The original field is removed from the query; in its place go one deep field per
   * instruction, in instruction order, and then the `__typename` field.
   */
  function TransformField(
    state: State, underlyingSchema: PathToField.Schema, getUnderlyingTypeName: string -> string,
    transformedChildren: seq<Field>): (r: Result<TransformFieldResult>)
    ensures r.Failure? <==> MakeDeepFields(state, underlyingSchema, getUnderlyingTypeName, transformedChildren, state.instructions).Failure?
    ensures r.Success? ==>
      && r.value.DeletesField()
      && |r.value.artificialFields| == |state.instructions| + 1
      && r.value.artificialFields[|state.instructions|] == MakeTypeNameField(state)
      && forall i :: 0 <= i < |state.instructions| ==>
           Success(r.value.artificialFields[i]) ==
           MakeDeepField(state, underlyingSchema, getUnderlyingTypeName, transformedChildren, state.instructions[i].0, state.instructions[i].1)
  {
    var deepFields :- MakeDeepFields(state, underlyingSchema, getUnderlyingTypeName, transformedChildren, state.instructions);
    Success(TransformFieldResult(None, deepFields + [MakeTypeNameField(state)]))
  }

  /** Where the overall field's value belongs under a parent object: the parent's path plus the field's result key. */
  function DestinationPath(parentNode: JsonNode, overallField: Field): (r: ResultPath)
    ensures |r| == |parentNode.resultPath| + 1
    ensures r[..|parentNode.resultPath|] == parentNode.resultPath && r[|parentNode.resultPath|] == Key(overallField.ResultKey())
  {
    Child(parentNode.resultPath, overallField.ResultKey())
  }

  /**
   * The instruction for one parent object, if its type has a deep rename: copy the value at
   * the aliased deep path up to the overall field's place, or set that place to null when
   * there is no value at the deep path.
   */
  function InstructionForParent(
    state: State, overallField: Field,
    getInstructionForNode: JsonNode -> Option<DeepRenameFieldInstruction>,
    getNodeAt: (JsonNode, seq<string>) -> Option<JsonNode>,
    parentNode: JsonNode): (r: Option<ResultInstruction>)
    ensures r.None? <==> getInstructionForNode(parentNode).None?
    ensures r.Some? ==>
      var source := getNodeAt(parentNode, state.aliasHelper.getQueryPath(getInstructionForNode(parentNode).value.queryPathToField));
      && (source.None? ==> r.value == Set(DestinationPath(parentNode, overallField), JNull))
      && (source.Some? ==> r.value == Copy(source.value.resultPath, DestinationPath(parentNode, overallField)))
  {
    match getInstructionForNode(parentNode)
    case None => None
    case Some(instruction) =>
      var queryPathForSourceField := state.aliasHelper.getQueryPath(instruction.queryPathToField);
      var destinationPath := DestinationPath(parentNode, overallField);
      match getNodeAt(parentNode, queryPathForSourceField)
      case None => Some(Set(destinationPath, JNull))
      case Some(sourceFieldNode) => Some(Copy(sourceFieldNode.resultPath, destinationPath))
  }

  /**
   * The result instructions: parents with no deep-rename instruction give none, the others give
   * exactly one each, in parent order.
   */
  function GetResultInstructions(
    state: State, overallField: Field, parentNodes: seq<JsonNode>,
    getInstructionForNode: JsonNode -> Option<DeepRenameFieldInstruction>,
    getNodeAt: (JsonNode, seq<string>) -> Option<JsonNode>): (r: seq<ResultInstruction>)
    ensures |r| == |Kept(parentNodes, getInstructionForNode)|
    ensures forall i :: 0 <= i < |r| ==>
      InstructionForParent(state, overallField, getInstructionForNode, getNodeAt, Kept(parentNodes, getInstructionForNode)[i]) == Some(r[i])
  {
    var forParent := (p: JsonNode) => InstructionForParent(state, overallField, getInstructionForNode, getNodeAt, p);
    KeptSame(parentNodes, forParent, getInstructionForNode);
    MapNotNull(parentNodes, forParent)
  }

  /** Two selectors that agree on which elements they keep keep the same elements. */
  lemma {:induction false} KeptSame<A, B, C>(xs: seq<A>, f: A -> Option<B>, g: A -> Option<C>)
    requires forall x :: f(x).None? <==> g(x).None?
    ensures Kept(xs, f) == Kept(xs, g)
  {
    if xs != [] {
      KeptSame(xs[1..], f, g);
    }
  }

  /**
   * Every instruction writes the overall field's place under the parent it came from, and
   * none removes anything.
   */
  lemma DestinationsAreOwnPlaces(
    state: State, overallField: Field, parentNodes: seq<JsonNode>,
    getInstructionForNode: JsonNode -> Option<DeepRenameFieldInstruction>,
    getNodeAt: (JsonNode, seq<string>) -> Option<JsonNode>, i: nat)
    requires i < |GetResultInstructions(state, overallField, parentNodes, getInstructionForNode, getNodeAt)|
    ensures var r := GetResultInstructions(state, overallField, parentNodes, getInstructionForNode, getNodeAt)[i];
      var parent := Kept(parentNodes, getInstructionForNode)[i];
      && !r.Remove?
      && (r.Set? ==> r.subjectPath == DestinationPath(parent, overallField) && r.newValue == JNull)
      && (r.Copy? ==> r.destinationPath == DestinationPath(parent, overallField))
  {
  }
}
