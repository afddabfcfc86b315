/**
 * The earlier deep rename transform, kept beside the newer one: one instruction per field,
 * a fixed alias, and a result rewrite that copies the deep value up and removes what the
 * overall query did not ask for.
 */
module DeepRenameTransformOld {
  import opened Wrappers
  import opened Fields
  import opened Json
  import opened Transform
  import PathToField
  import DeepRenameTransform

  /** The field's deep-rename instruction and the alias put on the deep field. */
  datatype State = State(instruction: Instruction, alias: string)

  const DeepRenameAlias := "my_uuid"

  /** Applies exactly when the blueprint's instruction for the field is a deep rename. */
  function IsApplicable(fieldInstruction: Option<Instruction>): (r: Option<State>)
    ensures r.Some? <==> fieldInstruction.Some? && fieldInstruction.value.DeepRenameInstruction?
    ensures r.Some? ==> r.value.instruction == fieldInstruction.value && r.value.alias == DeepRenameAlias
  {
    match fieldInstruction
    case Some(instruction) =>
      if instruction.DeepRenameInstruction? then Some(State(instruction, DeepRenameAlias)) else None
    case None => None
  }

  /** The underlying name of an overall type: its type instruction's, or the overall name itself when it has none. */
  function UnderlyingTypeName(typeInstructions: map<string, TypeRenameInstruction>, overallTypeName: string): (r: string)
    ensures overallTypeName in typeInstructions ==> r == typeInstructions[overallTypeName].underlyingName
    ensures overallTypeName !in typeInstructions ==> r == overallTypeName
  {
    if overallTypeName in typeInstructions then typeInstructions[overallTypeName].underlyingName else overallTypeName
  }

  /**
   * The deep selection built under the underlying object type of the field's first object
   * type. It fails when the field has no object type, when that underlying object type is
   * missing, or when the path cannot be built.
   */
  function CreateDeepField(
    typeInstructions: map<string, TypeRenameInstruction>, underlyingSchema: PathToField.Schema,
    field: Field, transformedChildren: seq<Field>, deepRename: Instruction): (r: Result<Field>)
    requires deepRename.DeepRenameInstruction?
    ensures field.objectTypeNames == [] ==> r.Failure?
    ensures field.objectTypeNames != [] ==>
      PathToField.GetObjectType(underlyingSchema, UnderlyingTypeName(typeInstructions, field.objectTypeNames[0])).None? ==>
      r.Failure?
    ensures r.Success? ==>
      && PathToField.ChainFrom(r.value, deepRename.pathToSourceField, 0, [], transformedChildren)
      && r.value.objectTypeNames ==
           [PathToField.GetObjectType(underlyingSchema, UnderlyingTypeName(typeInstructions, field.objectTypeNames[0])).value.name]
  {
    if field.objectTypeNames == [] then Failure("List is empty.")
    else
      var underlyingTypeName := UnderlyingTypeName(typeInstructions, field.objectTypeNames[0]);
      match PathToField.GetObjectType(underlyingSchema, underlyingTypeName)
      case None => Failure("No underlying object type")
      case Some(underlyingObjectType) =>
        PathToField.CreateObjectField(underlyingSchema, underlyingObjectType, deepRename.pathToSourceField, [], transformedChildren)
  }

  /** The field is replaced by exactly one deep field, aliased with the state's alias. */
  function TransformField(
    typeInstructions: map<string, TypeRenameInstruction>, underlyingSchema: PathToField.Schema,
    field: Field, transformedChildren: seq<Field>, state: State): (r: Result<seq<Field>>)
    requires state.instruction.DeepRenameInstruction?
    ensures r.Failure? <==> CreateDeepField(typeInstructions, underlyingSchema, field, transformedChildren, state.instruction).Failure?
    ensures r.Success? ==>
      && |r.value| == 1
      && r.value[0].alias == Some(state.alias)
      && r.value[0] == CreateDeepField(typeInstructions, underlyingSchema, field, transformedChildren, state.instruction).value.(alias := Some(state.alias))
  {
    var deepField :- CreateDeepField(typeInstructions, underlyingSchema, field, transformedChildren, state.instruction);
    Success([deepField.(alias := Some(state.alias))])
  }

  /**
   * The instructions for one parent node: none for a null parent or when nothing sits at the
   * deep path; otherwise a copy of the deep value to the field's place followed by the removal
   * of the unused deep selection. A parent that is neither null nor an object fails the cast.
   */
  function InstructionsForParent(
    field: Field, pathToSourceField: seq<string>,
    getNodeAt: (JsonNode, seq<string>) -> Option<JsonNode>,
    removeUnusedField: (JsonNode, Field, seq<string>) -> seq<ResultInstruction>,
    parentNode: JsonNode): (r: Result<seq<ResultInstruction>>)
    ensures r.Failure? <==> !(parentNode.value.JNull? || parentNode.value.JObject?)
    ensures r.Success? && (parentNode.value.JNull? || getNodeAt(parentNode, pathToSourceField).None?) ==> r.value == []
    ensures r.Success? && parentNode.value.JObject? && getNodeAt(parentNode, pathToSourceField).Some? ==>
      && |r.value| >= 1
      && r.value[0] == Copy(getNodeAt(parentNode, pathToSourceField).value.resultPath, Child(parentNode.resultPath, field.ResultKey()))
      && r.value[1..] == removeUnusedField(parentNode, field, pathToSourceField)
  {
    if parentNode.value.JNull? then Success([])
    else if !parentNode.value.JObject? then Failure("class cast: parent is not a JSON object")
    else
      match getNodeAt(parentNode, pathToSourceField)
      case None => Success([])
      case Some(toCopy) =>
        Success([Copy(toCopy.resultPath, Child(parentNode.resultPath, field.ResultKey()))] +
          removeUnusedField(parentNode, field, pathToSourceField))
  }

  /** The per-parent instructions, concatenated in parent order; the first failure fails them all. */
  function InstructionsForParents(
    field: Field, pathToSourceField: seq<string>,
    getNodeAt: (JsonNode, seq<string>) -> Option<JsonNode>,
    removeUnusedField: (JsonNode, Field, seq<string>) -> seq<ResultInstruction>,
    parentNodes: seq<JsonNode>): (r: Result<seq<ResultInstruction>>)
    ensures r.Failure? <==> exists i :: 0 <= i < |parentNodes| && !(parentNodes[i].value.JNull? || parentNodes[i].value.JObject?)
    ensures r.Success? ==> r.value == FlatMap(parentNodes, (p: JsonNode) =>
      ValueOrEmpty(InstructionsForParent(field, pathToSourceField, getNodeAt, removeUnusedField, p)))
  {
    if parentNodes == [] then Success([])
    else
      var first :- InstructionsForParent(field, pathToSourceField, getNodeAt, removeUnusedField, parentNodes[0]);
      var rest :- InstructionsForParents(field, pathToSourceField, getNodeAt, removeUnusedField, parentNodes[1..]);
      assert forall i :: 1 <= i < |parentNodes| ==> parentNodes[i] == parentNodes[1..][i - 1];
      Success(first + rest)
  }

  /**
   * The result instructions, over the nodes at the field's parent path (its result keys without
   * the last). The blueprint's instruction for the field must be a deep rename: anything else,
   * or none, fails the cast.
   */
  function GetResultInstructions(
    field: Field, parentKeys: seq<string>, data: JsonValue, fieldInstruction: Option<Instruction>,
    getNodesAt: (JsonValue, seq<string>) -> seq<JsonNode>,
    getNodeAt: (JsonNode, seq<string>) -> Option<JsonNode>,
    removeUnusedField: (JsonNode, Field, seq<string>) -> seq<ResultInstruction>): (r: Result<seq<ResultInstruction>>)
    ensures !(fieldInstruction.Some? && fieldInstruction.value.DeepRenameInstruction?) ==> r.Failure?
    ensures fieldInstruction.Some? && fieldInstruction.value.DeepRenameInstruction? ==>
      r == InstructionsForParents(field, fieldInstruction.value.pathToSourceField, getNodeAt, removeUnusedField,
        getNodesAt(data, ListOfResultKeys(parentKeys, field)[..|parentKeys|]))
  {
    var parentNodes := getNodesAt(data, ListOfResultKeys(parentKeys, field)[..|ListOfResultKeys(parentKeys, field)| - 1]);
    match fieldInstruction
    case Some(DeepRenameInstruction(_, pathToSourceField)) =>
      InstructionsForParents(field, pathToSourceField, getNodeAt, removeUnusedField, parentNodes)
    case _ => Failure("class cast: instruction is not a deep rename")
  }

  /**
   * Where the two generations differ: for an object parent whose type has a deep rename but
   * whose deep path holds nothing, the newer transform sets the field to null while this one
   * emits nothing.
   */
  lemma MissingSourceDiffers(
    newState: DeepRenameTransform.State, field: Field, pathToSourceField: seq<string>,
    getInstructionForNode: JsonNode -> Option<DeepRenameTransform.DeepRenameFieldInstruction>,
    getNodeAt: (JsonNode, seq<string>) -> Option<JsonNode>,
    removeUnusedField: (JsonNode, Field, seq<string>) -> seq<ResultInstruction>,
    parentNode: JsonNode)
    requires parentNode.value.JObject?
    requires getInstructionForNode(parentNode).Some?
    requires getNodeAt(parentNode, pathToSourceField).None?
    requires getNodeAt(parentNode, newState.aliasHelper.getQueryPath(getInstructionForNode(parentNode).value.queryPathToField)).None?
    ensures InstructionsForParent(field, pathToSourceField, getNodeAt, removeUnusedField, parentNode) == Success([])
    ensures DeepRenameTransform.InstructionForParent(newState, field, getInstructionForNode, getNodeAt, parentNode) ==
      Some(Set(Child(parentNode.resultPath, field.ResultKey()), JNull))
  {
  }
}
