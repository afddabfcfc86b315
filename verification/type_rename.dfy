/**
 * The `__typename` rewrite: the underlying service answers `__typename` with its own type
 * names, and every such answer is replaced by the overall type name.
 */
module TypeRenameResultTransform {
  import opened Wrappers
  import opened Fields
  import opened Json
  import opened Transform

  /** Where the `__typename` answers of the field sit: the field's result keys from the root. */
  datatype State = State(typeRenamePath: seq<string>)

  /** Applies to every `__typename` selection and to nothing else. */
  function IsApplicable(field: Field, parentKeys: seq<string>): (r: Option<State>)
    ensures r.Some? <==> field.fieldName == TypeNameFieldName
    ensures r.Some? ==> r.value.typeRenamePath == ListOfResultKeys(parentKeys, field)
  {
    if field.fieldName == TypeNameFieldName then Some(State(ListOfResultKeys(parentKeys, field))) else None
  }

  /** The query is left as it is. */
  function TransformField(field: Field, state: State): (r: TransformFieldResult)
    ensures r.newField == Some(field) && r.artificialFields == []
  {
    Unmodified(field)
  }

  /**
   * One `Set` per `__typename` answer found along the state's path (lists flattened by
   * `getNodesAt`), in the order found, replacing the answer with the overall type name. An
   * answer that is not a string fails the cast.
   */
  function GetResultInstructions(
    data: JsonValue, state: State,
    getNodesAt: (JsonValue, seq<string>) -> seq<JsonNode>,
    getOverallTypeName: string -> string): (r: Result<seq<ResultInstruction>>)
    ensures var nodes := getNodesAt(data, state.typeRenamePath);
      r.Failure? <==> exists i :: 0 <= i < |nodes| && !nodes[i].value.JString?
    ensures var nodes := getNodesAt(data, state.typeRenamePath);
      r.Success? ==>
        && |r.value| == |nodes|
        && forall i :: 0 <= i < |nodes| ==>
             r.value[i] == Set(nodes[i].resultPath, JString(getOverallTypeName(nodes[i].value.s)))
  {
    SetOverallTypeNames(getNodesAt(data, state.typeRenamePath), getOverallTypeName)
  }

  /** The `Set` instruction for each node in turn; the first non-string value fails the whole list. */
  function SetOverallTypeNames(nodes: seq<JsonNode>, getOverallTypeName: string -> string): (r: Result<seq<ResultInstruction>>)
    ensures r.Failure? <==> exists i :: 0 <= i < |nodes| && !nodes[i].value.JString?
    ensures r.Success? ==>
      && |r.value| == |nodes|
      && forall i :: 0 <= i < |nodes| ==>
           r.value[i] == Set(nodes[i].resultPath, JString(getOverallTypeName(nodes[i].value.s)))
  {
    if nodes == [] then Success([])
    else if !nodes[0].value.JString? then Failure("class cast: __typename is not a String")
    else
      var rest :- SetOverallTypeNames(nodes[1..], getOverallTypeName);
      assert forall i :: 1 <= i < |nodes| ==> nodes[i] == nodes[1..][i - 1];
      Success([Set(nodes[0].resultPath, JString(getOverallTypeName(nodes[0].value.s)))] + rest)
  }

  /**
   * When no type found is renamed, every instruction writes back the value already at its
   * path, so the result is unchanged.
   */
  lemma UnrenamedTypesAreKept(
    data: JsonValue, state: State,
    getNodesAt: (JsonValue, seq<string>) -> seq<JsonNode>,
    getOverallTypeName: string -> string)
    requires var nodes := getNodesAt(data, state.typeRenamePath);
      forall i :: 0 <= i < |nodes| ==> nodes[i].value.JString? && getOverallTypeName(nodes[i].value.s) == nodes[i].value.s
    ensures var r := GetResultInstructions(data, state, getNodesAt, getOverallTypeName);
      var nodes := getNodesAt(data, state.typeRenamePath);
      && r.Success?
      && forall i :: 0 <= i < |r.value| ==> r.value[i] == Set(nodes[i].resultPath, nodes[i].value)
  {
  }
}
