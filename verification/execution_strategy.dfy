/**
 * The older engine's execution strategy: it routes the top-level fields to their services,
 * merges the services' result trees, passes each service only the variables its query uses,
 * and resolves hydrations by building an actor query from the hydration's first argument.
 */
module ExecutionStrategy {
  import opened Wrappers
  import opened Fields
  import opened Grouping
  import FieldInfos

  type Service = FieldInfos.Service

  /** A field of a query document: its name, arguments and selection set. */
  datatype AstField = AstField(name: string, arguments: seq<Argument>, selectionSet: seq<AstField>)

  datatype Argument = Argument(name: string, value: AstValue)

  datatype RemoteArgumentDefinition = RemoteArgumentDefinition(name: string)

  /** A hydration declared in the overall schema: the actor service, its top-level field and the arguments. */
  datatype InnerServiceHydration = InnerServiceHydration(
    serviceName: string,
    topLevelField: string,
    arguments: seq<RemoteArgumentDefinition>)

  /**
   * A hydration found while transforming a query: the query field that replaced the original
   * one (compared by identity, so it is identified by a number here), the original field and
   * the hydration.
   */
  datatype HydrationTransformation = HydrationTransformation(
    newFieldId: nat,
    originalField: AstField,
    innerServiceHydration: InnerServiceHydration)

  /** A result tree's root: its children are the results of the top-level fields. */
  datatype RootExecutionResultNode<N> = RootExecutionResultNode(children: seq<N>)

  /** The children of the roots, root after root (reference definition). */
  function AllChildren<N>(roots: seq<RootExecutionResultNode<N>>): seq<N> {
    if roots == [] then [] else AllChildren(roots[..|roots| - 1]) + roots[|roots| - 1].children
  }

  /** The merged children hold each root's children as one block, the blocks in root order. */
  lemma {:induction false} AllChildrenBlocks<N>(roots: seq<RootExecutionResultNode<N>>, j: nat, k: nat)
    requires j < |roots| && k < |roots[j].children|
    ensures |AllChildren(roots[..j])| + k < |AllChildren(roots)|
    ensures AllChildren(roots)[|AllChildren(roots[..j])| + k] == roots[j].children[k]
    decreases |roots|
  {
    var init := roots[..|roots| - 1];
    if j == |roots| - 1 {
      assert roots[..j] == init;
    } else {
      assert init[..j] == roots[..j];
      AllChildrenBlocks(init, j, k);
    }
  }

  /** `t` is the first transformation of the list whose new field is `fieldId`. */
  ghost predicate IsFirstTransformationFor(transformations: seq<HydrationTransformation>, fieldId: nat, t: HydrationTransformation) {
    exists i :: 0 <= i < |transformations| && transformations[i] == t && forall j :: 0 <= j < i ==> transformations[j].newFieldId != fieldId
  }

  /** `s` is the first service of the list named `serviceName`. */
  ghost predicate IsFirstServiceNamed(services: seq<Service>, serviceName: string, s: Service) {
    exists i :: 0 <= i < |services| && services[i] == s && forall j :: 0 <= j < i ==> services[j].name != serviceName
  }

  /** The first transformation in the list whose new field is `fieldId`; none is an error. */
  function GetTransformationForField(transformations: seq<HydrationTransformation>, fieldId: nat): (r: Result<HydrationTransformation>)
    ensures r.Failure? <==> forall i :: 0 <= i < |transformations| ==> transformations[i].newFieldId != fieldId
    ensures r.Success? ==> r.value.newFieldId == fieldId && IsFirstTransformationFor(transformations, fieldId, r.value)
  {
    if transformations == [] then Failure("No value present")
    else if transformations[0].newFieldId == fieldId then Success(transformations[0])
    else
      var r := GetTransformationForField(transformations[1..], fieldId);
      assert forall i :: 1 <= i < |transformations| ==> transformations[i] == transformations[1..][i - 1];
      if r.Success? then
        var i :| 0 <= i < |transformations| - 1 && transformations[1..][i] == r.value && r.value.newFieldId == fieldId &&
          forall j :: 0 <= j < i ==> transformations[1..][j].newFieldId != fieldId;
        assert transformations[i + 1] == r.value;
        assert IsFirstTransformationFor(transformations, fieldId, r.value);
        r
      else r
  }

  /** The first service of the list with the given name; none is an error. */
  function FindService(services: seq<Service>, serviceName: string): (r: Result<Service>)
    ensures r.Failure? <==> forall i :: 0 <= i < |services| ==> services[i].name != serviceName
    ensures r.Success? ==> r.value.name == serviceName && IsFirstServiceNamed(services, serviceName, r.value)
  {
    if services == [] then Failure("No value present")
    else if services[0].name == serviceName then Success(services[0])
    else
      var r := FindService(services[1..], serviceName);
      assert forall i :: 1 <= i < |services| ==> services[i] == services[1..][i - 1];
      if r.Success? then
        var i :| 0 <= i < |services| - 1 && services[1..][i] == r.value && r.value.name == serviceName &&
          forall j :: 0 <= j < i ==> services[1..][j].name != serviceName;
        assert services[i + 1] == r.value;
        assert IsFirstServiceNamed(services, serviceName, r.value);
        r
      else r
  }

  /**
   * The actor query of a hydration: its top-level field, with the original field's selection
   * set and one argument, named after the hydration's first argument and holding the
   * completed value printed as a string. A hydration without arguments is an error, checked
   * first; a null completed value is an error too, since it cannot be printed.
   */
  function HydrationTopLevelField<V>(hydration: HydrationTransformation, completedValue: Option<V>, toString: V -> string): (r: Result<AstField>)
    ensures r.Failure? <==> hydration.innerServiceHydration.arguments == [] || completedValue.None?
    ensures hydration.innerServiceHydration.arguments == [] ==> r == Failure(NoArgumentMessage)
    ensures r.Success? ==>
      && r.value.name == hydration.innerServiceHydration.topLevelField
      && r.value.selectionSet == hydration.originalField.selectionSet
      && r.value.arguments == [Argument(hydration.innerServiceHydration.arguments[0].name, StringValue(toString(completedValue.value)))]
  {
    var arguments := hydration.innerServiceHydration.arguments;
    if arguments == [] then Failure(NoArgumentMessage)
    else if completedValue.None? then Failure(NullValueMessage)
    else
      var argument := Argument(arguments[0].name, StringValue(toString(completedValue.value)));
      Success(AstField(hydration.innerServiceHydration.topLevelField, [argument], hydration.originalField.selectionSet))
  }

  const NoArgumentMessage := "Index 0 out of bounds for length 0"
  const NullValueMessage := "Cannot invoke \"Object.toString()\" because \"value\" is null"

  /** Only the first declared argument reaches the actor query: the others make no difference. */
  lemma OnlyFirstArgumentUsed<V>(hydration: HydrationTransformation, rest: seq<RemoteArgumentDefinition>, completedValue: Option<V>, toString: V -> string)
    requires hydration.innerServiceHydration.arguments != []
    ensures var first := hydration.innerServiceHydration.arguments[0];
      var other := hydration.(innerServiceHydration := hydration.innerServiceHydration.(arguments := [first] + rest));
      HydrationTopLevelField(other, completedValue, toString) == HydrationTopLevelField(hydration, completedValue, toString)
  {
  }

  /**
   * The strategy: the services (never empty) and, for a top-level field, the service whose
   * field info covers its definition.
   */
  class NadelExecutionStrategy {
    const services: seq<Service>
    const serviceForField: AstField -> Service

    constructor(services: seq<Service>, serviceForField: AstField -> Service)
      requires services != []
      ensures this.services == services && this.serviceForField == serviceForField
    {
      this.services := services;
      this.serviceForField := serviceForField;
    }

    /** The service a hydration names: the first of the strategy's services with that name; none is an error. */
    function GetService(innerServiceHydration: InnerServiceHydration): (r: Result<Service>)
      ensures r.Failure? <==> forall i :: 0 <= i < |services| ==> services[i].name != innerServiceHydration.serviceName
      ensures r.Success? ==> r.value.name == innerServiceHydration.serviceName && IsFirstServiceNamed(services, innerServiceHydration.serviceName, r.value)
    {
      FindService(services, innerServiceHydration.serviceName)
    }

    /**
     * The top-level fields by service, in a map that keeps insertion order: each field is
     * appended to its service's list, a service's list is opened on its first field.
     */
    method GetDelegatedExecutionForTopLevel(fields: seq<AstField>) returns (result: Groups<Service, AstField>)
      ensures Keys(result) == DistinctKeys(fields, serviceForField)
      ensures NoDuplicates(Keys(result))
      ensures forall s :: GroupOf(result, s) == Filter(fields, serviceForField, s)
      ensures forall i :: 0 <= i < |result| ==> result[i].1 != []
    {
      result := [];
      for i := 0 to |fields|
        invariant result == GroupBy(fields[..i], serviceForField)
      {
        assert fields[..i + 1][..i] == fields[..i];
        result := AddToGroup(result, serviceForField(fields[i]), fields[i]);
      }
      assert fields[..|fields|] == fields;
      GroupByCorrect(fields, serviceForField);
    }
  }

  /** The root of the merged tree: all the roots' children, root after root. */
  method MergeTrees<N>(rootNodes: seq<RootExecutionResultNode<N>>) returns (root: RootExecutionResultNode<N>)
    ensures root.children == AllChildren(rootNodes)
  {
    var mergedChildren: seq<N> := [];
    for i := 0 to |rootNodes|
      invariant mergedChildren == AllChildren(rootNodes[..i])
    {
      assert rootNodes[..i + 1][..i] == rootNodes[..i];
      mergedChildren := mergedChildren + rootNodes[i].children;
    }
    assert rootNodes[..|rootNodes|] == rootNodes;
    root := RootExecutionResultNode(mergedChildren);
  }

  /**
   * The variables passed to a service: exactly the variables its query references, each with
   * its value in the request's variables, or null when the request has none.
   */
  method FilterVariables<V>(contextVariables: map<string, V>, referencedVariables: seq<string>) returns (variables: map<string, Option<V>>)
    ensures variables.Keys == set v | v in referencedVariables
    ensures forall v :: v in variables ==> variables[v] == if v in contextVariables then Some(contextVariables[v]) else None
  {
    variables := map[];
    for i := 0 to |referencedVariables|
      invariant variables.Keys == set v | v in referencedVariables[..i]
      invariant forall v :: v in variables ==> variables[v] == if v in contextVariables then Some(contextVariables[v]) else None
    {
      var referencedVariable := referencedVariables[i];
      var value := if referencedVariable in contextVariables then Some(contextVariables[referencedVariable]) else None;
      variables := variables[referencedVariable := value];
      assert referencedVariables[..i + 1] == referencedVariables[..i] + [referencedVariable];
    }
    assert referencedVariables[..|referencedVariables|] == referencedVariables;
  }
}
