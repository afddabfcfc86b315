/**
 * Routing the top-level fields of an operation to the services that own them. A namespaced
 * top-level field is split by the owners of its children: one copy of the field per owning
 * service, holding that service's children.
 */
module SplitFields {
  import opened Wrappers
  import opened Fields
  import opened Grouping
  import opened FieldInfos
  import Transform

  /** A top-level field (or a copy of it with some of its children) and the service that runs it. */
  datatype FieldExecution = FieldExecution(field: Field, service: Service)

  /**
   * What routing consults: whether a field's definition carries the `namespaced` directive,
   * a field's (object type, field) coordinates, and the owning service of a coordinate for an
   * operation kind, if any.
   */
  datatype Routing = Routing(
    isNamespaced: Field -> bool,
    coordinatesOf: Field -> FieldCoordinates,
    ownerOf: (OperationKind, FieldCoordinates) -> Option<Service>)

  function OwnerOf(routing: Routing, operationKind: OperationKind, field: Field): Option<Service> {
    routing.ownerOf(operationKind, routing.coordinatesOf(field))
  }

  function Second(pair: (Field, Service)): Service {
    pair.1
  }

  /** Each child paired with its owner, in order; a child without an owner is an error. */
  function OwnedChildren(routing: Routing, operationKind: OperationKind, children: seq<Field>): (r: Result<seq<(Field, Service)>>)
    ensures r.Failure? <==> exists i :: 0 <= i < |children| && OwnerOf(routing, operationKind, children[i]).None?
    ensures r.Success? ==> |r.value| == |children| && forall i :: 0 <= i < |children| ==>
      r.value[i] == (children[i], OwnerOf(routing, operationKind, children[i]).value)
  {
    if children == [] then Success([])
    else
      var owner := OwnerOf(routing, operationKind, children[0]);
      if owner.None? then Failure("no service owns the field")
      else
        var rest :- OwnedChildren(routing, operationKind, children[1..]);
        assert forall i :: 1 <= i < |children| ==> children[i] == children[1..][i - 1];
        Success([(children[0], owner.value)] + rest)
  }

  /** The children a service owns, in their original order (reference definition). */
  function ChildrenOwnedBy(routing: Routing, operationKind: OperationKind, children: seq<Field>, service: Service): seq<Field> {
    if children == [] then []
    else
      (if OwnerOf(routing, operationKind, children[0]) == Some(service) then [children[0]] else [])
      + ChildrenOwnedBy(routing, operationKind, children[1..], service)
  }

  /** The children grouped under a service are exactly the children it owns, in order. */
  lemma {:induction false} OwnedChildrenGroups(routing: Routing, operationKind: OperationKind, children: seq<Field>, service: Service)
    requires OwnedChildren(routing, operationKind, children).Success?
    ensures Firsts(Filter(OwnedChildren(routing, operationKind, children).value, Second, service)) ==
      ChildrenOwnedBy(routing, operationKind, children, service)
  {
    if children != [] {
      var child, tail := children[0], children[1..];
      var owner := OwnerOf(routing, operationKind, child);
      assert owner.Some? && OwnedChildren(routing, operationKind, tail).Success?;
      var single: seq<(Field, Service)> := [(child, owner.value)];
      var rest := OwnedChildren(routing, operationKind, tail).value;
      OwnedChildrenGroups(routing, operationKind, tail, service);
      assert OwnedChildren(routing, operationKind, children).value == single + rest;
      FilterAppend(single, rest, Second, service);
      var f := Filter(single, Second, service);
      var g := Filter(rest, Second, service);
      assert single[1..] == [];
      assert Firsts(f) == if owner == Some(service) then [child] else [];
      assert Firsts(f + g) == Firsts(f) + Firsts(g);
      assert ChildrenOwnedBy(routing, operationKind, children, service) ==
        (if owner == Some(service) then [child] else []) + ChildrenOwnedBy(routing, operationKind, tail, service);
    }
  }

  /** One execution per group, the top-level field copied with that group's children. */
  function ExecutionsOf(topLevelField: Field, groups: Groups<Service, (Field, Service)>): (r: seq<FieldExecution>)
    ensures |r| == |groups|
    ensures forall i :: 0 <= i < |groups| ==>
      r[i] == FieldExecution(topLevelField.(children := Firsts(groups[i].1)), groups[i].0)
  {
    seq(|groups|, i requires 0 <= i < |groups| => FieldExecution(topLevelField.(children := Firsts(groups[i].1)), groups[i].0))
  }

  /**
   * The executions of one top-level field. A field that is not namespaced runs whole on its
   * owner. A namespaced field runs once per distinct owner of its children, each copy holding
   * the children of that owner. A missing owner is an error.
   */
  function ExecutionsFor(routing: Routing, operationKind: OperationKind, topLevelField: Field): (r: Result<seq<FieldExecution>>)
    ensures !routing.isNamespaced(topLevelField) ==>
      && (r.Failure? <==> OwnerOf(routing, operationKind, topLevelField).None?)
      && (r.Success? ==> r.value == [FieldExecution(topLevelField, OwnerOf(routing, operationKind, topLevelField).value)])
    ensures routing.isNamespaced(topLevelField) ==>
      && (r.Failure? <==> exists i :: 0 <= i < |topLevelField.children| && OwnerOf(routing, operationKind, topLevelField.children[i]).None?)
      && (r.Success? ==> NamespacedSplit(routing, operationKind, topLevelField, r.value))
  {
    if routing.isNamespaced(topLevelField) then
      var pairs :- OwnedChildren(routing, operationKind, topLevelField.children);
      var groups := GroupBy(pairs, Second);
      var executions := ExecutionsOf(topLevelField, groups);
      NamespacedSplitHolds(routing, operationKind, topLevelField, pairs, groups, executions);
      Success(executions)
    else
      var owner := OwnerOf(routing, operationKind, topLevelField);
      if owner.None? then Failure("no service owns the field")
      else Success([FieldExecution(topLevelField, owner.value)])
  }

  /**
   * The split of a namespaced field: the services are distinct, each execution is the field
   * with exactly the children its service owns, in order, none is empty, and a service has an
   * execution exactly when it owns some child.
   */
  ghost predicate NamespacedSplit(routing: Routing, operationKind: OperationKind, topLevelField: Field, executions: seq<FieldExecution>) {
    && (forall i, j :: 0 <= i < j < |executions| ==> executions[i].service != executions[j].service)
    && (forall i :: 0 <= i < |executions| ==>
          && executions[i].field == topLevelField.(children := ChildrenOwnedBy(routing, operationKind, topLevelField.children, executions[i].service))
          && executions[i].field.children != [])
    && (forall s :: (exists i :: 0 <= i < |executions| && executions[i].service == s) <==>
          exists c :: c in topLevelField.children && OwnerOf(routing, operationKind, c) == Some(s))
  }

  lemma NamespacedSplitHolds(
    routing: Routing, operationKind: OperationKind, topLevelField: Field,
    pairs: seq<(Field, Service)>, groups: Groups<Service, (Field, Service)>, executions: seq<FieldExecution>)
    requires OwnedChildren(routing, operationKind, topLevelField.children) == Success(pairs)
    requires groups == GroupBy(pairs, Second) && executions == ExecutionsOf(topLevelField, groups)
    ensures NamespacedSplit(routing, operationKind, topLevelField, executions)
  {
    SplitServicesDistinct(pairs, groups, topLevelField, executions);
    forall i | 0 <= i < |executions|
      ensures executions[i].field == topLevelField.(children := ChildrenOwnedBy(routing, operationKind, topLevelField.children, executions[i].service))
      ensures executions[i].field.children != []
    {
      SplitExecutionChildren(routing, operationKind, topLevelField, pairs, groups, executions, i);
    }
    forall s ensures (exists i :: 0 <= i < |executions| && executions[i].service == s) <==>
      exists c :: c in topLevelField.children && OwnerOf(routing, operationKind, c) == Some(s)
    {
      SplitServiceMembership(routing, operationKind, topLevelField, pairs, groups, executions, s);
    }
  }

  lemma SplitServicesDistinct(pairs: seq<(Field, Service)>, groups: Groups<Service, (Field, Service)>, topLevelField: Field, executions: seq<FieldExecution>)
    requires groups == GroupBy(pairs, Second) && executions == ExecutionsOf(topLevelField, groups)
    ensures forall i, j :: 0 <= i < j < |executions| ==> executions[i].service != executions[j].service
  {
    GroupByCorrect(pairs, Second);
    assert forall i :: 0 <= i < |executions| ==> executions[i].service == Keys(groups)[i];
  }

  lemma SplitExecutionChildren(
    routing: Routing, operationKind: OperationKind, topLevelField: Field,
    pairs: seq<(Field, Service)>, groups: Groups<Service, (Field, Service)>, executions: seq<FieldExecution>, i: nat)
    requires OwnedChildren(routing, operationKind, topLevelField.children) == Success(pairs)
    requires groups == GroupBy(pairs, Second) && executions == ExecutionsOf(topLevelField, groups)
    requires i < |executions|
    ensures executions[i].field == topLevelField.(children := ChildrenOwnedBy(routing, operationKind, topLevelField.children, executions[i].service))
    ensures executions[i].field.children != []
  {
    GroupByCorrect(pairs, Second);
    GroupAtIndex(groups, i);
    OwnedChildrenGroups(routing, operationKind, topLevelField.children, groups[i].0);
  }

  lemma SplitServiceMembership(
    routing: Routing, operationKind: OperationKind, topLevelField: Field,
    pairs: seq<(Field, Service)>, groups: Groups<Service, (Field, Service)>, executions: seq<FieldExecution>, s: Service)
    requires OwnedChildren(routing, operationKind, topLevelField.children) == Success(pairs)
    requires groups == GroupBy(pairs, Second) && executions == ExecutionsOf(topLevelField, groups)
    ensures (exists i :: 0 <= i < |executions| && executions[i].service == s) <==>
      exists c :: c in topLevelField.children && OwnerOf(routing, operationKind, c) == Some(s)
  {
    var children := topLevelField.children;
    GroupByLookup(pairs, Second, s);
    OwnedChildrenGroups(routing, operationKind, children, s);
    if exists i :: 0 <= i < |executions| && executions[i].service == s {
      var i :| 0 <= i < |executions| && executions[i].service == s;
      assert Keys(groups)[i] == s;
      OwnedByOccurs(routing, operationKind, children, s);
    }
    if exists c :: c in children && OwnerOf(routing, operationKind, c) == Some(s) {
      var c :| c in children && OwnerOf(routing, operationKind, c) == Some(s);
      OccursOwnedBy(routing, operationKind, children, s, c);
      var i :| 0 <= i < |groups| && Keys(groups)[i] == s;
      assert executions[i].service == s;
    }
  }

  lemma {:induction false} OwnedByOccurs(routing: Routing, operationKind: OperationKind, children: seq<Field>, s: Service)
    requires ChildrenOwnedBy(routing, operationKind, children, s) != []
    ensures exists c :: c in children && OwnerOf(routing, operationKind, c) == Some(s)
  {
    if OwnerOf(routing, operationKind, children[0]) != Some(s) {
      OwnedByOccurs(routing, operationKind, children[1..], s);
      var c :| c in children[1..] && OwnerOf(routing, operationKind, c) == Some(s);
      assert c in children;
    }
  }

  lemma {:induction false} OccursOwnedBy(routing: Routing, operationKind: OperationKind, children: seq<Field>, s: Service, c: Field)
    requires c in children && OwnerOf(routing, operationKind, c) == Some(s)
    ensures ChildrenOwnedBy(routing, operationKind, children, s) != []
  {
    if OwnerOf(routing, operationKind, children[0]) != Some(s) {
      assert c in children[1..];
      OccursOwnedBy(routing, operationKind, children[1..], s, c);
    }
  }

  /** Some child before position `n` is owned by `service`. */
  ghost predicate OwnedBefore(routing: Routing, operationKind: OperationKind, children: seq<Field>, n: nat, service: Service) {
    exists m :: 0 <= m < n && m < |children| && OwnerOf(routing, operationKind, children[m]) == Some(service)
  }

  /**
   * A namespaced field's executions follow the first child each service owns: every child
   * owned by a later execution's service comes after some child of each earlier one's.
   */
  lemma SplitServicesFirstOccurrence(routing: Routing, operationKind: OperationKind, topLevelField: Field)
    requires routing.isNamespaced(topLevelField) && ExecutionsFor(routing, operationKind, topLevelField).Success?
    ensures var executions := ExecutionsFor(routing, operationKind, topLevelField).value;
      forall a, b, n ::
        (0 <= a < b < |executions| && 0 <= n < |topLevelField.children| &&
         OwnerOf(routing, operationKind, topLevelField.children[n]) == Some(executions[b].service)) ==>
        OwnedBefore(routing, operationKind, topLevelField.children, n, executions[a].service)
  {
    var children := topLevelField.children;
    var pairs := OwnedChildren(routing, operationKind, children).value;
    var groups := GroupBy(pairs, Second);
    var executions := ExecutionsFor(routing, operationKind, topLevelField).value;
    assert executions == ExecutionsOf(topLevelField, groups);
    forall a, b, n | 0 <= a < b < |executions| && 0 <= n < |children| &&
        OwnerOf(routing, operationKind, children[n]) == Some(executions[b].service)
      ensures OwnedBefore(routing, operationKind, children, n, executions[a].service)
    {
      SplitPairOrder(routing, operationKind, children, pairs, groups, a, b, n);
    }
  }

  lemma SplitPairOrder(
    routing: Routing, operationKind: OperationKind, children: seq<Field>,
    pairs: seq<(Field, Service)>, groups: Groups<Service, (Field, Service)>, a: nat, b: nat, n: nat)
    requires OwnedChildren(routing, operationKind, children) == Success(pairs)
    requires groups == GroupBy(pairs, Second)
    requires a < b < |groups| && n < |children| && OwnerOf(routing, operationKind, children[n]) == Some(groups[b].0)
    ensures OwnedBefore(routing, operationKind, children, n, groups[a].0)
  {
    GroupByCorrect(pairs, Second);
    DistinctKeysFirstOccurrence(pairs, Second);
    var keys := DistinctKeys(pairs, Second);
    assert keys[a] == groups[a].0 && keys[b] == groups[b].0;
    assert Second(pairs[n]) == keys[b];
    assert OccursBefore(pairs, Second, n, keys[a]);
    var m :| 0 <= m < n && m < |pairs| && Second(pairs[m]) == keys[a];
    assert OwnerOf(routing, operationKind, children[m]) == Some(groups[a].0);
  }

  /** The executions of all top-level fields, field after field; any field's error is the result. */
  function GetFieldsToExecute(routing: Routing, operationKind: OperationKind, topLevelFields: seq<Field>): (r: Result<seq<FieldExecution>>)
    ensures r.Failure? <==> exists i :: 0 <= i < |topLevelFields| && ExecutionsFor(routing, operationKind, topLevelFields[i]).Failure?
    ensures r.Success? ==> r.value == Transform.FlatMap(topLevelFields, Transform.Values(FieldExecutions(routing, operationKind)))
  {
    Transform.FlatMapResult(topLevelFields, FieldExecutions(routing, operationKind))
  }

  /** ExecutionsFor as a function value, one per routing and operation kind. */
  function FieldExecutions(routing: Routing, operationKind: OperationKind): Field -> Result<seq<FieldExecution>> {
    f => ExecutionsFor(routing, operationKind, f)
  }

  /** Executions follow top-level field order: those of a prefix of the fields come first. */
  lemma {:induction false} ExecutionsInFieldOrder(routing: Routing, operationKind: OperationKind, a: seq<Field>, b: seq<Field>)
    requires GetFieldsToExecute(routing, operationKind, a + b).Success?
    ensures GetFieldsToExecute(routing, operationKind, a).Success? && GetFieldsToExecute(routing, operationKind, b).Success?
    ensures GetFieldsToExecute(routing, operationKind, a + b).value ==
      GetFieldsToExecute(routing, operationKind, a).value + GetFieldsToExecute(routing, operationKind, b).value
  {
    Transform.FlatMapResultAppend(a, b, FieldExecutions(routing, operationKind));
  }
}
