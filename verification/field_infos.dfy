/**
 * The index of top-level fields: for each operation kind, which service answers a top-level
 * field of the overall schema, built from the services' underlying and overall schemas.
 */
module FieldInfos {
  import opened Wrappers

  datatype OperationKind = Query | Mutation | Subscription

  /** A field definition of the overall schema, reduced to its name. */
  datatype FieldDefinition = FieldDefinition(name: string)

  /** An object type definition of the overall schema (one operation type may be declared in several). */
  datatype ObjectTypeDefinition = ObjectTypeDefinition(name: string, fieldDefinitions: seq<FieldDefinition>)

  /**
   * A service: per operation kind, the field names of its underlying schema's operation type
   * (none when that schema has no such type), and the overall type definitions it declares.
   */
  datatype Service = Service(
    name: string,
    underlyingQueryType: Option<seq<string>>,
    underlyingMutationType: Option<seq<string>>,
    underlyingSubscriptionType: Option<seq<string>>,
    queryType: seq<ObjectTypeDefinition>,
    mutationType: seq<ObjectTypeDefinition>,
    subscriptionType: seq<ObjectTypeDefinition>)

  datatype FieldInfo = FieldInfo(service: Service, operationKind: OperationKind, fieldDef: FieldDefinition)

  /** One map per operation kind, from top-level field name to its info. */
  datatype NadelFieldInfos = NadelFieldInfos(
    queryTopLevelFields: map<string, FieldInfo>,
    mutationTopLevelFields: map<string, FieldInfo>,
    subscriptionTopLevelFields: map<string, FieldInfo>)

  function TopLevelFields(infos: NadelFieldInfos, operationKind: OperationKind): map<string, FieldInfo> {
    match operationKind
    case Query => infos.queryTopLevelFields
    case Mutation => infos.mutationTopLevelFields
    case Subscription => infos.subscriptionTopLevelFields
  }

  /** The info of a top-level field, looked up in the map of the given operation kind only. */
  function GetFieldInfo(infos: NadelFieldInfos, operationKind: OperationKind, topLevelFieldName: string): (r: Option<FieldInfo>)
    ensures r.None? <==> topLevelFieldName !in TopLevelFields(infos, operationKind)
    ensures r.Some? ==> r.value == TopLevelFields(infos, operationKind)[topLevelFieldName]
  {
    match operationKind
    case Query => if topLevelFieldName in infos.queryTopLevelFields then Some(infos.queryTopLevelFields[topLevelFieldName]) else None
    case Mutation => if topLevelFieldName in infos.mutationTopLevelFields then Some(infos.mutationTopLevelFields[topLevelFieldName]) else None
    case Subscription => if topLevelFieldName in infos.subscriptionTopLevelFields then Some(infos.subscriptionTopLevelFields[topLevelFieldName]) else None
  }

  /** A lookup does not depend on the maps of the other operation kinds. */
  lemma LookupIgnoresOtherKinds(infos: NadelFieldInfos, other: NadelFieldInfos, operationKind: OperationKind, name: string)
    requires TopLevelFields(infos, operationKind) == TopLevelFields(other, operationKind)
    ensures GetFieldInfo(infos, operationKind, name) == GetFieldInfo(other, operationKind, name)
  {
  }

  function UnderlyingOperationType(service: Service, operationKind: OperationKind): Option<seq<string>> {
    match operationKind
    case Query => service.underlyingQueryType
    case Mutation => service.underlyingMutationType
    case Subscription => service.underlyingSubscriptionType
  }

  function OverallOperationTypes(service: Service, operationKind: OperationKind): seq<ObjectTypeDefinition> {
    match operationKind
    case Query => service.queryType
    case Mutation => service.mutationType
    case Subscription => service.subscriptionType
  }

  /** The field definitions of the types, type after type. */
  function AllFieldDefinitions(types: seq<ObjectTypeDefinition>): seq<FieldDefinition> {
    if types == [] then [] else types[0].fieldDefinitions + AllFieldDefinitions(types[1..])
  }

  /** `d` is the first of the definitions named `name`. */
  ghost predicate IsFirstNamed(definitions: seq<FieldDefinition>, name: string, d: FieldDefinition) {
    exists i :: 0 <= i < |definitions| && definitions[i] == d && d.name == name && forall j :: 0 <= j < i ==> definitions[j].name != name
  }

  /** The first definition named `name`, if any. */
  function FirstNamed(definitions: seq<FieldDefinition>, name: string): (r: Option<FieldDefinition>)
    ensures r.None? <==> forall i :: 0 <= i < |definitions| ==> definitions[i].name != name
    ensures r.Some? ==> IsFirstNamed(definitions, name, r.value)
  {
    if definitions == [] then None
    else if definitions[0].name == name then Some(definitions[0])
    else
      var r := FirstNamed(definitions[1..], name);
      if r.Some? then
        FirstNamedShift(definitions, name, r.value);
        r
      else
        assert forall i :: 1 <= i < |definitions| ==> definitions[i] == definitions[1..][i - 1];
        r
  }

  /** A first match after a definition of another name is the first match of the whole sequence. */
  lemma FirstNamedShift(definitions: seq<FieldDefinition>, name: string, d: FieldDefinition)
    requires definitions != [] && definitions[0].name != name
    requires IsFirstNamed(definitions[1..], name, d)
    ensures IsFirstNamed(definitions, name, d)
  {
    var i :| 0 <= i < |definitions| - 1 && definitions[1..][i] == d && d.name == name &&
      forall j :: 0 <= j < i ==> definitions[1..][j].name != name;
    assert definitions[i + 1] == d;
    forall j | 0 <= j < i + 1 ensures definitions[j].name != name {
      if j > 0 {
        assert definitions[j] == definitions[1..][j - 1];
      }
    }
  }

  /**
   * The overall field an underlying top-level field corresponds to: the first field of the
   * same name across the overall operation type definitions of the kind, in order.
   */
  function GetOverallField(service: Service, operationKind: OperationKind, underlyingFieldName: string): (r: Option<FieldDefinition>)
    ensures r.None? <==> forall i :: 0 <= i < |OverallDefinitions(service, operationKind)| ==>
      OverallDefinitions(service, operationKind)[i].name != underlyingFieldName
    ensures r.Some? ==> r.value.name == underlyingFieldName && IsFirstNamed(OverallDefinitions(service, operationKind), underlyingFieldName, r.value)
  {
    FirstNamed(OverallDefinitions(service, operationKind), underlyingFieldName)
  }

  function OverallDefinitions(service: Service, operationKind: OperationKind): seq<FieldDefinition> {
    AllFieldDefinitions(OverallOperationTypes(service, operationKind))
  }

  /** The entry an underlying field contributes: none when the overall schema has no field of that name. */
  ghost predicate IsEntryOf(service: Service, operationKind: OperationKind, underlyingFieldName: string, entry: (string, FieldInfo)) {
    var overall := GetOverallField(service, operationKind, underlyingFieldName);
    overall.Some? && entry == (overall.value.name, FieldInfo(service, operationKind, overall.value))
  }

  /** The entries of some underlying fields of one service, in order. */
  function EntriesOf(service: Service, operationKind: OperationKind, underlyingFieldNames: seq<string>): (r: seq<(string, FieldInfo)>)
    ensures |r| <= |underlyingFieldNames|
  {
    if underlyingFieldNames == [] then []
    else
      var overall := GetOverallField(service, operationKind, underlyingFieldNames[0]);
      var first := if overall.Some? then [(overall.value.name, FieldInfo(service, operationKind, overall.value))] else [];
      first + EntriesOf(service, operationKind, underlyingFieldNames[1..])
  }

  /** An entry comes from exactly the underlying fields that have a same-named overall field. */
  lemma {:induction false} EntriesOfMembership(service: Service, operationKind: OperationKind, underlyingFieldNames: seq<string>, e: (string, FieldInfo))
    ensures e in EntriesOf(service, operationKind, underlyingFieldNames) <==>
      exists u :: u in underlyingFieldNames && IsEntryOf(service, operationKind, u, e)
  {
    if underlyingFieldNames != [] {
      var u := underlyingFieldNames[0];
      EntriesOfMembership(service, operationKind, underlyingFieldNames[1..], e);
      if e in EntriesOf(service, operationKind, underlyingFieldNames) {
        if !IsEntryOf(service, operationKind, u, e) {
          var u' :| u' in underlyingFieldNames[1..] && IsEntryOf(service, operationKind, u', e);
        }
      } else {
        forall u' | u' in underlyingFieldNames ensures !IsEntryOf(service, operationKind, u', e) {
          if u' != u { assert u' in underlyingFieldNames[1..]; }
        }
      }
    }
  }

  /** The entries of one service: none when its underlying schema lacks the operation type. */
  ghost predicate ServiceEntry(service: Service, operationKind: OperationKind, entry: (string, FieldInfo)) {
    var underlying := UnderlyingOperationType(service, operationKind);
    underlying.Some? && exists u :: u in underlying.value && IsEntryOf(service, operationKind, u, entry)
  }

  /**
   * The entries of all services, service after service, before they are put into a map: an
   * entry for each underlying top-level field that has a same-named overall field, keyed by
   * that name and recording the service and the operation kind.
   */
  function InfosFromServices(services: seq<Service>, operationKind: OperationKind): seq<(string, FieldInfo)> {
    if services == [] then []
    else
      var underlying := UnderlyingOperationType(services[0], operationKind);
      var first := if underlying.None? then [] else EntriesOf(services[0], operationKind, underlying.value);
      first + InfosFromServices(services[1..], operationKind)
  }

  /** The entries are exactly those of the listed services. */
  lemma {:induction false} InfosFromServicesMembership(services: seq<Service>, operationKind: OperationKind, e: (string, FieldInfo))
    ensures e in InfosFromServices(services, operationKind) <==> exists s :: s in services && ServiceEntry(s, operationKind, e)
  {
    if services != [] {
      var s0 := services[0];
      var underlying := UnderlyingOperationType(s0, operationKind);
      InfosFromServicesMembership(services[1..], operationKind, e);
      if underlying.Some? {
        EntriesOfMembership(s0, operationKind, underlying.value, e);
      }
      if e in InfosFromServices(services, operationKind) {
        if !ServiceEntry(s0, operationKind, e) {
          var s :| s in services[1..] && ServiceEntry(s, operationKind, e);
        }
      } else {
        forall s | s in services ensures !ServiceEntry(s, operationKind, e) {
          if s != s0 { assert s in services[1..]; }
        }
      }
    }
  }

  /** Every entry is keyed by its overall field's name, from a listed service and of the requested kind. */
  lemma EntriesAreConsistent(services: seq<Service>, operationKind: OperationKind, entry: (string, FieldInfo))
    requires entry in InfosFromServices(services, operationKind)
    ensures entry.1.service in services && entry.1.operationKind == operationKind
    ensures entry.0 == entry.1.fieldDef.name
    ensures UnderlyingOperationType(entry.1.service, operationKind).Some?
    ensures entry.0 in UnderlyingOperationType(entry.1.service, operationKind).value
  {
    InfosFromServicesMembership(services, operationKind, entry);
    var s :| s in services && ServiceEntry(s, operationKind, entry);
    var u :| u in UnderlyingOperationType(s, operationKind).value && IsEntryOf(s, operationKind, u, entry);
  }

  /**
   * A map built from entries without choosing among colliding keys: it has exactly the
   * entries' keys, and each key maps to the info of some entry with that key.
   */
  ghost predicate IsMapFrom(m: map<string, FieldInfo>, entries: seq<(string, FieldInfo)>) {
    && (forall k :: k in m <==> exists info :: (k, info) in entries)
    && (forall k :: k in m ==> (k, m[k]) in entries)
  }

  /** The index: one map per operation kind, each built from that kind's entries by `mapFrom`. */
  function Create(services: seq<Service>, mapFrom: seq<(string, FieldInfo)> -> map<string, FieldInfo>): (r: NadelFieldInfos)
    ensures TopLevelFields(r, Query) == mapFrom(InfosFromServices(services, Query))
    ensures TopLevelFields(r, Mutation) == mapFrom(InfosFromServices(services, Mutation))
    ensures TopLevelFields(r, Subscription) == mapFrom(InfosFromServices(services, Subscription))
  {
    NadelFieldInfos(
      mapFrom(InfosFromServices(services, Query)),
      mapFrom(InfosFromServices(services, Mutation)),
      mapFrom(InfosFromServices(services, Subscription)))
  }

  /**
   * Whatever entry `mapFrom` keeps for a colliding key, a lookup finds a field exactly when
   * some service's underlying operation type has a same-named overall field, and the info
   * found names such a service, the requested kind and the field.
   */
  lemma CreateLookup(services: seq<Service>, mapFrom: seq<(string, FieldInfo)> -> map<string, FieldInfo>, operationKind: OperationKind, name: string)
    requires IsMapFrom(mapFrom(InfosFromServices(services, operationKind)), InfosFromServices(services, operationKind))
    ensures var r := GetFieldInfo(Create(services, mapFrom), operationKind, name);
      && (r.Some? <==> exists s, info :: s in services && ServiceEntry(s, operationKind, (name, info)))
      && (r.Some? ==>
            && r.value.service in services && r.value.operationKind == operationKind && r.value.fieldDef.name == name
            && ServiceEntry(r.value.service, operationKind, (name, r.value)))
  {
    var entries := InfosFromServices(services, operationKind);
    var r := GetFieldInfo(Create(services, mapFrom), operationKind, name);
    forall info ensures (name, info) in entries <==> exists s :: s in services && ServiceEntry(s, operationKind, (name, info)) {
      InfosFromServicesMembership(services, operationKind, (name, info));
    }
    if r.Some? {
      assert (name, r.value) in entries;
      EntriesAreConsistent(services, operationKind, (name, r.value));
    }
  }

  /**
   * Two services answering the same top-level field leave the winner open: both a map keeping
   * the first entry and one keeping the second are maps built from the entries.
   */
  lemma CollisionHasNoWinner(entries: seq<(string, FieldInfo)>, name: string, first: FieldInfo, second: FieldInfo)
    requires (name, first) in entries && (name, second) in entries
    requires forall e :: e in entries ==> e.0 == name
    ensures IsMapFrom(map[name := first], entries) && IsMapFrom(map[name := second], entries)
  {
  }
}
