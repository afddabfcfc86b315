/**
 * Builds the nested selection for a declared path such as ["collar", "name"]: one field per
 * path segment, each created under the object type it belongs to, with an interface at any
 * level expanded into one chain per implementation.
 */
module PathToField {
  import opened Wrappers
  import opened Fields

  /** An output type as a field definition declares it: a named type, possibly wrapped. */
  datatype TypeRef = Named(name: string) | NonNull(ofType: TypeRef) | ListOf(ofType: TypeRef)

  datatype FieldDefinition = FieldDefinition(name: string, fieldType: TypeRef)

  datatype ObjectType = ObjectType(name: string, fieldDefinitions: seq<FieldDefinition>)

  /** What a type name resolves to in a schema; scalars, enums, unions and input types are `OtherTypeDef`. */
  datatype NamedType =
    | ObjectTypeDef(objectType: ObjectType)
    | InterfaceTypeDef(interfaceName: string)
    | OtherTypeDef(otherName: string)

  /** The parts of a schema the builder reads: named types and each interface's implementations. */
  datatype Schema = Schema(types: map<string, NamedType>, implementations: map<string, seq<ObjectType>>)

  /** The field definition called `name` on `t`, if any. */
  function GetFieldDefinition(t: ObjectType, name: string): (r: Option<FieldDefinition>)
    ensures r.Some? ==> r.value in t.fieldDefinitions && r.value.name == name
    ensures r.None? ==> forall d :: d in t.fieldDefinitions ==> d.name != name
    decreases |t.fieldDefinitions|
  {
    if t.fieldDefinitions == [] then None
    else if t.fieldDefinitions[0].name == name then Some(t.fieldDefinitions[0])
    else GetFieldDefinition(ObjectType(t.name, t.fieldDefinitions[1..]), name)
  }

  /** The object types implementing interface `name`, in schema order; none when unknown. */
  function GetImplementations(schema: Schema, name: string): seq<ObjectType> {
    if name in schema.implementations then schema.implementations[name] else []
  }

  /** The object type called `name`, if the schema has one. */
  function GetObjectType(schema: Schema, name: string): (r: Option<ObjectType>)
    ensures r.Some? <==> name in schema.types && schema.types[name].ObjectTypeDef?
    ensures r.Some? ==> r.value == schema.types[name].objectType
  {
    if name in schema.types && schema.types[name].ObjectTypeDef? then Some(schema.types[name].objectType) else None
  }

  /**
   * `f` is a field generated for `path` from level `i` down: its name is `path[i]`, it has
   * exactly one object type name and the given arguments, no alias, and its children are
   * `fieldChildren` at the last level and chains for level `i + 1` above it.
   */
  ghost predicate ChainFrom(f: Field, path: seq<string>, i: nat, fieldArguments: seq<(string, NormalizedInputValue)>, fieldChildren: seq<Field>)
    decreases f
  {
    && i < |path|
    && f.fieldName == path[i]
    && f.alias == None
    && |f.objectTypeNames| == 1
    && f.arguments == fieldArguments
    && (i == |path| - 1 ==> f.children == fieldChildren)
    && (i < |path| - 1 ==> forall c :: c in f.children ==> ChainFrom(c, path, i + 1, fieldArguments, fieldChildren))
  }

  /** The object type names of `fs`, in order. */
  function ObjectTypeNamesOf(fs: seq<Field>): seq<seq<string>> {
    seq(|fs|, k requires 0 <= k < |fs| => fs[k].objectTypeNames)
  }

  /** The names of `ts`, each as the single object type name a generated field carries. */
  function SingletonNames(ts: seq<ObjectType>): seq<seq<string>> {
    seq(|ts|, k requires 0 <= k < |ts| => [ts[k].name])
  }

  /** Entry point for a parent that may be an object or an interface. */
  function CreateField(
    schema: Schema, parentType: TypeRef, pathToField: seq<string>,
    fieldArguments: seq<(string, NormalizedInputValue)>, fieldChildren: seq<Field>): (r: Result<seq<Field>>)
    ensures r.Success? ==> forall f :: f in r.value ==> ChainFrom(f, pathToField, 0, fieldArguments, fieldChildren)
  {
    CreateFieldRecursively(schema, parentType, pathToField, fieldArguments, fieldChildren, 0)
  }

  /** Entry point for an object parent: exactly one field. */
  function CreateObjectField(
    schema: Schema, parentType: ObjectType, pathToField: seq<string>,
    fieldArguments: seq<(string, NormalizedInputValue)>, fieldChildren: seq<Field>): (r: Result<Field>)
    ensures r.Success? ==> ChainFrom(r.value, pathToField, 0, fieldArguments, fieldChildren)
    ensures r.Success? ==> r.value.objectTypeNames == [parentType.name]
    ensures pathToField == [] ==> r.Failure?
  {
    CreateParticularField(schema, parentType, pathToField, fieldArguments, fieldChildren, 0)
  }

  /**
   * The fields for level `index` under `parentType`: one per implementation for an interface,
   * one for an object, and a failure for any other kind of type (wrapped types included).
   */
  function CreateFieldRecursively(
    schema: Schema, parentType: TypeRef, pathToField: seq<string>,
    fieldArguments: seq<(string, NormalizedInputValue)>, fieldChildren: seq<Field>, index: nat): (r: Result<seq<Field>>)
    requires index <= |pathToField|
    decreases |pathToField| - index, 2, 0
    ensures r.Success? ==> forall f :: f in r.value ==> ChainFrom(f, pathToField, index, fieldArguments, fieldChildren)
    ensures r.Success? && parentType.Named? && parentType.name in schema.types && schema.types[parentType.name].ObjectTypeDef? ==>
      |r.value| == 1 && r.value[0].objectTypeNames == [schema.types[parentType.name].objectType.name]
    ensures r.Success? && parentType.Named? && parentType.name in schema.types && schema.types[parentType.name].InterfaceTypeDef? ==>
      ObjectTypeNamesOf(r.value) == SingletonNames(GetImplementations(schema, parentType.name))
    ensures !(parentType.Named? && parentType.name in schema.types && !schema.types[parentType.name].OtherTypeDef?) ==> r.Failure?
  {
    match parentType
    case Named(name) =>
      if name !in schema.types then Failure("Unsupported type '" + name + "'")
      else (
        match schema.types[name]
        case InterfaceTypeDef(_) =>
          CreateEach(schema, GetImplementations(schema, name), pathToField, fieldArguments, fieldChildren, index)
        case ObjectTypeDef(objectType) =>
          var f :- CreateParticularField(schema, objectType, pathToField, fieldArguments, fieldChildren, index);
          Success([f])
        case OtherTypeDef(_) => Failure("Unsupported type '" + name + "'"))
    case _ => Failure("Unsupported type")
  }

  /** One field per object type of `parentTypes`, in order; fails if any of them fails. */
  function CreateEach(
    schema: Schema, parentTypes: seq<ObjectType>, pathToField: seq<string>,
    fieldArguments: seq<(string, NormalizedInputValue)>, fieldChildren: seq<Field>, index: nat): (r: Result<seq<Field>>)
    requires index <= |pathToField|
    decreases |pathToField| - index, 1, |parentTypes|
    ensures r.Success? ==> ObjectTypeNamesOf(r.value) == SingletonNames(parentTypes)
    ensures r.Success? ==> forall f :: f in r.value ==> ChainFrom(f, pathToField, index, fieldArguments, fieldChildren)
  {
    if parentTypes == [] then Success([])
    else
      var f :- CreateParticularField(schema, parentTypes[0], pathToField, fieldArguments, fieldChildren, index);
      var rest :- CreateEach(schema, parentTypes[1..], pathToField, fieldArguments, fieldChildren, index);
      assert ObjectTypeNamesOf([f] + rest) == [f.objectTypeNames] + ObjectTypeNamesOf(rest);
      assert SingletonNames(parentTypes) == [[parentTypes[0].name]] + SingletonNames(parentTypes[1..]);
      Success([f] + rest)
  }

  /**
   * The field for segment `index` under object type `parentType`. It fails when the path has
   * no such segment or the segment is not defined on the type.
   */
  function CreateParticularField(
    schema: Schema, parentType: ObjectType, pathToField: seq<string>,
    fieldArguments: seq<(string, NormalizedInputValue)>, fieldChildren: seq<Field>, index: nat): (r: Result<Field>)
    requires index <= |pathToField|
    decreases |pathToField| - index, 0, 0
    ensures r.Success? ==> ChainFrom(r.value, pathToField, index, fieldArguments, fieldChildren)
    ensures r.Success? ==> r.value.objectTypeNames == [parentType.name]
    ensures index < |pathToField| && GetFieldDefinition(parentType, pathToField[index]).None? ==> r.Failure?
    ensures index == |pathToField| ==> r.Failure?
  {
    if index == |pathToField| then Failure("Index out of bounds")
    else
      var fieldName := pathToField[index];
      match GetFieldDefinition(parentType, fieldName)
      case None => Failure("No definition for " + parentType.name + "." + fieldName)
      case Some(fieldDef) =>
        var children :-
          if index == |pathToField| - 1 then Success(fieldChildren)
          else CreateFieldRecursively(schema, fieldDef.fieldType, pathToField, fieldArguments, fieldChildren, index + 1);
        Success(Field(fieldName, None, [parentType.name], fieldArguments, children))
  }

  /**
   * Every segment of `pathToField` from `index` on is defined, and every segment before the
   * last has an (unwrapped) object type.
   */
  ghost predicate ObjectPathDefined(schema: Schema, parentType: ObjectType, pathToField: seq<string>, index: nat)
    decreases |pathToField| - index
  {
    && index < |pathToField|
    && GetFieldDefinition(parentType, pathToField[index]).Some?
    && var fieldType := GetFieldDefinition(parentType, pathToField[index]).value.fieldType;
       (index < |pathToField| - 1 ==>
          && fieldType.Named?
          && GetObjectType(schema, fieldType.name).Some?
          && ObjectPathDefined(schema, GetObjectType(schema, fieldType.name).value, pathToField, index + 1))
  }

  /** A path through object types only never fails: the builder yields one linear chain. */
  lemma {:induction false} ObjectPathSucceeds(
    schema: Schema, parentType: ObjectType, pathToField: seq<string>,
    fieldArguments: seq<(string, NormalizedInputValue)>, fieldChildren: seq<Field>, index: nat)
    requires index <= |pathToField|
    requires ObjectPathDefined(schema, parentType, pathToField, index)
    ensures CreateParticularField(schema, parentType, pathToField, fieldArguments, fieldChildren, index).Success?
    ensures index < |pathToField| - 1 ==>
      |CreateParticularField(schema, parentType, pathToField, fieldArguments, fieldChildren, index).value.children| == 1
    decreases |pathToField| - index
  {
    if index < |pathToField| - 1 {
      var fieldType := GetFieldDefinition(parentType, pathToField[index]).value.fieldType;
      ObjectPathSucceeds(schema, GetObjectType(schema, fieldType.name).value, pathToField, fieldArguments, fieldChildren, index + 1);
    }
  }
}
