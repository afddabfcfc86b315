/**
 * The normalized query field tree, GraphQL literal values, and the blueprint's instruction
 * datatypes (the data-only declarations of the execution blueprint).
 */
module Fields {
  import opened Wrappers

  /** A GraphQL literal as it appears in a query document. A float literal is an opaque tag. */
  datatype AstValue =
    | NullValue
    | BooleanValue(b: bool)
    | IntValue(i: int)
    | FloatValue(tag: string)
    | StringValue(s: string)
    | ArrayValue(values: seq<AstValue>)
    | ObjectValue(objectFields: seq<ObjectField>)

  datatype ObjectField = ObjectField(name: string, value: AstValue)

  /** An argument value of a normalized field: the printed type name and the literal. */
  datatype NormalizedInputValue = NormalizedInputValue(typeName: string, value: AstValue)

  /**
   * One selected field of an operation. The parent back-reference of the source is not a
   * field here: operations that need the field's position receive the result keys of its
   * ancestors alongside it.
   */
  datatype Field = Field(
    fieldName: string,
    alias: Option<string>,
    objectTypeNames: seq<string>,
    arguments: seq<(string, NormalizedInputValue)>,
    children: seq<Field>)
  {
    /** The key under which the field's value appears in a result: the alias, else the name. */
    function ResultKey(): string {
      alias.GetOr(fieldName)
    }
  }

  /** The result keys from the root down to `f`, given the result keys of its ancestors. */
  function ListOfResultKeys(parentKeys: seq<string>, f: Field): (r: seq<string>)
    ensures |r| == |parentKeys| + 1 && r[..|parentKeys|] == parentKeys
  {
    parentKeys + [f.ResultKey()]
  }

  const TypeNameFieldName := "__typename"

  /**
   * The artificial `__typename` selection a transform adds to tell object types apart,
   * aliased with the transform's type-name result key.
   */
  function MakeTypeNameField(typeNameResultKey: string, objectTypeNames: seq<string>): (r: Field)
    ensures r.fieldName == TypeNameFieldName && r.ResultKey() == typeNameResultKey
    ensures r.objectTypeNames == objectTypeNames && r.arguments == [] && r.children == []
  {
    Field(TypeNameFieldName, Some(typeNameResultKey), objectTypeNames, [], [])
  }

  /** A (type, field) coordinate of a schema. */
  datatype FieldCoordinates = FieldCoordinates(typeName: string, fieldName: string)

  /** Where a hydration argument takes its value from. */
  datatype HydrationArgumentValueSource =
    | FieldValue(pathToField: seq<string>)
    | ArgumentValue(argumentName: string)

  datatype HydrationArgument = HydrationArgument(name: string, valueSource: HydrationArgumentValueSource)

  datatype BatchHydrationMatchStrategy =
    | MatchIndex
    | MatchObjectIdentifier(objectIdentifier: string)

  /** The per-field instructions of the execution blueprint. */
  datatype Instruction =
    | HydrationInstruction(
        location: FieldCoordinates,
        sourceService: string,
        pathToSourceField: seq<string>,
        arguments: seq<HydrationArgument>)
    | BatchHydrationInstruction(
        location: FieldCoordinates,
        sourceService: string,
        pathToSourceField: seq<string>,
        arguments: seq<HydrationArgument>,
        batchSize: int,
        batchMatchStrategy: BatchHydrationMatchStrategy)
    | DeepRenameInstruction(
        location: FieldCoordinates,
        pathToSourceField: seq<string>)

  /** A type declared under a different name in the underlying schema. */
  datatype TypeRenameInstruction = TypeRenameInstruction(overallName: string, underlyingName: string)
}
