/**
 * JSON-shaped result data, the paths that address it, nodes found at a path and the
 * instructions that the result transforms emit to reshape it.
 */
module Json {

  /**
   * A value in a service result. `JInt` is any integral number, `JFloat` a `Double` or `Float`
   * kept as an opaque tag, `JDecimal` a `BigDecimal` worth `unscaled` × 10^-`scale`; `JOther`
   * is any value of another kind.
   */
  datatype JsonValue =
    | JNull
    | JBool(b: bool)
    | JInt(i: int)
    | JFloat(tag: string)
    | JDecimal(unscaled: int, scale: int)
    | JString(s: string)
    | JList(items: seq<JsonValue>)
    | JObject(entries: seq<(string, JsonValue)>)
    | JOther(kind: string)

  /** One step of a result path: a key into an object or an index into a list. */
  datatype PathSegment = Key(key: string) | Index(index: nat)

  type ResultPath = seq<PathSegment>

  /** A value found in a result, with its absolute path from the root of the document. */
  datatype JsonNode = JsonNode(resultPath: ResultPath, value: JsonValue)

  /** The directives a transform emits to rewrite the underlying result into the overall shape. */
  datatype ResultInstruction =
    | Set(subjectPath: ResultPath, newValue: JsonValue)
    | Copy(subjectPath: ResultPath, destinationPath: ResultPath)
    | Remove(subjectPath: ResultPath)

  /** What a service call returned (the call itself is not modelled). */
  datatype ServiceResult = ServiceResult(data: JsonValue, errors: seq<JsonValue>)

  /** The path one level below `parent`, at `key`. */
  function Child(parent: ResultPath, key: string): (r: ResultPath)
    ensures |r| == |parent| + 1 && r[..|parent|] == parent && r[|parent|] == Key(key)
  {
    parent + [Key(key)]
  }
}
