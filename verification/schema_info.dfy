/** What the generator reads off a single resolved schema: its UI type, its
`required` names and its `enum` values.
 */
module SchemaInfo {
  import opened JsonModel

  /** `infer_schema_type` (scripts/generate_openapi_meta.py:143-157): a string
      `type` wins; otherwise the Python type of `fallback` (usually an example
      value) decides, and anything unclassified is a string. Python's `bool` is a
      subclass of `int`; the source tests it first, and the model's `Bool` and
      `Int` are separate constructors, so the two cannot be confused. */
  function InferSchemaType(schema: Dict, fallback: Json): (r: string)
    ensures Get(schema, "type").Str? ==> r == Get(schema, "type").s
    ensures !Get(schema, "type").Str? ==>
      && (r == "boolean" <==> fallback.Bool?)
      && (r == "integer" <==> fallback.Int?)
      && (r == "number" <==> fallback.Float?)
      && (r == "array" <==> fallback.Arr?)
      && (r == "object" <==> fallback.Obj?)
      && (r == "string" <==> fallback.Null? || fallback.Str?)
  {
    var declared := Get(schema, "type");
    if declared.Str? then declared.s
    else
      match fallback
      case Bool(_) => "boolean"
      case Int(_) => "integer"
      case Float(_) => "number"
      case Arr(_) => "array"
      case Obj(_) => "object"
      case _ => "string"
  }

  /** `normalize_required_names` (scripts/generate_openapi_meta.py:275-280):
      the entries of a `required` list, stringified; anything that is not a list
      (a boolean included) names nothing. */
  function NormalizeRequiredNames(required: Json): (r: seq<string>)
    ensures !required.Arr? ==> r == []
    ensures required.Arr? ==> |r| == |required.items|
    ensures required.Arr? ==> forall i :: 0 <= i < |r| ==> r[i] == PyStr(required.items[i])
  {
    if required.Bool? then []
    else if required.Arr? then PyStrs(required.items)
    else []
  }

  /** A list of strings names exactly those strings. */
  lemma RequiredStringsKept(names: seq<string>)
    ensures NormalizeRequiredNames(Arr(StrJsons(names))) == names
  {
    var r := NormalizeRequiredNames(Arr(StrJsons(names)));
    assert |r| == |names|;
    forall i | 0 <= i < |names|
      ensures r[i] == names[i]
    {
      assert StrJsons(names)[i] == Str(names[i]);
    }
  }

  /** The `enum` values of a schema, each turned into a string, when `enum` is
      a list; `[]` otherwise (line 340 and 458-460). */
  function EnumStrings(schema: Dict): (r: seq<string>)
    ensures Get(schema, "enum").Arr? ==> r == PyStrs(Get(schema, "enum").items)
    ensures !Get(schema, "enum").Arr? ==> r == []
  {
    var e := Get(schema, "enum");
    if e.Arr? then PyStrs(e.items) else []
  }
}
