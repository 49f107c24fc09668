/** The request-body UI: `parse_body_field` turns a resolved schema into a tree
of fields, and `build_body_ui` picks a content type and splits the top-level
fields into required and optional ones.

`parse_body_field` resolves the schema it is given and then recurses into the
resolved properties and items; like `ResolveSchema` it carries a `fuel` bound
and reports `RecursionLimit` when the bound runs out.
 */
module Body {
  import opened Results
  import opened JsonModel
  import opened Text
  import opened Identifiers
  import opened SchemaInfo
  import opened Resolver
  import opened Ordering

  /** The keys every body field carries (line 293-301). */
  datatype FieldInfo = FieldInfo(
    apiKey: string,
    apiPath: string,
    uiLabel: string,
    description: string,
    required: bool,
    nullable: bool)

  /** A body field: a leaf with its schema facts, an object with children, or
      an array with the field of its items. */
  datatype BodyField =
    | PrimitiveField(info: FieldInfo, schemaType: string, format: Json, enumValues: seq<string>, example: Json, defaultValue: Json)
    | ObjectField(info: FieldInfo, children: seq<BodyField>)
    | ArrayField(info: FieldInfo, itemField: BodyField)

  /** Line 291: a child's path is its name, after the parent's path and a dot
      when there is a parent path. */
  function ChildPath(parentPath: string, name: string): (r: string)
    ensures parentPath == "" ==> r == name
    ensures parentPath != "" ==> StartsWith(r, parentPath + ".") && r[|parentPath| + 1..] == name
  {
    if parentPath != "" then parentPath + "." + name else name
  }

  /** Every child's path extends its parent's with its own key; an array's
      item field is the required field `value` under `<path>[]`. */
  ghost predicate WellFormedTree(f: BodyField)
    decreases f
  {
    match f
    case PrimitiveField(_, _, _, _, _, _) => true
    case ObjectField(info, children) =>
      forall i :: 0 <= i < |children| ==>
        && children[i].info.apiPath == ChildPath(info.apiPath, children[i].info.apiKey)
        && WellFormedTree(children[i])
    case ArrayField(info, item) =>
      && item.info.apiKey == "value"
      && item.info.required
      && item.info.apiPath == ChildPath(info.apiPath + "[]", "value")
      && WellFormedTree(item)
  }

  /** The kind of field a resolved schema yields: an object when its type says
      so or it has a `properties` dict, which takes precedence over `array`
      (line 303 and 323). */
  predicate IsObjectSchema(resolved: Dict) {
    InferSchemaType(resolved, Get(resolved, "example")) == "object" || Get(resolved, "properties").Obj?
  }

  predicate IsArraySchema(resolved: Dict) {
    !IsObjectSchema(resolved) && InferSchemaType(resolved, Get(resolved, "example")) == "array"
  }

  /** The keys of the dict-valued members, in order. */
  function DictKeys(ms: Dict): (r: seq<string>)
    ensures forall k :: k in r ==> k in KeysOf(ms)
  {
    if |ms| == 0 then []
    else (if ms[0].value.Obj? then [ms[0].key] else []) + DictKeys(ms[1..])
  }

  function ApiKeys(fs: seq<BodyField>): (r: seq<string>)
    ensures |r| == |fs|
    ensures forall i :: 0 <= i < |fs| ==> r[i] == fs[i].info.apiKey
  {
    seq(|fs|, i requires 0 <= i < |fs| => fs[i].info.apiKey)
  }

  /** `parse_body_field` (scripts/generate_openapi_meta.py:283-343): the
      schema resolved, then turned into a field. */
  function ParseBodyField(spec: Json, name: string, schema: Dict, required: bool, parentPath: string, fuel: nat)
    : (r: Result<BodyField>)
    ensures r.Ok? ==> ResolveSchema(spec, Obj(schema), fuel).Ok?
    ensures r.Ok? ==> FieldHeader(r.value, name, required, parentPath) && WellFormedTree(r.value)
    ensures r.Ok? && r.value.ObjectField? ==>
      ChildrenFollow(r.value.children, ResolveSchema(spec, Obj(schema), fuel).value)
    decreases fuel, 3, 0
  {
    var resolved :- ResolveSchema(spec, Obj(schema), fuel);
    FieldFromResolved(spec, name, resolved, required, parentPath, fuel)
  }

  /** The field's own keys: its name, its path under the parent, its label and
      its required flag. */
  predicate FieldHeader(f: BodyField, name: string, required: bool, parentPath: string) {
    && f.info.apiKey == name
    && f.info.apiPath == ChildPath(parentPath, name)
    && f.info.uiLabel == HumanizeIdentifier(name)
    && f.info.required == required
  }

  /** The children of an object field, against the resolved schema: one per
      dict-valued property, in order, each required exactly when the schema's
      `required` list names it. */
  ghost predicate ChildrenFollow(children: seq<BodyField>, resolved: Dict) {
    && ApiKeys(children) == DictKeys(PropertiesOf(resolved))
    && forall i :: 0 <= i < |children| ==>
         children[i].info.required == (children[i].info.apiKey in NormalizeRequiredNames(Get(resolved, "required")))
  }

  /** The schema of an array's items: its `items` dict, or `{}`. */
  function ItemSchemaOf(resolved: Dict): Dict {
    var items := Get(resolved, "items");
    if items.Obj? then items.members else []
  }

  /** Line 291-301: the keys every field carries. Only the description can
      raise, when it is a truthy non-string; it is normalised text otherwise. */
  function InfoOf(name: string, resolved: Dict, required: bool, parentPath: string): (r: Result<FieldInfo>)
    ensures r.Err? <==> Truthy(Get(resolved, "description")) && !Get(resolved, "description").Str?
    ensures r.Ok? ==>
      && r.value.apiKey == name
      && r.value.apiPath == ChildPath(parentPath, name)
      && r.value.uiLabel == HumanizeIdentifier(name)
      && r.value.required == required
      && r.value.nullable == Truthy(Get(resolved, "nullable"))
      && IsNormalized(r.value.description)
  {
    var description :- TextOr(Get(resolved, "description"), "");
    Ok(FieldInfo(name, ChildPath(parentPath, name), HumanizeIdentifier(name), NormalizeSpace(description), required,
      Truthy(Get(resolved, "nullable"))))
  }

  /** Line 291-343 once the schema is resolved: an object field for an object
      schema, else an array field for an array schema, else a primitive one;
      only a primitive carries the schema's type, format and `enum`. */
  function FieldFromResolved(spec: Json, name: string, resolved: Dict, required: bool, parentPath: string, fuel: nat)
    : (r: Result<BodyField>)
    ensures r.Ok? ==> FieldHeader(r.value, name, required, parentPath) && WellFormedTree(r.value)
    ensures r.Ok? ==> (r.value.ObjectField? <==> IsObjectSchema(resolved))
    ensures r.Ok? ==> (r.value.ArrayField? <==> IsArraySchema(resolved))
    ensures r.Ok? && r.value.PrimitiveField? ==>
      && r.value.schemaType == InferSchemaType(resolved, Get(resolved, "example"))
      && r.value.enumValues == EnumStrings(resolved)
    ensures r.Ok? && r.value.ObjectField? ==> ChildrenFollow(r.value.children, resolved)
    ensures Truthy(Get(resolved, "description")) && !Get(resolved, "description").Str? ==> r.Err?
    ensures r.Ok? ==> IsNormalized(r.value.info.description)
    decreases fuel, 2, 0
  {
    var schemaType := InferSchemaType(resolved, Get(resolved, "example"));
    var info :- InfoOf(name, resolved, required, parentPath);
    if IsObjectSchema(resolved) then ObjectFieldOf(spec, info, resolved, fuel)
    else if schemaType == "array" then ArrayFieldOf(spec, info, resolved, fuel)
    else
      Ok(PrimitiveField(info, schemaType, Get(resolved, "format"), EnumStrings(resolved),
        Get(resolved, "example"), Get(resolved, "default")))
  }

  /** Line 303-320: an object field whose children are the dict-valued
      properties; a truthy `properties` value that is not a dict raises. */
  function ObjectFieldOf(spec: Json, info: FieldInfo, resolved: Dict, fuel: nat): (r: Result<BodyField>)
    ensures Truthy(Get(resolved, "properties")) && !Get(resolved, "properties").Obj? ==> r.Err?
    ensures r.Ok? ==>
      && r.value.ObjectField? && r.value.info == info
      && WellFormedTree(r.value)
      && ChildrenFollow(r.value.children, resolved)
    decreases fuel, 1, 0
  {
    var properties := Or(Get(resolved, "properties"), Obj([]));
    if !properties.Obj? then Err(WrongType("properties is not a dict"))
    else if fuel == 0 then Err(RecursionLimit)
    else
      var children :- ParseChildren(spec, properties.members, NormalizeRequiredNames(Get(resolved, "required")),
        info.apiPath, fuel - 1);
      assert properties.members == PropertiesOf(resolved);
      Ok(ObjectField(info, children))
  }

  /** Line 322-334: an array field whose item is the field `value` parsed
      from the items schema. */
  function ArrayFieldOf(spec: Json, info: FieldInfo, resolved: Dict, fuel: nat): (r: Result<BodyField>)
    ensures r.Ok? ==> r.value.ArrayField? && r.value.info == info && WellFormedTree(r.value)
    decreases fuel, 1, 0
  {
    if fuel == 0 then Err(RecursionLimit)
    else
      var itemField :- ParseBodyField(spec, "value", ItemSchemaOf(resolved), true, info.apiPath + "[]", fuel - 1);
      Ok(ArrayField(info, itemField))
  }

  /** The item field of an array field is the field parsed from the items
      schema: named `value`, required, under the array's path plus `[]`
      (line 322-334). */
  lemma ArrayItemParsed(spec: Json, name: string, resolved: Dict, required: bool, parentPath: string, fuel: nat)
    requires FieldFromResolved(spec, name, resolved, required, parentPath, fuel + 1).Ok?
    requires FieldFromResolved(spec, name, resolved, required, parentPath, fuel + 1).value.ArrayField?
    ensures ParseBodyField(spec, "value", ItemSchemaOf(resolved), true, ChildPath(parentPath, name) + "[]", fuel)
      == Ok(FieldFromResolved(spec, name, resolved, required, parentPath, fuel + 1).value.itemField)
  {
    var info := InfoOf(name, resolved, required, parentPath).value;
    assert FieldFromResolved(spec, name, resolved, required, parentPath, fuel + 1) == ArrayFieldOf(spec, info, resolved, fuel + 1) by {
      assert !IsObjectSchema(resolved);
    }
    ArrayFieldOfItem(spec, info, resolved, fuel);
  }

  lemma ArrayFieldOfItem(spec: Json, info: FieldInfo, resolved: Dict, fuel: nat)
    requires ArrayFieldOf(spec, info, resolved, fuel + 1).Ok?
    ensures ParseBodyField(spec, "value", ItemSchemaOf(resolved), true, info.apiPath + "[]", fuel)
      == Ok(ArrayFieldOf(spec, info, resolved, fuel + 1).value.itemField)
  {
  }

  /** Line 304-318: a field for each dict-valued property, in order, required
      exactly when its name is among the parent's `required` names. */
  function ParseChildren(spec: Json, properties: Dict, requiredNames: seq<string>, parentPath: string, fuel: nat)
    : (r: Result<seq<BodyField>>)
    ensures r.Ok? ==> ApiKeys(r.value) == DictKeys(properties)
    ensures r.Ok? ==> forall i :: 0 <= i < |r.value| ==> IsChild(r.value[i], requiredNames, parentPath)
    decreases fuel, 4, |properties|
  {
    if |properties| == 0 then Ok([])
    else
      var m := properties[0];
      if !m.value.Obj? then ParseChildren(spec, properties[1..], requiredNames, parentPath, fuel)
      else
        var child :- ParseBodyField(spec, m.key, m.value.members, m.key in requiredNames, parentPath, fuel);
        var rest :- ParseChildren(spec, properties[1..], requiredNames, parentPath, fuel);
        assert IsChild(child, requiredNames, parentPath);
        ConsChildren(child, rest, requiredNames, parentPath);
        assert DictKeys(properties) == [child.info.apiKey] + DictKeys(properties[1..]);
        Ok([child] + rest)
  }

  /** A child of the object at `parentPath`: required exactly when named, at
      its path under the parent, and well formed. */
  ghost predicate IsChild(f: BodyField, requiredNames: seq<string>, parentPath: string) {
    && f.info.required == (f.info.apiKey in requiredNames)
    && f.info.apiPath == ChildPath(parentPath, f.info.apiKey)
    && WellFormedTree(f)
  }

  lemma ConsChildren(child: BodyField, rest: seq<BodyField>, requiredNames: seq<string>, parentPath: string)
    requires IsChild(child, requiredNames, parentPath)
    requires forall i :: 0 <= i < |rest| ==> IsChild(rest[i], requiredNames, parentPath)
    ensures ApiKeys([child] + rest) == [child.info.apiKey] + ApiKeys(rest)
    ensures forall i :: 0 <= i < |[child] + rest| ==> IsChild(([child] + rest)[i], requiredNames, parentPath)
  {
    var r := [child] + rest;
    assert forall i :: 1 <= i < |r| ==> r[i] == rest[i - 1];
  }

  // ----- build_body_ui -----

  const JsonMedia: string := "application/json"
  const MultipartMedia: string := "multipart/form-data"
  const FormMedia: string := "application/x-www-form-urlencoded"

  /** Line 355-356: the first preferred content type the body offers, else
      the first one it lists. */
  function ChooseContentType(content: Dict): (r: string)
    requires |content| > 0
    ensures r in KeysOf(content)
    ensures JsonMedia in KeysOf(content) ==> r == JsonMedia
    ensures JsonMedia !in KeysOf(content) && MultipartMedia in KeysOf(content) ==> r == MultipartMedia
    ensures JsonMedia !in KeysOf(content) && MultipartMedia !in KeysOf(content) && FormMedia in KeysOf(content) ==>
      r == FormMedia
    ensures JsonMedia !in KeysOf(content) && MultipartMedia !in KeysOf(content) && FormMedia !in KeysOf(content) ==>
      r == content[0].key
  {
    var keys := KeysOf(content);
    if JsonMedia in keys then JsonMedia
    else if MultipartMedia in keys then MultipartMedia
    else if FormMedia in keys then FormMedia
    else keys[0]
  }

  /** What `build_body_ui` returns for a body it can describe. */
  datatype BodyUi = BodyUi(
    contentType: string,
    binaryProperty: Option<string>,
    requiredFields: seq<BodyField>,
    optionalFields: seq<BodyField>)

  /** A primitive field whose format is `binary`: a file upload. */
  predicate IsBinary(f: BodyField) {
    f.PrimitiveField? && f.format == Str("binary")
  }

  /** Line 394-401: the key of the first binary primitive field. */
  function FirstBinary(fields: seq<BodyField>): (r: Option<string>)
    ensures r.None? <==> forall i :: 0 <= i < |fields| ==> !IsBinary(fields[i])
    ensures r.Some? ==> exists i ::
      && 0 <= i < |fields| && IsBinary(fields[i]) && fields[i].info.apiKey == r.value
      && forall j :: 0 <= j < i ==> !IsBinary(fields[j])
  {
    if |fields| == 0 then None
    else if IsBinary(fields[0]) then Some(fields[0].info.apiKey)
    else
      var r := FirstBinary(fields[1..]);
      assert r.Some? ==> exists i ::
        && 0 <= i < |fields| && IsBinary(fields[i]) && fields[i].info.apiKey == r.value
        && forall j :: 0 <= j < i ==> !IsBinary(fields[j]) by {
        if r.Some? {
          var i :| 0 <= i < |fields[1..]| && IsBinary(fields[1..][i]) && fields[1..][i].info.apiKey == r.value
            && forall j :: 0 <= j < i ==> !IsBinary(fields[1..][j]);
          assert IsBinary(fields[i + 1]) && forall j :: 0 <= j < i + 1 ==> !IsBinary(fields[j]);
        }
      }
      r
  }

  /** The fields whose `required` flag is `b`, in order. */
  function WithRequired(fields: seq<BodyField>, b: bool): (r: seq<BodyField>)
    ensures forall f :: f in r <==> f in fields && f.info.required == b
    ensures IsSubsequence(r, fields)
    ensures |r| <= |fields|
  {
    if |fields| == 0 then []
    else
      var rest := WithRequired(fields[1..], b);
      if fields[0].info.required == b then
        assert ([fields[0]] + rest)[1..] == rest;
        [fields[0]] + rest
      else
        assert |rest| > 0 ==> IsSubsequence(rest, fields);
        rest
  }

  lemma {:induction false} WithRequiredSplits(fields: seq<BodyField>)
    ensures |WithRequired(fields, true)| + |WithRequired(fields, false)| == |fields|
  {
    if |fields| > 0 {
      WithRequiredSplits(fields[1..]);
    }
  }

  /** A request body that `build_body_ui` can describe (line 348-358): a
      dict whose `content` is a non-empty dict, and whose chosen content type
      maps to a dict. */
  predicate HasMedia(body: Json) {
    && body.Obj?
    && Get(body.members, "content").Obj?
    && |Get(body.members, "content").members| > 0
    && Get(Get(body.members, "content").members, ChooseContentType(Get(body.members, "content").members)).Obj?
  }

  /** Line 347-358: the content type chosen for a request body and its media
      type, when the body has one that is a dict; `None` for a body that is not
      a dict, an empty or missing `content`, or a media type that is not a
      dict. Resolving the body is the only step that raises. */
  function MediaType(spec: Json, operation: Dict): (r: Result<Option<(string, Dict)>>)
    ensures r.Err? <==> ResolveValue(spec, Get(operation, "requestBody")).Err?
    ensures r.Ok? ==> (r.value.Some? <==> HasMedia(ResolveValue(spec, Get(operation, "requestBody")).value))
    ensures r.Ok? && r.value.Some? ==>
      var content := Get(ResolveValue(spec, Get(operation, "requestBody")).value.members, "content").members;
      && r.value.value.0 == ChooseContentType(content)
      && Get(content, r.value.value.0) == Obj(r.value.value.1)
  {
    var requestBody :- ResolveValue(spec, Get(operation, "requestBody"));
    if !requestBody.Obj? then Ok(None)
    else
      var content := Get(requestBody.members, "content");
      if !content.Obj? || |content.members| == 0 then Ok(None)
      else
        var contentType := ChooseContentType(content.members);
        var media := Get(content.members, contentType);
        if !media.Obj? then Ok(None) else Ok(Some((contentType, media.members)))
  }

  /** `build_body_ui` (scripts/generate_openapi_meta.py:346-408). */
  function BuildBodyUi(spec: Json, operation: Dict, fuel: nat): (r: Result<Option<BodyUi>>)
    ensures r.Ok? && r.value.Some? ==>
      var ui := r.value.value;
      && (forall f :: f in ui.requiredFields ==> f.info.required)
      && (forall f :: f in ui.optionalFields ==> !f.info.required)
      && (ui.binaryProperty.Some? ==> ui.contentType == MultipartMedia)
      && (ui.contentType == MultipartMedia ==> ui.binaryProperty == FirstBinary(ui.requiredFields + ui.optionalFields))
  {
    var chosen :- MediaType(spec, operation);
    if chosen.None? then Ok(None)
    else
      var (contentType, media) := chosen.value;
      var schema :- ResolveSchema(spec, Get(media, "schema"), fuel);
      if |schema| == 0 then Ok(None)
      else
        var fields :- TopLevelFields(spec, schema, fuel);
        var requiredFields := WithRequired(fields, true);
        var optionalFields := WithRequired(fields, false);
        var binary := if contentType == MultipartMedia then FirstBinary(requiredFields + optionalFields) else None;
        Ok(Some(BodyUi(contentType, binary, requiredFields, optionalFields)))
  }

  /** Line 365-392: a field per dict-valued property, or, for a schema without
      a `properties` dict, a single required field `value` for the whole body. */
  function TopLevelFields(spec: Json, schema: Dict, fuel: nat): (r: Result<seq<BodyField>>)
    ensures r.Ok? && Get(schema, "properties").Obj? ==>
      && ApiKeys(r.value) == DictKeys(Get(schema, "properties").members)
      && forall i :: 0 <= i < |r.value| ==> IsChild(r.value[i], NormalizeRequiredNames(Get(schema, "required")), "")
    ensures r.Ok? && !Get(schema, "properties").Obj? ==>
      && |r.value| == 1
      && FieldHeader(r.value[0], "value", true, "")
      && WellFormedTree(r.value[0])
  {
    var requiredNames := NormalizeRequiredNames(Get(schema, "required"));
    var properties := Get(schema, "properties");
    if properties.Obj? then ParseChildren(spec, properties.members, requiredNames, "", fuel)
    else
      var field :- ParseBodyField(spec, "value", schema, true, "", fuel);
      Ok([field])
  }

  /** Every dict-valued top-level property becomes exactly one field: a
      required one when its name is in the schema's `required` list, an
      optional one otherwise. */
  lemma BodyFieldsPartition(spec: Json, operation: Dict, fuel: nat, k: string)
    requires BuildBodyUi(spec, operation, fuel).Ok? && BuildBodyUi(spec, operation, fuel).value.Some?
    ensures MediaType(spec, operation).Ok? && MediaType(spec, operation).value.Some?
    ensures var media := MediaType(spec, operation).value.value.1;
      var schema := ResolveSchema(spec, Get(media, "schema"), fuel);
      var ui := BuildBodyUi(spec, operation, fuel).value.value;
      && schema.Ok?
      && (Get(schema.value, "properties").Obj? && k in DictKeys(Get(schema.value, "properties").members) ==>
            && (k in ApiKeys(ui.requiredFields) <==> k in NormalizeRequiredNames(Get(schema.value, "required")))
            && (k in ApiKeys(ui.optionalFields) <==> k !in NormalizeRequiredNames(Get(schema.value, "required"))))
      && |ui.requiredFields| + |ui.optionalFields| == |TopLevelFields(spec, schema.value, fuel).value|
  {
    BodyUiSplit(spec, operation, fuel);
    var media := MediaType(spec, operation).value.value.1;
    var schema := ResolveSchema(spec, Get(media, "schema"), fuel).value;
    var fields := TopLevelFields(spec, schema, fuel).value;
    WithRequiredSplits(fields);
    if Get(schema, "properties").Obj? {
      var names := NormalizeRequiredNames(Get(schema, "required"));
      WithRequiredKeys(fields, names, true, k);
      WithRequiredKeys(fields, names, false, k);
    }
  }

  /** When `build_body_ui` describes a body and when it does not
      (line 347-366): resolving the request body or its schema can raise;
      a body without a dict media type, or whose schema resolves to `{}`, has
      no form; any other body has one under the chosen content type, unless
      parsing its fields raises. */
  lemma BodyUiCases(spec: Json, operation: Dict, fuel: nat)
    ensures MediaType(spec, operation).Err? ==> BuildBodyUi(spec, operation, fuel).Err?
    ensures MediaType(spec, operation).Ok? && MediaType(spec, operation).value.None? ==>
      BuildBodyUi(spec, operation, fuel) == Ok(None)
    ensures MediaType(spec, operation).Ok? && MediaType(spec, operation).value.Some? ==>
      var (contentType, media) := MediaType(spec, operation).value.value;
      var schema := ResolveSchema(spec, Get(media, "schema"), fuel);
      var r := BuildBodyUi(spec, operation, fuel);
      && (schema.Err? ==> r.Err?)
      && (schema.Ok? && |schema.value| == 0 ==> r == Ok(None))
      && (schema.Ok? && |schema.value| > 0 ==>
            && (r.Ok? <==> TopLevelFields(spec, schema.value, fuel).Ok?)
            && (r.Ok? ==> r.value.Some? && r.value.value.contentType == contentType))
  {
  }

  /** A body form splits the top-level fields of the resolved schema by
      their required flag. */
  lemma BodyUiSplit(spec: Json, operation: Dict, fuel: nat)
    requires BuildBodyUi(spec, operation, fuel).Ok? && BuildBodyUi(spec, operation, fuel).value.Some?
    ensures MediaType(spec, operation).Ok? && MediaType(spec, operation).value.Some?
    ensures var media := MediaType(spec, operation).value.value.1;
      var schema := ResolveSchema(spec, Get(media, "schema"), fuel);
      var ui := BuildBodyUi(spec, operation, fuel).value.value;
      && schema.Ok?
      && TopLevelFields(spec, schema.value, fuel).Ok?
      && ui.requiredFields == WithRequired(TopLevelFields(spec, schema.value, fuel).value, true)
      && ui.optionalFields == WithRequired(TopLevelFields(spec, schema.value, fuel).value, false)
  {
  }

  /** When each field is required exactly when its key is named, the fields
      with flag `b` are those whose key's membership among the names is `b`. */
  lemma WithRequiredKeys(fields: seq<BodyField>, names: seq<string>, b: bool, k: string)
    requires forall i :: 0 <= i < |fields| ==> fields[i].info.required == (fields[i].info.apiKey in names)
    ensures k in ApiKeys(WithRequired(fields, b)) <==> k in ApiKeys(fields) && (k in names) == b
  {
    var sub := WithRequired(fields, b);
    if k in ApiKeys(sub) {
      var j :| 0 <= j < |sub| && ApiKeys(sub)[j] == k;
      assert sub[j] in fields;
      var i :| 0 <= i < |fields| && fields[i] == sub[j];
      assert ApiKeys(fields)[i] == k;
    }
    if k in ApiKeys(fields) && (k in names) == b {
      var i :| 0 <= i < |fields| && ApiKeys(fields)[i] == k;
      assert fields[i] in sub;
      var j :| 0 <= j < |sub| && sub[j] == fields[i];
      assert ApiKeys(sub)[j] == k;
    }
  }
}
