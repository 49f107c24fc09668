/** The query-parameter UI: `build_query_ui` sorts an operation's query
parameters into plain fields, an `include` selector, a `sort` selector and the
fields of a deep-object `filter`.
 */
module Query {
  import opened Results
  import opened JsonModel
  import opened Text
  import opened Identifiers
  import opened Ordering
  import opened SchemaInfo
  import opened Resolver
  import opened QueryOptions

  /** A plain query parameter as a form field (line 449-466). */
  datatype SimpleField = SimpleField(
    name: string,
    apiPath: string,
    uiLabel: string,
    description: string,
    required: bool,
    schemaType: string,
    format: Json,
    enumValues: seq<string>,
    minimum: Json,
    maximum: Json,
    defaultValue: Json,
    example: Json)

  /** The `include` or `sort` selector: a fixed name and label, the
      parameter's description and its options (line 426-440). */
  datatype OptionField = OptionField(name: string, uiLabel: string, description: string, options: seq<Choice>)

  /** What `build_query_ui` returns. */
  datatype QueryUi = QueryUi(
    simple: seq<SimpleField>,
    includeField: Option<OptionField>,
    sortField: Option<OptionField>,
    filterFields: seq<FilterField>)

  /** What a parameter contributes, decided by its `in`, `name` and `style`
      (line 418-445). */
  datatype Role = Skipped | IncludeParam | SortParam | FilterParam | SimpleParam

  function RoleOf(p: Dict): (r: Role)
    ensures r != Skipped <==> Get(p, "in") == Str("query") && Get(p, "name").Str? && Get(p, "name").s != ""
    ensures r == IncludeParam <==> r != Skipped && Get(p, "name").s == "include"
    ensures r == SortParam <==> r != Skipped && Get(p, "name").s == "sort"
    ensures r == FilterParam <==>
      r != Skipped && Get(p, "name").s == "filter" && Get(p, "style") == Str("deepObject")
  {
    var name := Get(p, "name");
    if Get(p, "in") != Str("query") || !name.Str? || name.s == "" then Skipped
    else if name.s == "include" then IncludeParam
    else if name.s == "sort" then SortParam
    else if name.s == "filter" && Get(p, "style") == Str("deepObject") then FilterParam
    else SimpleParam
  }

  /** The description every query field shows: `normalize_space` of the
      parameter's description, or of `""` when it has none. */
  function DescriptionOf(p: Dict): (r: Result<string>)
    ensures r.Err? <==> Truthy(Get(p, "description")) && !Get(p, "description").Str?
    ensures r.Ok? ==> IsNormalized(r.value)
    ensures !Truthy(Get(p, "description")) ==> r == Ok("")
  {
    var text :- TextOr(Get(p, "description"), "");
    NormalizeSpaceOfEmpty();
    Ok(NormalizeSpace(text))
  }

  lemma NormalizeSpaceOfEmpty()
    ensures NormalizeSpace("") == ""
  {
  }

  /** Each include option named by its humanised value (line 430). */
  function IncludeChoices(options: seq<string>): (r: seq<Choice>)
    ensures Values(r) == options
    ensures forall i :: 0 <= i < |r| ==> r[i].name == HumanizeIdentifier(options[i])
  {
    var r := seq(|options|, i requires 0 <= i < |options| => Choice(HumanizeIdentifier(options[i]), options[i]));
    assert Values(r) == options;
    r
  }

  /** Line 424-431: the options are parsed before the description is
      normalised, and both raise on the same non-string description. */
  function IncludeField(p: Dict): (r: Result<OptionField>)
    ensures r.Err? <==> Truthy(Get(p, "description")) && !Get(p, "description").Str?
    ensures r.Ok? ==>
      && r.value.name == "include" && r.value.uiLabel == "Include"
      && Values(r.value.options) == ParseIncludeOptions(p).value
      && forall i :: 0 <= i < |r.value.options| ==> r.value.options[i].name == HumanizeIdentifier(r.value.options[i].value)
  {
    var options :- ParseIncludeOptions(p);
    // the description that let the options parse also normalises
    Ok(OptionField("include", "Include", DescriptionOf(p).value, IncludeChoices(options)))
  }

  /** Line 434-440: the description is normalised before the options are
      parsed. */
  function SortField(p: Dict): (r: Result<OptionField>)
    ensures r.Err? <==> DescriptionOf(p).Err? || ParseSortOptions(p).Err?
    ensures r.Ok? ==> r.value.name == "sort" && r.value.uiLabel == "Sort" && r.value.options == ParseSortOptions(p).value
  {
    var description :- DescriptionOf(p);
    var options :- ParseSortOptions(p);
    Ok(OptionField("sort", "Sort", description, options))
  }

  /** Line 447-466: a plain parameter resolved against its schema; the
      schema's example wins over the parameter's when it is truthy. */
  function SimpleFieldOf(spec: Json, p: Dict, fuel: nat): (r: Result<SimpleField>)
    requires RoleOf(p) == SimpleParam
    ensures r.Err? <==> ResolveSchema(spec, Get(p, "schema"), fuel).Err? || DescriptionOf(p).Err?
    ensures r.Ok? ==>
      var schema := ResolveSchema(spec, Get(p, "schema"), fuel).value;
      && r.value.name == Get(p, "name").s
      && r.value.apiPath == r.value.name
      && r.value.uiLabel == HumanizeIdentifier(r.value.name)
      && r.value.required == Truthy(Get(p, "required"))
      && r.value.schemaType == InferSchemaType(schema, Get(p, "example"))
      && r.value.enumValues == EnumStrings(schema)
      && (Truthy(Get(schema, "example")) ==> r.value.example == Get(schema, "example"))
      && (!Truthy(Get(schema, "example")) ==> r.value.example == Get(p, "example"))
  {
    var schema :- ResolveSchema(spec, Get(p, "schema"), fuel);
    var name := Get(p, "name").s;
    var schemaType := InferSchemaType(schema, Get(p, "example"));
    var description :- DescriptionOf(p);
    Ok(SimpleField(name, name, HumanizeIdentifier(name), description, Truthy(Get(p, "required")),
      schemaType, Get(schema, "format"), EnumStrings(schema),
      Get(schema, "minimum"), Get(schema, "maximum"), Get(schema, "default"),
      Or(Get(schema, "example"), Get(p, "example"))))
  }

  /** What one parameter adds to the query UI. The loop at line 417-466
      computes each parameter's piece from that parameter alone, so the
      pieces can be computed first and then laid over each other in order. */
  datatype Piece =
    | NoPiece
    | IncludePiece(option: OptionField)
    | SortPiece(option: OptionField)
    | FilterPiece(filters: seq<FilterField>)
    | SimplePiece(field: SimpleField)

  /** One iteration of the loop, before it touches the accumulators. */
  function Contribution(spec: Json, p: Dict, fuel: nat): (r: Result<Piece>)
    ensures RoleOf(p) == Skipped ==> r == Ok(NoPiece)
    ensures r.Ok? && r.value.IncludePiece? <==> RoleOf(p) == IncludeParam && IncludeField(p).Ok?
    ensures r.Ok? && r.value.IncludePiece? ==> IncludeField(p) == Ok(r.value.option)
    ensures r.Ok? && r.value.SortPiece? <==> RoleOf(p) == SortParam && SortField(p).Ok?
    ensures r.Ok? && r.value.SortPiece? ==> SortField(p) == Ok(r.value.option)
    ensures r.Ok? && r.value.FilterPiece? <==> RoleOf(p) == FilterParam && ParseFilterFields(p, spec, fuel).Ok?
    ensures r.Ok? && r.value.FilterPiece? ==> ParseFilterFields(p, spec, fuel) == Ok(r.value.filters)
    ensures r.Ok? && r.value.SimplePiece? <==> RoleOf(p) == SimpleParam && SimpleFieldOf(spec, p, fuel).Ok?
    ensures r.Ok? && r.value.SimplePiece? ==> SimpleFieldOf(spec, p, fuel) == Ok(r.value.field)
  {
    match RoleOf(p)
    case Skipped => Ok(NoPiece)
    case IncludeParam =>
      var option :- IncludeField(p);
      Ok(IncludePiece(option))
    case SortParam =>
      var option :- SortField(p);
      Ok(SortPiece(option))
    case FilterParam =>
      var filters :- ParseFilterFields(p, spec, fuel);
      Ok(FilterPiece(filters))
    case SimpleParam =>
      var field :- SimpleFieldOf(spec, p, fuel);
      Ok(SimplePiece(field))
  }

  /** The pieces of all parameters, or the error of the first parameter that
      raises. */
  function Contributions(spec: Json, parameters: seq<Dict>, fuel: nat): (r: Result<seq<Piece>>)
    ensures r.Ok? ==> |r.value| == |parameters|
    ensures r.Ok? ==> forall i :: 0 <= i < |parameters| ==> Contribution(spec, parameters[i], fuel) == Ok(r.value[i])
    ensures r.Err? ==> exists i ::
      && 0 <= i < |parameters|
      && Contribution(spec, parameters[i], fuel) == Err(r.error)
      && forall j :: 0 <= j < i ==> Contribution(spec, parameters[j], fuel).Ok?
  {
    MapResult((p: Dict) => Contribution(spec, p, fuel), parameters)
  }

  /** The accumulators of the loop: `simple_fields`, `include_field`,
      `sort_field` and `filter_fields`. */
  datatype QueryState = QueryState(
    simple: seq<SimpleField>,
    includeField: Option<OptionField>,
    sortField: Option<OptionField>,
    filterFields: seq<FilterField>)

  /** The loop body after its piece is computed: a plain field is appended, a
      selector or the filter fields replace what an earlier parameter gave. */
  function Apply(s: QueryState, piece: Piece): QueryState {
    match piece
    case NoPiece => s
    case IncludePiece(option) => s.(includeField := Some(option))
    case SortPiece(option) => s.(sortField := Some(option))
    case FilterPiece(filters) => s.(filterFields := filters)
    case SimplePiece(field) => s.(simple := s.simple + [field])
  }

  function ApplyAll(s: QueryState, pieces: seq<Piece>): QueryState
    decreases |pieces|
  {
    if |pieces| == 0 then s else ApplyAll(Apply(s, pieces[0]), pieces[1..])
  }

  const Initial: QueryState := QueryState([], None, None, [])

  /** The key the plain fields are sorted by (line 468). */
  function LabelOf(f: SimpleField): string {
    f.uiLabel
  }

  /** `build_query_ui` (scripts/generate_openapi_meta.py:411-475): the loop,
      then the plain fields stably sorted by label. */
  function BuildQueryUi(spec: Json, parameters: seq<Dict>, fuel: nat): (r: Result<QueryUi>)
    ensures r.Ok? ==> SortedBy(r.value.simple, LabelOf)
    ensures r.Ok? <==> Contributions(spec, parameters, fuel).Ok?
  {
    var pieces :- Contributions(spec, parameters, fuel);
    var s := ApplyAll(Initial, pieces);
    Ok(QueryUi(SortBy(s.simple, LabelOf), s.includeField, s.sortField, s.filterFields))
  }

  // ----- what the loop leaves behind -----

  /** The plain fields among the pieces, in order. */
  function SimpleFields(pieces: seq<Piece>): seq<SimpleField> {
    if |pieces| == 0 then []
    else (if pieces[0].SimplePiece? then [pieces[0].field] else []) + SimpleFields(pieces[1..])
  }

  /** The option of the last `include` piece, searched from the end. */
  function LastInclude(pieces: seq<Piece>): Option<OptionField> {
    if |pieces| == 0 then None
    else if pieces[|pieces| - 1].IncludePiece? then Some(pieces[|pieces| - 1].option)
    else LastInclude(pieces[..|pieces| - 1])
  }

  /** The option of the last `sort` piece, searched from the end. */
  function LastSort(pieces: seq<Piece>): Option<OptionField> {
    if |pieces| == 0 then None
    else if pieces[|pieces| - 1].SortPiece? then Some(pieces[|pieces| - 1].option)
    else LastSort(pieces[..|pieces| - 1])
  }

  /** The fields of the last `filter` piece, searched from the end. */
  function LastFilter(pieces: seq<Piece>): Option<seq<FilterField>> {
    if |pieces| == 0 then None
    else if pieces[|pieces| - 1].FilterPiece? then Some(pieces[|pieces| - 1].filters)
    else LastFilter(pieces[..|pieces| - 1])
  }

  /** Laying the pieces over a state one by one equals laying all but the
      last and then the last. */
  lemma {:induction false} ApplyAllSnoc(s: QueryState, pieces: seq<Piece>, piece: Piece)
    ensures ApplyAll(s, pieces + [piece]) == Apply(ApplyAll(s, pieces), piece)
    decreases |pieces|
  {
    if |pieces| == 0 {
      assert pieces + [piece] == [piece];
    } else {
      assert (pieces + [piece])[1..] == pieces[1..] + [piece];
      ApplyAllSnoc(Apply(s, pieces[0]), pieces[1..], piece);
    }
  }

  lemma {:induction false} SimpleFieldsSnoc(pieces: seq<Piece>, piece: Piece)
    ensures SimpleFields(pieces + [piece]) == SimpleFields(pieces) + (if piece.SimplePiece? then [piece.field] else [])
    decreases |pieces|
  {
    if |pieces| == 0 {
      assert pieces + [piece] == [piece];
    } else {
      var head := if pieces[0].SimplePiece? then [pieces[0].field] else [];
      var last := if piece.SimplePiece? then [piece.field] else [];
      assert (pieces + [piece])[0] == pieces[0];
      assert (pieces + [piece])[1..] == pieces[1..] + [piece];
      SimpleFieldsSnoc(pieces[1..], piece);
      assert SimpleFields(pieces + [piece]) == head + (SimpleFields(pieces[1..]) + last);
      assert head + (SimpleFields(pieces[1..]) + last) == (head + SimpleFields(pieces[1..])) + last;
    }
  }

  /** The loop keeps every plain field in parameter order, and a selector or
      the filter fields come from the last parameter that gives one: a later
      `include`, `sort` or `filter` parameter overrides an earlier one. */
  lemma {:induction false} ApplyAllSpec(pieces: seq<Piece>)
    ensures var s := ApplyAll(Initial, pieces);
      && s.simple == SimpleFields(pieces)
      && s.includeField == LastInclude(pieces)
      && s.sortField == LastSort(pieces)
      && s.filterFields == (if LastFilter(pieces).Some? then LastFilter(pieces).value else [])
    decreases |pieces|
  {
    if |pieces| > 0 {
      var init := pieces[..|pieces| - 1];
      var last := pieces[|pieces| - 1];
      assert pieces == init + [last];
      ApplyAllSpec(init);
      ApplyAllSnoc(Initial, init, last);
      SimpleFieldsSnoc(init, last);
    }
  }

  /** `build_query_ui` in terms of the pieces of its parameters: the plain
      fields are those of the plain parameters, in any order the label sort
      leaves them, and the last `include`, `sort` and deep-object `filter`
      parameters decide the rest. */
  lemma BuildQueryUiSpec(spec: Json, parameters: seq<Dict>, fuel: nat)
    requires BuildQueryUi(spec, parameters, fuel).Ok?
    ensures Contributions(spec, parameters, fuel).Ok?
    ensures var pieces := Contributions(spec, parameters, fuel).value;
      var ui := BuildQueryUi(spec, parameters, fuel).value;
      && multiset(ui.simple) == multiset(SimpleFields(pieces))
      && ui.includeField == LastInclude(pieces)
      && ui.sortField == LastSort(pieces)
      && ui.filterFields == (if LastFilter(pieces).Some? then LastFilter(pieces).value else [])
  {
    ApplyAllSpec(Contributions(spec, parameters, fuel).value);
  }
}
