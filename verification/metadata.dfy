/** The metadata of a whole document: `build_operation_meta` describes one
operation (its resource, labels, path, query and body UI) and
`generate_metadata` groups the operations of all paths by resource.
 */
module Metadata {
  import opened Results
  import opened JsonModel
  import opened Text
  import opened Identifiers
  import opened Ordering
  import opened Resolver
  import opened Body
  import opened Query

  // ----- resolve_parameters -----

  /** Line 485-489: each entry resolved in turn, the dicts among the results
      kept in order. It fails exactly when resolving the list as a whole
      does, with the same error, and otherwise keeps the dict entries of
      that resolved list. */
  function ResolveEach(spec: Json, items: seq<Json>): (r: Result<seq<Dict>>)
    ensures r.Err? <==> ResolveItems(spec, items).Err?
    ensures r.Err? ==> r.error == ResolveItems(spec, items).error
    ensures r.Ok? ==> r.value == DictItems(ResolveItems(spec, items).value)
    decreases |items|
  {
    if |items| == 0 then Ok([])
    else
      var v :- ResolveValue(spec, items[0]);
      var rest :- ResolveEach(spec, items[1..]);
      DictItemsCons(v, ResolveItems(spec, items[1..]).value);
      Ok((if v.Obj? then [v.members] else []) + rest)
  }

  lemma DictItemsCons(v: Json, vs: seq<Json>)
    ensures DictItems([v] + vs) == (if v.Obj? then [v.members] else []) + DictItems(vs)
  {
    assert ([v] + vs)[1..] == vs;
  }

  /** A `parameters` value that is not a list contributes nothing. */
  function ResolveParameterList(spec: Json, source: Json): (r: Result<seq<Dict>>)
    ensures !source.Arr? ==> r == Ok([])
    ensures source.Arr? ==> r == ResolveEach(spec, source.items)
  {
    if source.Arr? then ResolveEach(spec, source.items) else Ok([])
  }

  /** `resolve_parameters` (scripts/generate_openapi_meta.py:478-491): the
      path item's parameters, then the operation's. */
  function ResolveParameters(spec: Json, pathItem: Dict, operation: Dict): (r: Result<seq<Dict>>)
    ensures r.Ok? <==>
      ResolveParameterList(spec, Get(pathItem, "parameters")).Ok? && ResolveParameterList(spec, Get(operation, "parameters")).Ok?
    ensures r.Ok? ==>
      r.value == ResolveParameterList(spec, Get(pathItem, "parameters")).value
                 + ResolveParameterList(spec, Get(operation, "parameters")).value
  {
    var shared :- ResolveParameterList(spec, Get(pathItem, "parameters"));
    var own :- ResolveParameterList(spec, Get(operation, "parameters"));
    Ok(shared + own)
  }

  /** The dict items of a list, in order: what resolving leaves of a list
      without references. */
  function DictItems(items: seq<Json>): (r: seq<Dict>)
    ensures |r| <= |items|
  {
    if |items| == 0 then []
    else (if items[0].Obj? then [items[0].members] else []) + DictItems(items[1..])
  }

  /** Without references, resolving keeps the dict items and drops the rest. */
  lemma ResolveEachRefFree(spec: Json, items: seq<Json>)
    requires forall i :: 0 <= i < |items| ==> RefFree(items[i])
    ensures ResolveEach(spec, items) == Ok(DictItems(items))
  {
    ResolveItemsRefFree(spec, items);
  }

  /** Parameters without references come through as written: the path
      item's dict parameters first, then the operation's. */
  lemma ResolveParametersRefFree(spec: Json, pathItem: Dict, operation: Dict)
    requires RefFree(Get(pathItem, "parameters")) && RefFree(Get(operation, "parameters"))
    ensures ResolveParameters(spec, pathItem, operation) ==
      Ok((if Get(pathItem, "parameters").Arr? then DictItems(Get(pathItem, "parameters").items) else [])
         + (if Get(operation, "parameters").Arr? then DictItems(Get(operation, "parameters").items) else []))
  {
    var shared := Get(pathItem, "parameters");
    var own := Get(operation, "parameters");
    if shared.Arr? {
      ResolveEachRefFree(spec, shared.items);
    }
    if own.Arr? {
      ResolveEachRefFree(spec, own.items);
    }
  }

  // ----- path parameters -----

  /** A path parameter as a form field (line 509-518). */
  datatype PathField = PathField(
    name: string,
    apiPath: string,
    uiLabel: string,
    description: string,
    required: bool,
    example: Json)

  /** Line 503-507: a parameter `in` the path with a non-empty string name. */
  predicate IsPathParam(p: Dict) {
    Get(p, "in") == Str("path") && Get(p, "name").Str? && Get(p, "name").s != ""
  }

  /** The path parameters, in order. */
  function PathParams(parameters: seq<Dict>): (r: seq<Dict>)
    ensures forall i :: 0 <= i < |r| ==> IsPathParam(r[i])
    ensures forall p :: p in r <==> p in parameters && IsPathParam(p)
  {
    if |parameters| == 0 then []
    else
      var here := if IsPathParam(parameters[0]) then [parameters[0]] else [];
      var rest := PathParams(parameters[1..]);
      DictsCons(parameters);
      assert forall i :: 0 <= i < |here + rest| ==> (here + rest)[i] in here || (here + rest)[i] in rest;
      here + rest
  }

  lemma DictsCons(ds: seq<Dict>)
    requires |ds| > 0
    ensures forall d :: d in ds <==> d == ds[0] || d in ds[1..]
  {
    assert ds == [ds[0]] + ds[1..];
  }

  /** Line 511-519: the field of one path parameter. Its name is a string
      for every parameter `PathParams` keeps. */
  function PathFieldOf(p: Dict): (r: Result<PathField>)
    ensures r.Err? <==> Truthy(Get(p, "description")) && !Get(p, "description").Str?
    ensures r.Ok? ==>
      && (Get(p, "name").Str? ==> r.value.name == Get(p, "name").s)
      && r.value.apiPath == r.value.name
      && r.value.uiLabel == HumanizeIdentifier(r.value.name)
      && r.value.required == Truthy(Get(p, "required"))
      && r.value.example == Get(p, "example")
  {
    var name := PyStr(Get(p, "name"));
    var description :- DescriptionOf(p);
    Ok(PathField(name, name, HumanizeIdentifier(name), description, Truthy(Get(p, "required")), Get(p, "example")))
  }

  /** The fields of the given path parameters, in order; the first
      parameter whose description raises decides the error. */
  function PathFieldsOf(ps: seq<Dict>): (r: Result<seq<PathField>>)
    ensures r.Err? <==> exists i :: 0 <= i < |ps| && PathFieldOf(ps[i]).Err?
    ensures r.Ok? ==> |r.value| == |ps| && forall i :: 0 <= i < |ps| ==> PathFieldOf(ps[i]) == Ok(r.value[i])
  {
    MapResult((p: Dict) => PathFieldOf(p), ps)
  }

  function PathLabelOf(f: PathField): string {
    f.uiLabel
  }

  // ----- build_operation_meta -----

  /** An operation's own keys in the output. */
  datatype OperationEntry = OperationEntry(
    operationValue: string,
    operationId: string,
    operationLabel: string,
    httpMethod: string,
    path: string,
    summary: string,
    description: string,
    pathUi: seq<PathField>,
    queryUi: QueryUi,
    bodyUi: Option<BodyUi>)

  /** What `build_operation_meta` returns: the operation's resource and its
      own keys. */
  datatype OperationMeta = OperationMeta(resourceValue: string, resourceLabel: string, entry: OperationEntry)

  /** Line 526-527: the first tag of a non-empty `tags` list, else
      `General`; a missing `tags` key defaults to `["General"]`. */
  function TagValue(operation: Dict): (r: string)
    ensures Get(operation, "tags").Arr? && |Get(operation, "tags").items| > 0 ==>
      r == PyStr(Get(operation, "tags").items[0])
    ensures !(Get(operation, "tags").Arr? && |Get(operation, "tags").items| > 0) ==> r == "General"
  {
    var tags := Get(operation, "tags");
    if tags.Arr? && |tags.items| > 0 then PyStr(tags.items[0]) else "General"
  }

  /** Line 501: the declared `operationId` when it is truthy, else one made
      of the lower-cased method and the slug of the path. */
  function OperationIdOf(httpMethod: string, path: string, operation: Dict): (r: Json)
    ensures Truthy(Get(operation, "operationId")) ==> r == Get(operation, "operationId")
    ensures !Truthy(Get(operation, "operationId")) ==> r == Str(LowerStr(httpMethod) + "_" + Slugify(path))
  {
    Or(Get(operation, "operationId"), Str(LowerStr(httpMethod) + "_" + Slugify(path)))
  }

  /** The three UI parts of an operation, in the order line 502-524 computes
      them: the parameters are resolved, then the path fields, the query UI
      and the body UI are built; the path fields are sorted by label. */
  datatype OperationUi = OperationUi(pathUi: seq<PathField>, queryUi: QueryUi, bodyUi: Option<BodyUi>)

  function OperationUiOf(spec: Json, pathItem: Dict, operation: Dict, fuel: nat): (r: Result<OperationUi>)
    ensures r.Ok? ==>
      && ResolveParameters(spec, pathItem, operation).Ok?
      && var parameters := ResolveParameters(spec, pathItem, operation).value;
      && PathFieldsOf(PathParams(parameters)).Ok?
      && multiset(r.value.pathUi) == multiset(PathFieldsOf(PathParams(parameters)).value)
      && SortedBy(r.value.pathUi, PathLabelOf)
      && BuildQueryUi(spec, parameters, fuel) == Ok(r.value.queryUi)
      && BuildBodyUi(spec, operation, fuel) == Ok(r.value.bodyUi)
  {
    var parameters :- ResolveParameters(spec, pathItem, operation);
    var pathFields :- PathFieldsOf(PathParams(parameters));
    var queryUi :- BuildQueryUi(spec, parameters, fuel);
    var bodyUi :- BuildBodyUi(spec, operation, fuel);
    Ok(OperationUi(SortBy(pathFields, PathLabelOf), queryUi, bodyUi))
  }

  /** Line 536-537: the normalised summary, and the normalised description,
      which falls back to the summary when it is falsy. Either raises on a
      truthy value that is not a string. */
  function OperationTexts(operation: Dict): (r: Result<(string, string)>)
    ensures var summary := Get(operation, "summary");
      var description := Or(Get(operation, "description"), summary);
      r.Err? <==> (Truthy(summary) && !summary.Str?) || (Truthy(description) && !description.Str?)
    ensures r.Ok? ==> IsNormalized(r.value.0) && IsNormalized(r.value.1)
    ensures r.Ok? && Truthy(Get(operation, "summary")) ==> r.value.0 == NormalizeSpace(Get(operation, "summary").s)
    ensures r.Ok? && !Truthy(Get(operation, "summary")) ==> r.value.0 == ""
    ensures r.Ok? && Truthy(Get(operation, "description")) ==> r.value.1 == NormalizeSpace(Get(operation, "description").s)
    ensures r.Ok? && !Truthy(Get(operation, "description")) ==> r.value.1 == r.value.0
  {
    var summary :- TextOr(Get(operation, "summary"), "");
    var description :- TextOr(Or(Get(operation, "description"), Get(operation, "summary")), "");
    NormalizeSpaceOfEmpty();
    Ok((NormalizeSpace(summary), NormalizeSpace(description)))
  }

  /** `build_operation_meta` (scripts/generate_openapi_meta.py:494-541). The
      keys are computed in the source's order, so the first step that raises
      decides the error; an `operationId` that is not a string raises when
      its label is made. */
  function BuildOperationMeta(spec: Json, path: string, httpMethod: string, pathItem: Dict, operation: Dict, fuel: nat)
    : (r: Result<OperationMeta>)
    ensures Truthy(Get(operation, "operationId")) && !Get(operation, "operationId").Str? ==> r.Err?
    ensures r.Err? <==>
      || OperationUiOf(spec, pathItem, operation, fuel).Err?
      || !OperationIdOf(httpMethod, path, operation).Str?
      || OperationLabelFromId(OperationIdOf(httpMethod, path, operation).s).Err?
      || OperationTexts(operation).Err?
    ensures r.Ok? ==> IsSlug(r.value.resourceValue)
    ensures r.Ok? ==> (r.value.entry.summary, r.value.entry.description) == OperationTexts(operation).value
    ensures r.Ok? ==>
      var e := r.value.entry;
      && r.value.resourceLabel == TagValue(operation)
      && r.value.resourceValue == Slugify(TagValue(operation))
      && Str(e.operationId) == OperationIdOf(httpMethod, path, operation)
      && e.operationValue == e.operationId
      && OperationLabelFromId(e.operationId) == Ok(e.operationLabel)
      && e.httpMethod == UpperStr(httpMethod)
      && e.path == path
      && OperationUiOf(spec, pathItem, operation, fuel) == Ok(OperationUi(e.pathUi, e.queryUi, e.bodyUi))
  {
    var operationId := OperationIdOf(httpMethod, path, operation);
    var ui :- OperationUiOf(spec, pathItem, operation, fuel);
    var tag := TagValue(operation);
    if !operationId.Str? then Err(WrongType("operationId is not text"))
    else
      var operationLabel :- OperationLabelFromId(operationId.s);
      var texts :- OperationTexts(operation);
      Ok(OperationMeta(Slugify(tag), tag,
        OperationEntry(operationId.s, operationId.s, operationLabel, UpperStr(httpMethod), path,
          texts.0, texts.1, ui.pathUi, ui.queryUi, ui.bodyUi)))
  }

  // ----- generate_metadata -----

  /** Line 19: the methods that describe an operation. */
  const HttpMethods: set<string> := {"get", "post", "put", "patch", "delete"}

  /** An operation found while walking the paths (line 549-556). */
  datatype Candidate = Candidate(path: string, httpMethod: string, pathItem: Dict, operation: Dict)

  /** Line 552-556: the members of a path item whose lower-cased key is an
      HTTP method and whose value is a dict, in order. `members` is the part
      of `pathItem` still to be walked. */
  function OperationsOf(path: string, pathItem: Dict, members: Dict): (r: seq<Candidate>)
    ensures forall c :: c in r <==>
      && c.path == path && c.pathItem == pathItem
      && LowerStr(c.httpMethod) in HttpMethods
      && Member(c.httpMethod, Obj(c.operation)) in members
    decreases |members|
  {
    if |members| == 0 then []
    else
      var m := members[0];
      assert members == [m] + members[1..];
      (if LowerStr(m.key) in HttpMethods && m.value.Obj? then [Candidate(path, m.key, pathItem, m.value.members)] else [])
      + OperationsOf(path, pathItem, members[1..])
  }

  /** Line 549-556: the operations of every path item that is a dict, path
      by path. */
  function CandidatesOf(paths: Dict): (r: seq<Candidate>)
    ensures forall c :: c in r <==>
      && Member(c.path, Obj(c.pathItem)) in paths
      && LowerStr(c.httpMethod) in HttpMethods
      && Member(c.httpMethod, Obj(c.operation)) in c.pathItem
    decreases |paths|
  {
    if |paths| == 0 then []
    else
      var m := paths[0];
      assert paths == [m] + paths[1..];
      (if m.value.Obj? then OperationsOf(m.key, m.value.members, m.value.members) else [])
      + CandidatesOf(paths[1..])
  }

  /** Walking a path item's members in two pieces yields the first piece's
      operations before the second's: the walk keeps member order. */
  lemma {:induction false} OperationsOfAppend(path: string, pathItem: Dict, a: Dict, b: Dict)
    ensures OperationsOf(path, pathItem, a + b) == OperationsOf(path, pathItem, a) + OperationsOf(path, pathItem, b)
    decreases |a|
  {
    if |a| > 0 {
      assert (a + b)[0] == a[0];
      assert (a + b)[1..] == a[1..] + b;
      OperationsOfAppend(path, pathItem, a[1..], b);
    } else {
      assert a + b == b;
    }
  }

  /** Walking the paths in two pieces yields the first piece's operations
      before the second's: candidates come in document order. */
  lemma {:induction false} CandidatesOfAppend(a: Dict, b: Dict)
    ensures CandidatesOf(a + b) == CandidatesOf(a) + CandidatesOf(b)
    decreases |a|
  {
    if |a| > 0 {
      assert (a + b)[0] == a[0];
      assert (a + b)[1..] == a[1..] + b;
      CandidatesOfAppend(a[1..], b);
    } else {
      assert a + b == b;
    }
  }

  /** Line 549: the document's `paths`. A missing key walks nothing; a value
      that is not a dict (`null` included) cannot be iterated as one and
      raises. */
  function PathsOf(document: Dict): (r: Result<Dict>)
    ensures Lookup(document, "paths").None? ==> r == Ok([])
    ensures r.Err? <==> Lookup(document, "paths").Some? && !Lookup(document, "paths").value.Obj?
    ensures r.Ok? && Lookup(document, "paths").Some? ==> Lookup(document, "paths") == Some(Obj(r.value))
  {
    match Lookup(document, "paths")
    case None => Ok([])
    case Some(Obj(members)) => Ok(members)
    case Some(_) => Err(WrongType("paths is not an object"))
  }

  /** The metadata of one candidate: `build_operation_meta` applied to it. */
  function Meta(spec: Json, fuel: nat, c: Candidate): Result<OperationMeta> {
    BuildOperationMeta(spec, c.path, c.httpMethod, c.pathItem, c.operation, fuel)
  }

  function MetaOf(spec: Json, fuel: nat): Candidate -> Result<OperationMeta> {
    (c: Candidate) => Meta(spec, fuel, c)
  }

  /** One resource of the output: its slug, its label and its operations. */
  datatype Resource = Resource(resourceValue: string, resourceLabel: string, operations: seq<OperationEntry>)

  function ValuesOf(rs: seq<Resource>): (r: seq<string>)
    ensures |r| == |rs| && forall i :: 0 <= i < |rs| ==> r[i] == rs[i].resourceValue
  {
    seq(|rs|, i requires 0 <= i < |rs| => rs[i].resourceValue)
  }

  function ResourceValueOf(r: Resource): string {
    r.resourceValue
  }

  function ResourceLabelOf(r: Resource): string {
    r.resourceLabel
  }

  function OperationLabelOf(e: OperationEntry): string {
    e.operationLabel
  }

  /** The number of operations over all resources. */
  function TotalOps(rs: seq<Resource>): nat {
    if |rs| == 0 then 0 else |rs[0].operations| + TotalOps(rs[1..])
  }

  /** The position of the resource with slug `v`, or `|rs|` when none has it. */
  function IndexOfValue(rs: seq<Resource>, v: string): (k: nat)
    ensures k <= |rs|
    ensures k < |rs| ==> rs[k].resourceValue == v
    ensures k == |rs| <==> v !in ValuesOf(rs)
    decreases |rs|
  {
    if |rs| == 0 then 0
    else if rs[0].resourceValue == v then 0
    else
      ValuesOfMember(rs, v);
      1 + IndexOfValue(rs[1..], v)
  }

  lemma ValuesOfMember(rs: seq<Resource>, v: string)
    requires |rs| > 0
    ensures v in ValuesOf(rs) <==> v == rs[0].resourceValue || v in ValuesOf(rs[1..])
  {
    ValuesOfCons(rs);
  }

  lemma ValuesOfCons(rs: seq<Resource>)
    requires |rs| > 0
    ensures ValuesOf(rs) == [rs[0].resourceValue] + ValuesOf(rs[1..])
  {
  }

  /** Line 566-582: the operation joins the resource of its slug, which is created, with
      this operation's label, the first time the slug is seen. */
  function Group(rs: seq<Resource>, m: OperationMeta): (r: seq<Resource>)
  {
    var k := IndexOfValue(rs, m.resourceValue);
    if k < |rs| then rs[k := rs[k].(operations := rs[k].operations + [m.entry])]
    else rs + [Resource(m.resourceValue, m.resourceLabel, [m.entry])]
  }

  /** The resources after the metadata of `ms` has been grouped in order. */
  function Grouped(ms: seq<OperationMeta>): seq<Resource>
    decreases |ms|
  {
    if |ms| == 0 then [] else Group(Grouped(ms[..|ms| - 1]), ms[|ms| - 1])
  }

  // Reference definitions of what grouping should produce.

  /** The entries of the metadata with slug `v`, in order. */
  function EntriesWith(ms: seq<OperationMeta>, v: string): seq<OperationEntry> {
    if |ms| == 0 then []
    else (if ms[0].resourceValue == v then [ms[0].entry] else []) + EntriesWith(ms[1..], v)
  }

  /** The label of the first metadata with slug `v`. */
  function FirstLabel(ms: seq<OperationMeta>, v: string): Option<string> {
    if |ms| == 0 then None
    else if ms[0].resourceValue == v then Some(ms[0].resourceLabel)
    else FirstLabel(ms[1..], v)
  }

  lemma {:induction false} EntriesWithSnoc(ms: seq<OperationMeta>, m: OperationMeta, v: string)
    ensures EntriesWith(ms + [m], v) == EntriesWith(ms, v) + (if m.resourceValue == v then [m.entry] else [])
    decreases |ms|
  {
    if |ms| == 0 {
      assert ms + [m] == [m];
    } else {
      var all := ms + [m];
      assert all[0] == ms[0] && all[1..] == ms[1..] + [m];
      EntriesWithSnoc(ms[1..], m, v);
      var head := if ms[0].resourceValue == v then [ms[0].entry] else [];
      assert EntriesWith(all, v) == head + EntriesWith(ms[1..] + [m], v);
      assert EntriesWith(ms, v) == head + EntriesWith(ms[1..], v);
    }
  }

  lemma {:induction false} FirstLabelSnoc(ms: seq<OperationMeta>, m: OperationMeta, v: string)
    ensures FirstLabel(ms + [m], v) ==
      if FirstLabel(ms, v).Some? then FirstLabel(ms, v)
      else if m.resourceValue == v then Some(m.resourceLabel)
      else None
    decreases |ms|
  {
    if |ms| == 0 {
      assert ms + [m] == [m];
    } else {
      assert (ms + [m])[1..] == ms[1..] + [m];
      FirstLabelSnoc(ms[1..], m, v);
    }
  }

  /** A slug without a first label has no entries either. */
  lemma {:induction false} NoLabelNoEntries(ms: seq<OperationMeta>, v: string)
    requires FirstLabel(ms, v).None?
    ensures EntriesWith(ms, v) == []
    decreases |ms|
  {
    if |ms| > 0 {
      NoLabelNoEntries(ms[1..], v);
    }
  }

  lemma {:induction false} TotalOpsAppend(a: seq<Resource>, b: seq<Resource>)
    ensures TotalOps(a + b) == TotalOps(a) + TotalOps(b)
    decreases |a|
  {
    if |a| == 0 {
      assert a + b == b;
    } else {
      assert (a + b)[0] == a[0] && (a + b)[1..] == a[1..] + b;
      TotalOpsAppend(a[1..], b);
    }
  }

  lemma TotalOpsUpdate(rs: seq<Resource>, k: nat, x: Resource)
    requires k < |rs|
    ensures TotalOps(rs[k := x]) + |rs[k].operations| == TotalOps(rs) + |x.operations|
  {
    assert rs == rs[..k] + [rs[k]] + rs[k + 1..];
    assert rs[k := x] == rs[..k] + [x] + rs[k + 1..];
    TotalOpsAppend(rs[..k] + [rs[k]], rs[k + 1..]);
    TotalOpsAppend(rs[..k], [rs[k]]);
    TotalOpsAppend(rs[..k] + [x], rs[k + 1..]);
    TotalOpsAppend(rs[..k], [x]);
  }

  /** What holds of the resources after grouping `ms`: one resource per
      slug, each holding exactly that slug's entries in order under the
      label its first operation brought, every slug represented, and every
      operation counted once. */
  ghost predicate Fits(x: Resource, ms: seq<OperationMeta>) {
    && x.operations == EntriesWith(ms, x.resourceValue)
    && FirstLabel(ms, x.resourceValue) == Some(x.resourceLabel)
  }

  ghost predicate GroupInvariant(rs: seq<Resource>, ms: seq<OperationMeta>) {
    && DistinctBy(rs, ResourceValueOf)
    && (forall x :: x in rs ==> Fits(x, ms))
    && (forall v :: FirstLabel(ms, v).Some? ==> v in ValuesOf(rs))
    && TotalOps(rs) == |ms|
  }

  /** A resource whose slug differs from the new operation's still fits. */
  lemma OtherStillFits(x: Resource, ms: seq<OperationMeta>, m: OperationMeta)
    requires Fits(x, ms) && x.resourceValue != m.resourceValue
    ensures Fits(x, ms + [m])
  {
    EntriesWithSnoc(ms, m, x.resourceValue);
    FirstLabelSnoc(ms, m, x.resourceValue);
  }

  /** The new slugs after `m` are the old ones and `m`'s. */
  lemma LabelsAfter(ms: seq<OperationMeta>, m: OperationMeta, v: string)
    requires FirstLabel(ms + [m], v).Some?
    ensures FirstLabel(ms, v).Some? || v == m.resourceValue
  {
    FirstLabelSnoc(ms, m, v);
  }

  /** Changing only operations keeps the slugs, hence their distinctness. */
  lemma SameValuesDistinct(rs: seq<Resource>, r: seq<Resource>)
    requires DistinctBy(rs, ResourceValueOf) && ValuesOf(r) == ValuesOf(rs)
    ensures DistinctBy(r, ResourceValueOf)
  {
    forall i, j | 0 <= i < j < |r|
      ensures ResourceValueOf(r[i]) != ResourceValueOf(r[j])
    {
      assert ValuesOf(r)[i] == ValuesOf(rs)[i] && ValuesOf(r)[j] == ValuesOf(rs)[j];
    }
  }

  lemma ExistingFits(rs: seq<Resource>, ms: seq<OperationMeta>, m: OperationMeta, k: nat)
    requires DistinctBy(rs, ResourceValueOf) && forall x :: x in rs ==> Fits(x, ms)
    requires k < |rs| && rs[k].resourceValue == m.resourceValue
    ensures forall x :: x in rs[k := rs[k].(operations := rs[k].operations + [m.entry])] ==> Fits(x, ms + [m])
  {
    var y := rs[k].(operations := rs[k].operations + [m.entry]);
    var r := rs[k := y];
    assert rs[k] in rs;
    EntriesWithSnoc(ms, m, m.resourceValue);
    FirstLabelSnoc(ms, m, m.resourceValue);
    assert Fits(y, ms + [m]);
    forall x | x in r
      ensures Fits(x, ms + [m])
    {
      var j :| 0 <= j < |r| && r[j] == x;
      if j != k {
        assert rs[j] in rs;
        assert ResourceValueOf(rs[j]) != ResourceValueOf(rs[k]);
        OtherStillFits(x, ms, m);
      }
    }
  }

  lemma GroupIntoExisting(rs: seq<Resource>, ms: seq<OperationMeta>, m: OperationMeta)
    requires GroupInvariant(rs, ms)
    requires IndexOfValue(rs, m.resourceValue) < |rs|
    ensures GroupInvariant(Group(rs, m), ms + [m])
  {
    var k := IndexOfValue(rs, m.resourceValue);
    var y := rs[k].(operations := rs[k].operations + [m.entry]);
    var r := rs[k := y];
    assert r == Group(rs, m);
    assert ValuesOf(r) == ValuesOf(rs);
    SameValuesDistinct(rs, r);
    ExistingFits(rs, ms, m, k);
    forall v | FirstLabel(ms + [m], v).Some?
      ensures v in ValuesOf(r)
    {
      LabelsAfter(ms, m, v);
    }
    TotalOpsUpdate(rs, k, y);
  }

  /** The resources appended after a distinct list with a fresh slug stay distinct. */
  lemma AppendFreshDistinct(rs: seq<Resource>, z: Resource)
    requires DistinctBy(rs, ResourceValueOf) && z.resourceValue !in ValuesOf(rs)
    ensures DistinctBy(rs + [z], ResourceValueOf)
  {
    var r := rs + [z];
    forall i, j | 0 <= i < j < |r|
      ensures ResourceValueOf(r[i]) != ResourceValueOf(r[j])
    {
      assert r[i] == rs[i];
      if j == |rs| {
        assert ValuesOf(rs)[i] == r[i].resourceValue;
      } else {
        assert r[j] == rs[j];
      }
    }
  }

  /** After a new resource `z` for `m`'s slug, every resource fits. */
  lemma AppendFreshFits(rs: seq<Resource>, ms: seq<OperationMeta>, m: OperationMeta, z: Resource)
    requires forall x :: x in rs ==> Fits(x, ms)
    requires m.resourceValue !in ValuesOf(rs) && z.resourceValue == m.resourceValue
    requires Fits(z, ms + [m])
    ensures forall x :: x in rs + [z] ==> Fits(x, ms + [m])
  {
    forall x | x in rs + [z]
      ensures Fits(x, ms + [m])
    {
      if x != z {
        assert x in rs;
        var j :| 0 <= j < |rs| && rs[j] == x;
        assert ValuesOf(rs)[j] == x.resourceValue;
        OtherStillFits(x, ms, m);
      }
    }
  }

  /** After a new resource for `m`'s slug, every slug seen has its resource. */
  lemma AppendFreshCovers(rs: seq<Resource>, ms: seq<OperationMeta>, m: OperationMeta, z: Resource)
    requires forall v :: FirstLabel(ms, v).Some? ==> v in ValuesOf(rs)
    requires z.resourceValue == m.resourceValue
    ensures forall v :: FirstLabel(ms + [m], v).Some? ==> v in ValuesOf(rs + [z])
  {
    var r := rs + [z];
    forall v | FirstLabel(ms + [m], v).Some?
      ensures v in ValuesOf(r)
    {
      LabelsAfter(ms, m, v);
      if v != m.resourceValue {
        var j :| 0 <= j < |rs| && ValuesOf(rs)[j] == v;
        assert ValuesOf(r)[j] == v;
      } else {
        assert ValuesOf(r)[|rs|] == v;
      }
    }
  }

  lemma GroupIntoNew(rs: seq<Resource>, ms: seq<OperationMeta>, m: OperationMeta)
    requires GroupInvariant(rs, ms)
    requires IndexOfValue(rs, m.resourceValue) == |rs|
    ensures GroupInvariant(Group(rs, m), ms + [m])
  {
    var z := Resource(m.resourceValue, m.resourceLabel, [m.entry]);
    assert rs + [z] == Group(rs, m);
    assert FirstLabel(ms, m.resourceValue).None?;
    NoLabelNoEntries(ms, m.resourceValue);
    EntriesWithSnoc(ms, m, m.resourceValue);
    FirstLabelSnoc(ms, m, m.resourceValue);
    assert Fits(z, ms + [m]);
    AppendFreshFits(rs, ms, m, z);
    AppendFreshDistinct(rs, z);
    AppendFreshCovers(rs, ms, m, z);
    TotalOpsAppend(rs, [z]);
  }

  /** Grouping meets the reference definitions after every operation. */
  lemma {:induction false} GroupedSpec(ms: seq<OperationMeta>)
    ensures GroupInvariant(Grouped(ms), ms)
    decreases |ms|
  {
    if |ms| > 0 {
      var init := ms[..|ms| - 1];
      var m := ms[|ms| - 1];
      assert ms == init + [m];
      GroupedSpec(init);
      if IndexOfValue(Grouped(init), m.resourceValue) < |Grouped(init)| {
        GroupIntoExisting(Grouped(init), init, m);
      } else {
        GroupIntoNew(Grouped(init), init, m);
      }
    }
  }

  // ----- sorting and the whole document -----

  lemma {:induction false} TotalOpsInsert(x: Resource, ys: seq<Resource>, key: Resource -> string)
    requires SortedBy(ys, key)
    ensures TotalOps(InsertBy(x, ys, key)) == |x.operations| + TotalOps(ys)
    decreases |ys|
  {
    if |ys| == 0 {
      assert InsertBy(x, ys, key) == [x];
    } else if Less(key(x), key(ys[0])) {
      var r := [x] + ys;
      assert r[0] == x && r[1..] == ys;
    } else {
      TotalOpsInsert(x, ys[1..], key);
      var r := [ys[0]] + InsertBy(x, ys[1..], key);
      assert r[0] == ys[0] && r[1..] == InsertBy(x, ys[1..], key);
    }
  }

  /** Sorting the resources moves operations between positions only. */
  lemma {:induction false} TotalOpsSort(xs: seq<Resource>, key: Resource -> string)
    ensures TotalOps(SortBy(xs, key)) == TotalOps(xs)
    decreases |xs|
  {
    if |xs| > 0 {
      var init := xs[..|xs| - 1];
      var last := xs[|xs| - 1];
      assert xs == init + [last];
      TotalOpsSort(init, key);
      TotalOpsInsert(last, SortBy(init, key), key);
      TotalOpsAppend(init, [last]);
      assert TotalOps([last]) == |last.operations|;
    }
  }

  lemma {:induction false} TotalOpsPointwise(a: seq<Resource>, b: seq<Resource>)
    requires |a| == |b| && forall i :: 0 <= i < |a| ==> |a[i].operations| == |b[i].operations|
    ensures TotalOps(a) == TotalOps(b)
    decreases |a|
  {
    if |a| > 0 {
      TotalOpsPointwise(a[1..], b[1..]);
    }
  }

  /** Sorting the resources by label keeps what grouping established. */
  lemma SortedKeepsGrouping(rs: seq<Resource>, ms: seq<OperationMeta>)
    requires GroupInvariant(rs, ms)
    ensures GroupInvariant(SortBy(rs, ResourceLabelOf), ms)
  {
    var s := SortBy(rs, ResourceLabelOf);
    SortByDistinct(rs, ResourceLabelOf, ResourceValueOf);
    forall x | x in s
      ensures Fits(x, ms)
    {
      SortByKeepsElements(rs, ResourceLabelOf, x);
    }
    forall v | FirstLabel(ms, v).Some?
      ensures v in ValuesOf(s)
    {
      var j :| 0 <= j < |rs| && ValuesOf(rs)[j] == v;
      SortByKeepsElements(rs, ResourceLabelOf, rs[j]);
      var k :| 0 <= k < |s| && s[k] == rs[j];
      assert ValuesOf(s)[k] == v;
    }
    TotalOpsSort(rs, ResourceLabelOf);
  }

  /** Line 586: each resource's operations sorted by label. */
  function SortOperations(x: Resource): (r: Resource)
    ensures r.resourceValue == x.resourceValue && r.resourceLabel == x.resourceLabel
    ensures multiset(r.operations) == multiset(x.operations)
    ensures SortedBy(r.operations, OperationLabelOf)
  {
    x.(operations := SortBy(x.operations, OperationLabelOf))
  }

  function SortEachOperations(rs: seq<Resource>): (r: seq<Resource>)
    ensures |r| == |rs| && forall i :: 0 <= i < |rs| ==> r[i] == SortOperations(rs[i])
  {
    seq(|rs|, i requires 0 <= i < |rs| => SortOperations(rs[i]))
  }

  /** The output of `generate_metadata`. */
  datatype Metadata = Metadata(resources: seq<Resource>, operationCount: nat)

  /** What the output promises of the operations `ms` it was built from:
      the resources are sorted by label, one per slug, each with exactly the
      operations of its slug sorted by label and the label of the first of
      them; every slug has its resource, and the count is the number of
      operations the resources hold. */
  ghost predicate Describes(out: Metadata, ms: seq<OperationMeta>) {
    && SortedBy(out.resources, ResourceLabelOf)
    && DistinctBy(out.resources, ResourceValueOf)
    && (forall x :: x in out.resources ==>
          && multiset(x.operations) == multiset(EntriesWith(ms, x.resourceValue))
          && SortedBy(x.operations, OperationLabelOf)
          && FirstLabel(ms, x.resourceValue) == Some(x.resourceLabel))
    && (forall v :: FirstLabel(ms, v).Some? ==> v in ValuesOf(out.resources))
    && out.operationCount == |ms| == TotalOps(out.resources)
  }

  /** The final output step (line 584-591) applied to grouped resources. */
  function Assemble(rs: seq<Resource>, count: nat): (r: Metadata)
  {
    Metadata(SortEachOperations(SortBy(rs, ResourceLabelOf)), count)
  }

  lemma AssembleDescribes(ms: seq<OperationMeta>)
    ensures Describes(Assemble(Grouped(ms), |ms|), ms)
  {
    GroupedSpec(ms);
    SortedKeepsGrouping(Grouped(ms), ms);
    SortEachDescribes(SortBy(Grouped(ms), ResourceLabelOf), ms);
  }

  /** Sorting each resource's operations keeps the resources' slugs, their
      order by label and the operation total. */
  lemma SortEachKeepsResources(s: seq<Resource>)
    ensures var out := SortEachOperations(s);
      && ValuesOf(out) == ValuesOf(s)
      && (SortedBy(s, ResourceLabelOf) ==> SortedBy(out, ResourceLabelOf))
      && TotalOps(out) == TotalOps(s)
  {
    var out := SortEachOperations(s);
    assert ValuesOf(out) == ValuesOf(s);
    if SortedBy(s, ResourceLabelOf) {
      forall i, j | 0 <= i < j < |out|
        ensures !Less(ResourceLabelOf(out[j]), ResourceLabelOf(out[i]))
      {
        assert ResourceLabelOf(out[i]) == ResourceLabelOf(s[i]) && ResourceLabelOf(out[j]) == ResourceLabelOf(s[j]);
      }
    }
    TotalOpsPointwise(out, s);
  }

  /** A resource that fits the operations still holds exactly its slug's
      operations once they are sorted, now in label order. */
  lemma SortEachFits(s: seq<Resource>, ms: seq<OperationMeta>)
    requires forall x :: x in s ==> Fits(x, ms)
    ensures forall x :: x in SortEachOperations(s) ==>
      && multiset(x.operations) == multiset(EntriesWith(ms, x.resourceValue))
      && SortedBy(x.operations, OperationLabelOf)
      && FirstLabel(ms, x.resourceValue) == Some(x.resourceLabel)
  {
    var out := SortEachOperations(s);
    forall x | x in out
      ensures multiset(x.operations) == multiset(EntriesWith(ms, x.resourceValue))
      ensures FirstLabel(ms, x.resourceValue) == Some(x.resourceLabel)
    {
      var k :| 0 <= k < |out| && out[k] == x;
      assert s[k] in s;
    }
  }

  /** Sorting each resource's operations keeps the rest of the grouping. */
  lemma SortEachDescribes(s: seq<Resource>, ms: seq<OperationMeta>)
    requires GroupInvariant(s, ms) && SortedBy(s, ResourceLabelOf)
    ensures Describes(Metadata(SortEachOperations(s), |ms|), ms)
  {
    var out := SortEachOperations(s);
    SortEachKeepsResources(s);
    SameValuesDistinct(s, out);
    SortEachFits(s, ms);
  }

  /** The metadata of every operation of the document, in the order
      line 549-556 walks them; the first that raises decides the error. */
  function OperationMetas(document: Dict, fuel: nat): (r: Result<seq<OperationMeta>>)
    ensures PathsOf(document).Err? ==> r.Err?
    ensures PathsOf(document).Ok? ==> r == MapResult(MetaOf(Obj(document), fuel), CandidatesOf(PathsOf(document).value))
  {
    var paths :- PathsOf(document);
    MapResult(MetaOf(Obj(document), fuel), CandidatesOf(paths))
  }

  /** One entry per candidate operation, in document order, each the
      candidate's `build_operation_meta`. */
  lemma OperationMetasEach(document: Dict, fuel: nat)
    requires PathsOf(document).Ok? && OperationMetas(document, fuel).Ok?
    ensures var cs := CandidatesOf(PathsOf(document).value);
      var ms := OperationMetas(document, fuel).value;
      |ms| == |cs| && forall i :: 0 <= i < |cs| ==> Meta(Obj(document), fuel, cs[i]) == Ok(ms[i])
  {
    var cs := CandidatesOf(PathsOf(document).value);
    var f := MetaOf(Obj(document), fuel);
    forall i | 0 <= i < |cs|
      ensures f(cs[i]) == Meta(Obj(document), fuel, cs[i])
    {
    }
  }

  /** On failure the error is that of the first candidate that raises. */
  lemma OperationMetasFirstError(document: Dict, fuel: nat)
    requires PathsOf(document).Ok? && OperationMetas(document, fuel).Err?
    ensures exists i :: FailsFirst(Obj(document), fuel, CandidatesOf(PathsOf(document).value), i, OperationMetas(document, fuel).error)
  {
    var cs := CandidatesOf(PathsOf(document).value);
    var f := MetaOf(Obj(document), fuel);
    var i :| 0 <= i < |cs| && f(cs[i]) == Err(OperationMetas(document, fuel).error)
      && forall j :: 0 <= j < i ==> f(cs[j]).Ok?;
    forall j | 0 <= j <= i
      ensures f(cs[j]) == Meta(Obj(document), fuel, cs[j])
    {
    }
    assert FailsFirst(Obj(document), fuel, cs, i, OperationMetas(document, fuel).error);
  }

  /** Candidate `i` raises `e` and every candidate before it succeeds. */
  predicate FailsFirst(spec: Json, fuel: nat, cs: seq<Candidate>, i: int, e: PyError) {
    && 0 <= i < |cs|
    && Meta(spec, fuel, cs[i]) == Err(e)
    && forall j :: 0 <= j < i ==> Meta(spec, fuel, cs[j]).Ok?
  }

  /** `generate_metadata` (scripts/generate_openapi_meta.py:544-591). The
      metadata of every operation is computed first and then grouped: the
      source interleaves the two, but grouping cannot raise, so the first
      error and the result are the same. */
  function GenerateMetadata(document: Dict, fuel: nat): (r: Result<Metadata>)
    ensures r.Err? <==> OperationMetas(document, fuel).Err?
    ensures r.Ok? ==> Describes(r.value, OperationMetas(document, fuel).value)
  {
    var metas :- OperationMetas(document, fuel);
    AssembleDescribes(metas);
    Ok(Assemble(Grouped(metas), |metas|))
  }
}
