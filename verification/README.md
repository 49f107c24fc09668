# OpenAPI UI metadata generator — Dafny model

At build time, `scripts/generate_openapi_meta.py` compiles an OpenAPI document
into the metadata that drives a generic admin UI. It does five things:

- it resolves local `$ref` pointers and merges `allOf` schemas;
- for every `get`/`post`/`put`/`patch`/`delete` operation, it derives
  - a human label;
  - the path fields;
  - the query fields (the `include`, `sort` and `filter` options, and plain
    typed fields);
  - the request-body form (required and optional fields, content type, binary
    upload property);
- it groups the operations into resources by their first tag;
- it sorts the resources and their operations by label;
- it counts the operations.

This project models that compiler as pure Dafny functions over a JSON value
type and proves what the generated metadata promises.

Modules, in dependency order:

| module | file | content |
|---|---|---|
| `Results` | `results.dfy` | `Option`, Python exceptions as `PyError`, `Result` with `:-` propagation, `MapResult` (a list comprehension that stops at the first exception) |
| `JsonModel` | `json.dfy` | JSON values; objects as ordered member lists (Python dict order); `Lookup`/`Get`/`Put`/`Update`; truthiness; `str()` of a value |
| `Text` | `text.dfy` | ASCII case mapping, whitespace collapsing (`normalize_space`), `split` |
| `Ordering` | `ordering.dfy` | string order, insertion sort by key, `sorted(set(...))` |
| `Identifiers` | `identifiers.dfy` | `humanize_identifier`, `operation_label_from_id`, `slugify` |
| `Resolver` | `resolver.dfy` | `resolve_ref`, `resolve_value`, `resolve_schema`, `merge_all_of` |
| `SchemaInfo` | `schema_info.dfy` | `infer_schema_type`, `normalize_required_names` |
| `QueryOptions` | `query_options.dfy` | `parse_include_options`, `parse_sort_options`, `parse_filter_fields` |
| `Body` | `body.dfy` | `parse_body_field`, `build_body_ui` |
| `Query` | `query.dfy` | `build_query_ui` |
| `Metadata` | `metadata.dfy` | `resolve_parameters`, `build_operation_meta`, `generate_metadata` |

Every Python exception the generator can raise is modelled as an `Err`:

- an external `$ref` is `ValueError`, modelled as `UnsupportedRef`;
- a missing pointer token is `KeyError`;
- an operation on a value of the wrong type is `TypeError`/`AttributeError`,
  modelled as `WrongType`;
- indexing an empty string is `IndexError`;
- too deep a recursion is `RecursionError`, modelled as `RecursionLimit`.

When an operation can fail in more than one way, the model reports the error
that Python's evaluation order raises first.

## Model

| member | source | states |
|---|---|---|
| Results.MapResult | scripts/generate_openapi_meta.py:549-564 | a comprehension over a list succeeds exactly when every element does, and then yields the elements' results in order; otherwise it raises the error of the first failing element |
| Text.NormalizeSpace | scripts/generate_openapi_meta.py:116-117 | the result has no leading, trailing or doubled whitespace; it keeps every non-whitespace character in order; it is empty exactly when the input is all whitespace |
| Text.NormalizeSpaceIdempotent | scripts/generate_openapi_meta.py:116-117 | normalising twice equals normalising once |
| Text.NormalizeSpaceFixesNormalized | scripts/generate_openapi_meta.py:116-117 | text that is already normalised comes back unchanged |
| Text.StripKeepsNonSpace | scripts/generate_openapi_meta.py:117 | `strip()` removes whitespace only |
| Text.Split | scripts/generate_openapi_meta.py:40 | `split("/")` yields at least one part, no part contains the separator, and joining the parts gives back the input |
| Text.LowerStr | scripts/generate_openapi_meta.py:138 | no capital letter is left; each capital becomes the small letter it is the capital of, and every other character stays in place |
| Text.UpperStr | scripts/generate_openapi_meta.py:534 | no small letter is left; each small letter becomes its capital, and every other character stays in place |
| JsonModel.Put | scripts/generate_openapi_meta.py:107 | dict assignment makes the key map to the new value and leaves every other key alone |
| JsonModel.PutKeys | scripts/generate_openapi_meta.py:107 | assigning to an existing key keeps the key order; a new key is appended at the end |
| JsonModel.LookupUpdate | scripts/generate_openapi_meta.py:50 | after `dict.update`, a key that the update carries takes its value from the update; every other key keeps its old value |
| JsonModel.TextOr | scripts/generate_openapi_meta.py:516 | `x or default` fed to a string function: a falsy value gives the default, a non-empty string passes through, and a truthy non-string raises |
| Identifiers.ReplaceSeparators | scripts/generate_openapi_meta.py:121 | no `.`, `_` or `-` is left: each becomes a space, and every other character stays in place |
| Identifiers.SplitCamel | scripts/generate_openapi_meta.py:122 | the split keeps every non-space character in order and adds nothing but spaces |
| Identifiers.SplitCamelPlaces | scripts/generate_openapi_meta.py:122 | the split is the input with exactly one space inserted before each capital that follows a lower-case letter or digit: the length grows by the number of such boundaries, each character moves right by the boundaries up to it, and a space sits just before each boundary character |
| Identifiers.HumanizeIdentifier | scripts/generate_openapi_meta.py:120-126 | blank input comes back unchanged; otherwise the label is in sentence case, contains no separator, and has the identifier's significant characters in order, ignoring case |
| Identifiers.CleanedEmpty | scripts/generate_openapi_meta.py:120-124 | the cleaned text is empty exactly when the identifier has nothing but separators and whitespace |
| Identifiers.OperationLabelFromId | scripts/generate_openapi_meta.py:129-134 | an empty id gives "Operation"; an id that is all whitespace raises `IndexError`; otherwise the label is in sentence case with the id's non-space characters, ignoring case |
| Identifiers.Slugify | scripts/generate_openapi_meta.py:137-140 | the result is a slug: lower-case letters and digits in runs joined by single underscores, nothing at either end; it is "general" when the input has no letter or digit, and otherwise keeps the input's letters and digits in order |
| Identifiers.SlugifyIdempotent | scripts/generate_openapi_meta.py:137-140 | slugifying a slug changes nothing |
| Identifiers.SlugifyFixesSlugs | scripts/generate_openapi_meta.py:137-140 | every slug is its own slug |
| Resolver.ResolveRef | scripts/generate_openapi_meta.py:36-42 | a non-local reference raises `ValueError`; success implies the reference starts with `#/` |
| Resolver.RefRoundTrip | scripts/generate_openapi_meta.py:36-42 | the reference `#/` followed by slash-joined tokens walks the document along exactly those tokens |
| Resolver.ResolveRefFree | scripts/generate_openapi_meta.py:44-58 | a value without any `$ref` resolves to itself |
| Resolver.ResolveMembersLookup | scripts/generate_openapi_meta.py:55 | resolving an object keeps its keys and resolves each value in place |
| Resolver.ResolveMembersDistinct | scripts/generate_openapi_meta.py:48 | the sibling overlays of a `$ref` keep distinct keys |
| Resolver.SiblingsOverrideTarget | scripts/generate_openapi_meta.py:46-51 | the keys beside a `$ref` override the target's, resolved themselves; every other key comes from the target |
| Resolver.MergeMembersRequired | scripts/generate_openapi_meta.py:102-103 | the merge collects the `required` entries of all parts in order |
| Resolver.MergeMembersProperties | scripts/generate_openapi_meta.py:104-105 | in the merged `properties`, each key holds the definition of the last part that defines it |
| Resolver.MergeRequiredIsSortedUnion | scripts/generate_openapi_meta.py:92-113 | when any part requires something, the merged `required` is the sorted, duplicate-free union of the parts' names |
| Resolver.MergeLaterPropertiesWin | scripts/generate_openapi_meta.py:92-113 | a property defined by several `allOf` parts takes the last part's definition |
| Resolver.ResolveSchema | scripts/generate_openapi_meta.py:60-90 | a falsy schema gives `{}`; a resolved schema has every property value resolved to an object |
| Resolver.ResolveSchemaRequiredUnion | scripts/generate_openapi_meta.py:60-113 | for a schema with an `allOf` list, the resolved schema's `required` lists exactly the names of the resolved parts' `required` lists and of the schema's own, sorted and without duplicates, whenever either side has any; resolving properties and items leaves it alone |
| Resolver.ApplyAllOf | scripts/generate_openapi_meta.py:67-79 | a schema without an `allOf` list is left as it is |
| Resolver.ApplyAllOfMerges | scripts/generate_openapi_meta.py:67-79 | a schema with an `allOf` list becomes the merge of its parts with its own keys laid over it; a failing merge is the error |
| Resolver.AllOfRequiredUnion | scripts/generate_openapi_meta.py:67-79 | after the `allOf` merge and overlay, `required` lists exactly the parts' names and the schema's own, sorted and without duplicates, whenever either side has any |
| Resolver.ResolveParts | scripts/generate_openapi_meta.py:97-100 | only non-empty resolved parts enter the merge, at most one per item |
| Resolver.ResolvePartsEach | scripts/generate_openapi_meta.py:97-100 | the parts are the items resolved as schemas (a non-dict item as `{}`), in order, with the empty results dropped; the first item that fails to resolve decides the error |
| Resolver.MergeAllOfParts | scripts/generate_openapi_meta.py:92-113 | the merge fails exactly when resolving some part does, and otherwise merges exactly the resolved non-empty parts |
| Resolver.MergedRequiredShape | scripts/generate_openapi_meta.py:102-110 | the merged `required` is the sorted, duplicate-free list of the parts' names when they list any; otherwise it is absent or not a list |
| Resolver.OverlayRequiredUnion | scripts/generate_openapi_meta.py:67-113 | laying the schema's own keys over the merged parts leaves a `required` list of exactly the parts' names and the schema's own, sorted and without duplicates, whenever either side has any |
| Resolver.UnionRequired | scripts/generate_openapi_meta.py:72-73 | a sibling `required` list yields the sorted union with the merged names; every other key is unchanged |
| Resolver.ExtendProperties | scripts/generate_openapi_meta.py:74-76 | sibling `properties` extend the merged ones, or raise when the merged value is not an object; every other key is unchanged |
| Resolver.OverlayLookup | scripts/generate_openapi_meta.py:77-79 | a key the schema does not carry keeps its merged value |
| Resolver.SiblingOverrides | scripts/generate_openapi_meta.py:77-78 | any other sibling key replaces the merged value |
| Resolver.SiblingRequiredJoins | scripts/generate_openapi_meta.py:72-73 | sibling `required` names are added to the merged ones |
| Resolver.SiblingPropertiesExtend | scripts/generate_openapi_meta.py:74-76 | sibling properties win over the merged ones; all other merged properties stay |
| Resolver.ResolvePropertiesOf | scripts/generate_openapi_meta.py:81-85 | only `properties` changes, and every property comes out as an object |
| Resolver.ResolvePropertyValues | scripts/generate_openapi_meta.py:81-85 | each property keeps its name and position |
| Resolver.ResolveItemsOf | scripts/generate_openapi_meta.py:87-88 | only `items` changes, and an object `items` is replaced by its resolution |
| SchemaInfo.InferSchemaType | scripts/generate_openapi_meta.py:143-157 | a string `type` wins; otherwise the type is read off the fallback value's JSON kind, each kind giving exactly one name |
| SchemaInfo.NormalizeRequiredNames | scripts/generate_openapi_meta.py:275-280 | a non-list gives `[]`; a list gives `str()` of each entry, in order |
| SchemaInfo.RequiredStringsKept | scripts/generate_openapi_meta.py:275-280 | a list of strings comes back unchanged |
| QueryOptions.BacktickTokensOfBackticked | scripts/generate_openapi_meta.py:164-167 | reading the back-quoted tokens out of a text of back-quoted tokens gives them back |
| QueryOptions.StrongTokensOfElement | scripts/generate_openapi_meta.py:169-173 | a `<strong>` element contributes exactly its text |
| QueryOptions.Dedup | scripts/generate_openapi_meta.py:187-192 | the result has no duplicates, holds the same values, and keeps the order of first occurrence |
| QueryOptions.DedupOfDistinct | scripts/generate_openapi_meta.py:187-192 | a list without duplicates is unchanged |
| QueryOptions.IncludeCandidates | scripts/generate_openapi_meta.py:160-185 | it raises exactly when the description is a truthy non-string; every candidate is non-empty, normalised text |
| QueryOptions.ParseIncludeOptions | scripts/generate_openapi_meta.py:160-193 | same error condition; the options are the candidates without duplicates, in order of first appearance |
| QueryOptions.IncludeOptionsRoundTrip | scripts/generate_openapi_meta.py:160-193 | a description listing distinct back-quoted names parses back to exactly those names |
| QueryOptions.ExampleChoice | scripts/generate_openapi_meta.py:199-208 | an example that is not a dict, or whose `value` is null, is skipped; it raises exactly when its summary is a truthy non-string; otherwise the option value is `str()` of the value, named by the normalised summary when truthy, else by the humanised value when non-empty, else by the key |
| QueryOptions.ExampleChoices | scripts/generate_openapi_meta.py:199-208 | the loop raises exactly when some example that is used has a truthy non-string summary; otherwise the options are exactly those the examples give, at most one per example |
| QueryOptions.AppendEnum | scripts/generate_openapi_meta.py:210-217 | the existing options stay first and unchanged |
| QueryOptions.AppendEnumValues | scripts/generate_openapi_meta.py:210-217 | a value is an option after the append exactly when it was one before or is an `enum` value |
| QueryOptions.AppendEnumFresh | scripts/generate_openapi_meta.py:210-217 | each appended option is new and named by its humanised value |
| QueryOptions.ParseSortOptions | scripts/generate_openapi_meta.py:196-219 | it raises exactly when `examples` is a dict holding a dict example with a non-null value and a truthy non-string summary; `str()` of a value never raises |
| QueryOptions.SortOptionsOrder | scripts/generate_openapi_meta.py:196-219 | the options from the examples come first and unchanged; each `enum` option after them is new; every `enum` value ends up among the options |
| QueryOptions.ExampleFieldType | scripts/generate_openapi_meta.py:236-245 | a key ending in `_between` is a date-time range; otherwise a boolean, integer or float example gives its type and anything else is a string |
| QueryOptions.ParseFilterFields | scripts/generate_openapi_meta.py:222-272 | the fields come out strictly sorted by name, each labelled with its humanised name, and each `_between` key typed as a date-time range |
| QueryOptions.FilterFieldsFromExamples | scripts/generate_openapi_meta.py:225-254 | with usable examples, the fields are exactly the example keys; each takes its first example value, its type from that value, and its first summary |
| QueryOptions.FilterFieldsFromSchema | scripts/generate_openapi_meta.py:256-270 | without examples, the fields are exactly the schema's properties, and each is built from the last definition of that property |
| Body.ChildPath | scripts/generate_openapi_meta.py:291 | a child's path is its name, prefixed by the parent's path and a dot when there is a parent |
| Body.ParseBodyField | scripts/generate_openapi_meta.py:283-343 | a field carries its name, humanised label, flag and path; an object field's children follow the resolved schema's dict-valued properties in order, each required exactly when the resolved `required` list names it |
| Body.FieldFromResolved | scripts/generate_openapi_meta.py:291-342 | the field is an object field exactly for an object schema and an array field exactly for an array schema; a primitive takes its type and `enum` from the schema; an object's children follow the dict-valued properties, required exactly when named; a truthy non-string description raises |
| Body.InfoOf | scripts/generate_openapi_meta.py:291-301 | the keys every field carries: name, path under the parent, humanised label, required and nullable flags, normalised description; it raises exactly when the description is a truthy non-string |
| Body.ObjectFieldOf | scripts/generate_openapi_meta.py:303-320 | a truthy `properties` value that is not a dict raises; the children follow the dict-valued properties in order, each required exactly when named |
| Body.ArrayItemParsed | scripts/generate_openapi_meta.py:322-334 | an array field's item is the field parsed from the `items` schema (`{}` when not a dict), named `value`, required, under the array's path followed by `[]` |
| Body.ParseChildren | scripts/generate_openapi_meta.py:304-318 | the children follow the object properties in order, and a child is required exactly when its name is listed as required |
| Body.ChooseContentType | scripts/generate_openapi_meta.py:355-356 | JSON is preferred, then multipart, then form-encoded; failing all three, the first content type is chosen |
| Body.FirstBinary | scripts/generate_openapi_meta.py:394-401 | the binary property is the first field with `format: binary`, or none when no field has it |
| Body.WithRequired | scripts/generate_openapi_meta.py:380-383 | it keeps exactly the fields with the given required flag, in their original order |
| Body.WithRequiredSplits | scripts/generate_openapi_meta.py:380-383 | the required and optional fields together number as many as all fields |
| Body.BuildBodyUi | scripts/generate_openapi_meta.py:346-408 | required fields are required and optional fields are not; a binary property implies multipart; a multipart body names its first binary field |
| Body.MediaType | scripts/generate_openapi_meta.py:347-358 | it raises exactly when resolving the request body raises; there is a media type exactly when the body is a dict with a non-empty `content` dict whose chosen entry is a dict; the chosen content type is the preferred one |
| Body.BodyUiCases | scripts/generate_openapi_meta.py:346-363 | no media type or an empty resolved schema gives no form; a media schema that raises makes the form raise; otherwise the form exists, under the chosen content type, exactly when the top-level fields parse |
| Body.BodyUiSplit | scripts/generate_openapi_meta.py:365-392 | the required and optional fields are the top-level fields of the resolved schema with that flag, each in order |
| Body.TopLevelFields | scripts/generate_openapi_meta.py:365-392 | an object schema gives one field per property; any other schema gives a single `value` field |
| Body.BodyFieldsPartition | scripts/generate_openapi_meta.py:365-392 | each top-level property lands among the required fields exactly when the schema requires it, and among the optional fields otherwise |
| Query.RoleOf | scripts/generate_openapi_meta.py:417-445 | only query parameters with a non-empty string name count; `include` and `sort` take their special roles, and so does `filter` with the `deepObject` style |
| Query.DescriptionOf | scripts/generate_openapi_meta.py:454 | the description is normalised text, or `""` when absent; a truthy non-string raises |
| Query.IncludeField | scripts/generate_openapi_meta.py:424-432 | the `include` field lists exactly the parsed include options |
| Query.SortField | scripts/generate_openapi_meta.py:434-441 | the `sort` field holds exactly the parsed sort options; it raises when they or the description do |
| Query.SimpleFieldOf | scripts/generate_openapi_meta.py:447-466 | a plain query field carries its name, humanised label, required flag, inferred type and enum; its example is the schema's when that is truthy, else the parameter's |
| Query.Contribution | scripts/generate_openapi_meta.py:417-466 | each parameter contributes according to its role, and exactly what that role's builder returns |
| Query.Contributions | scripts/generate_openapi_meta.py:417-466 | the parameters are processed in order, and the first failure is the error raised |
| Query.BuildQueryUi | scripts/generate_openapi_meta.py:411-475 | the plain fields come out sorted by label; the result fails exactly when some parameter fails |
| Query.BuildQueryUiSpec | scripts/generate_openapi_meta.py:411-475 | the plain fields are a permutation of every plain parameter's field; the last `include`, `sort` and filter parameter each win |
| Metadata.ResolveParameterList | scripts/generate_openapi_meta.py:484-490 | a `parameters` value that is not a list contributes no parameters; a list contributes what resolving its entries gives |
| Metadata.ResolveEach | scripts/generate_openapi_meta.py:487-490 | it fails exactly when resolving the list fails, with the same error; otherwise it keeps the dict entries of the resolved list, in order |
| Metadata.ResolveEachRefFree | scripts/generate_openapi_meta.py:487-490 | without references, resolving a list keeps exactly its object entries, in order |
| Metadata.ResolveParameters | scripts/generate_openapi_meta.py:478-491 | it succeeds exactly when both levels resolve; the path item's parameters come first, then the operation's |
| Metadata.ResolveParametersRefFree | scripts/generate_openapi_meta.py:478-491 | without references, the path item's object parameters come first, then the operation's |
| Metadata.PathParams | scripts/generate_openapi_meta.py:503-507 | it keeps exactly the path parameters whose name is a non-empty string |
| Metadata.PathFieldOf | scripts/generate_openapi_meta.py:508-519 | a path field carries the name, the humanised label and the required flag; a truthy non-string description raises |
| Metadata.PathFieldsOf | scripts/generate_openapi_meta.py:504-520 | the path fields are built one per path parameter, in order; the list fails exactly when some parameter's description raises |
| Metadata.TagValue | scripts/generate_openapi_meta.py:526-527 | the resource is the first tag, or "General" when the operation has no tag list |
| Metadata.OperationIdOf | scripts/generate_openapi_meta.py:501 | a missing id falls back to the lower-cased method and the slugified path |
| Metadata.OperationUiOf | scripts/generate_openapi_meta.py:502-540 | the path fields are sorted by label and are a permutation of the path parameters' fields; the query and body parts are exactly their builders' results |
| Metadata.BuildOperationMeta | scripts/generate_openapi_meta.py:494-541 | it raises exactly when the forms, the id, its label or the texts raise (a truthy non-string id included); the slug is a slug; the entry carries the tag and its slug, the id and its label, the upper-cased method, the path, the normalised texts, and the path, query and body forms |
| Metadata.OperationTexts | scripts/generate_openapi_meta.py:536-537 | the summary is the normalised summary or `""`; the description is the normalised description, or the summary when the description is falsy; both are normalised; either raises exactly on a truthy non-string |
| Metadata.OperationsOf | scripts/generate_openapi_meta.py:552-556 | the candidates of one path item are exactly its object-valued members whose lower-cased key is an HTTP method |
| Metadata.OperationsOfAppend | scripts/generate_openapi_meta.py:552-556 | a path item's operations come in member order: walking two pieces gives the first piece's before the second's |
| Metadata.CandidatesOf | scripts/generate_openapi_meta.py:549-556 | the candidates are exactly the operations of object-valued path items under those methods |
| Metadata.CandidatesOfAppend | scripts/generate_openapi_meta.py:549-556 | candidates come in document order: walking two pieces of `paths` gives the first piece's before the second's |
| Metadata.PathsOf | scripts/generate_openapi_meta.py:549 | missing `paths` means no operations; a non-object `paths` raises |
| Metadata.GroupedSpec | scripts/generate_openapi_meta.py:566-582 | grouping gives one resource per distinct slug, labelled by the first entry with that slug and holding exactly that slug's operations; the operations are all counted |
| Metadata.TotalOpsSort | scripts/generate_openapi_meta.py:584 | sorting the resources keeps the operation total |
| Metadata.SortOperations | scripts/generate_openapi_meta.py:586 | the operations are sorted by label and are a permutation of the input |
| Metadata.SortedKeepsGrouping | scripts/generate_openapi_meta.py:584-587 | sorting resources and their operations keeps the grouping and the count |
| Metadata.AssembleDescribes | scripts/generate_openapi_meta.py:582-591 | the assembled metadata describes the operations: resources sorted by label with distinct slugs, each holding a sorted permutation of its operations, and a count equal to the number of operations |
| Metadata.OperationMetasEach | scripts/generate_openapi_meta.py:549-564 | on success there is one entry per candidate operation, in document order, each that candidate's `build_operation_meta` result |
| Metadata.OperationMetasFirstError | scripts/generate_openapi_meta.py:549-564 | on failure the error is that of the first candidate whose entry raises, every earlier candidate succeeding |
| Metadata.GenerateMetadata | scripts/generate_openapi_meta.py:544-591 | it fails exactly when building some operation's entry fails; otherwise the result describes all operation entries |

## Left out

- Reading the document and writing the output (`read_openapi_spec`, `main`) are I/O. The model starts from a parsed JSON value and ends with the metadata value.
- `copy.deepcopy` in `resolve_ref` has no counterpart, because values are immutable here.
- The generated TypeScript runtime is not part of this model.
- Case mapping (`lower`, `upper`) and the regular expressions cover ASCII letters and digits only. Whitespace includes the characters Python's `str.isspace` accepts.
- `str()` of a value uses a simplified `repr`. Floats keep their source text, and string escapes cover quotes, backslashes, `\n`, `\r` and `\t` only. Other non-printable characters, such as `\x00`, `\x7f` or `\u200b`, which Python's `repr` escapes, are passed through unchanged.
- Resolver.ResolveSchema: the recursion through `resolve_schema`, `merge_all_of` and `parse_body_field` carries a `fuel` bound. Running out of fuel is the model's `RecursionLimit`, standing in for Python's `RecursionError` on cyclic references. The model does not promise that any fixed fuel matches Python's stack depth.
- Resolver.UnionRequired: `sorted(set(...))` over a `required` list holding non-strings is an error in the model. Python would sort an all-numeric list.
- JsonModel.LookupUpdate, Resolver.SiblingsOverrideTarget, Resolver.OverlayLookup: these assume the JSON objects involved have distinct keys, as a parsed JSON object does.
- Query.BuildQueryUi, Metadata.SortOperations, Metadata.OperationUiOf: `sort` is stable in Python. The model proves the output sorted and a permutation of the input, not the order of ties.
- QueryOptions.ExampleChoices: the contract states which options the examples give and when the loop raises, not the order of the options.
- Metadata.ResolveParameters: path-level and operation-level parameters are concatenated without de-duplication, as the code does.
- Metadata.GenerateMetadata: all operation entries are computed before grouping, where the code interleaves the two. The results agree, because grouping cannot raise.
