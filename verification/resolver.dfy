/** `OpenApiResolver`: local `$ref` resolution and `allOf` merging.

`ResolveValue` follows the structure of the value it is given (a reference's
target is copied, not resolved again), so it terminates on its own.
`ResolveSchema` re-resolves the schemas it reaches through `allOf`, `properties`
and `items`, which loops on a cyclic document; it carries a `fuel` bound and
reports `RecursionLimit` when the bound runs out, where Python would raise
`RecursionError`.
 */
module Resolver {
  import opened Results
  import opened JsonModel
  import opened Text
  import opened Ordering

  /** Follows member names from `node` (the loop at line 40-41). */
  function Walk(node: Json, tokens: seq<string>): Result<Json>
  {
    if |tokens| == 0 then Ok(node)
    else
      match node
      case Obj(ms) =>
        (match Lookup(ms, tokens[0])
         case Some(child) => Walk(child, tokens[1..])
         case None => Err(MissingKey(tokens[0])))
      case _ => Err(WrongType("reference through a non-object"))
  }

  /** `resolve_ref` (scripts/generate_openapi_meta.py:36-42). Only references
      into the same document (`#/...`) are supported. */
  function ResolveRef(spec: Json, ref: Json): (r: Result<Json>)
    ensures !ref.Str? ==> r.Err?
    ensures ref.Str? && !StartsWith(ref.s, "#/") ==> r == Err(UnsupportedRef(ref.s))
    ensures r.Ok? ==> ref.Str? && StartsWith(ref.s, "#/")
  {
    if !ref.Str? then Err(WrongType("$ref must be a string"))
    else if !StartsWith(ref.s, "#/") then Err(UnsupportedRef(ref.s))
    else Walk(spec, Split(ref.s[2..], '/'))
  }

  lemma {:induction false} SplitJoin(ks: seq<string>)
    requires |ks| > 0
    requires forall i :: 0 <= i < |ks| ==> '/' !in ks[i]
    ensures Split(Join(ks, '/'), '/') == ks
  {
    if |ks| > 1 {
      var rest := Join(ks[1..], '/');
      var s := ks[0] + ['/'] + rest;
      IndexOfAfter(ks[0], '/', rest);
      assert s[..|ks[0]|] == ks[0];
      assert s[|ks[0]| + 1..] == rest;
      SplitJoin(ks[1..]);
    } else {
      IndexOfAbsent(ks[0], '/');
    }
  }

  /** A reference written as `#/` followed by member names joined with `/`
      (none of them holding `/`) resolves to the node reached by those names. */
  lemma RefRoundTrip(spec: Json, ks: seq<string>)
    requires |ks| > 0
    requires forall i :: 0 <= i < |ks| ==> '/' !in ks[i]
    ensures ResolveRef(spec, Str("#/" + Join(ks, '/'))) == Walk(spec, ks)
  {
    var ref := "#/" + Join(ks, '/');
    assert ref[2..] == Join(ks, '/');
    assert StartsWith(ref, "#/");
    SplitJoin(ks);
  }

  /** `resolve_value` (scripts/generate_openapi_meta.py:44-58). */
  function ResolveValue(spec: Json, v: Json): Result<Json>
    decreases v
  {
    match v
    case Obj(ms) =>
      (match Lookup(ms, "$ref")
       case Some(ref) =>
         var target :- ResolveRef(spec, ref);
         var overlays :- ResolveMembers(spec, ms, true);
         if target.Obj? then Ok(Obj(Update(target.members, overlays)))
         else if |overlays| > 0 then Ok(Obj(overlays))
         else Ok(target)
       case None =>
         var resolved :- ResolveMembers(spec, ms, false);
         Ok(Obj(resolved)))
    case Arr(items) =>
      var resolved :- ResolveItems(spec, items);
      Ok(Arr(resolved))
    case _ => Ok(v)
  }

  /** The members resolved one by one, without `$ref` when `dropRef`. */
  function ResolveMembers(spec: Json, ms: Dict, dropRef: bool): Result<Dict>
    decreases ms
  {
    if |ms| == 0 then Ok([])
    else if dropRef && ms[0].key == "$ref" then ResolveMembers(spec, ms[1..], dropRef)
    else
      var value :- ResolveValue(spec, ms[0].value);
      var rest :- ResolveMembers(spec, ms[1..], dropRef);
      Ok([Member(ms[0].key, value)] + rest)
  }

  function ResolveItems(spec: Json, items: seq<Json>): Result<seq<Json>>
    decreases items
  {
    if |items| == 0 then Ok([])
    else
      var item :- ResolveValue(spec, items[0]);
      var rest :- ResolveItems(spec, items[1..]);
      Ok([item] + rest)
  }

  /** No `$ref` member anywhere in the tree. */
  ghost predicate RefFree(v: Json)
    decreases v
  {
    match v
    case Obj(ms) => "$ref" !in KeysOf(ms) && forall i :: 0 <= i < |ms| ==> RefFree(ms[i].value)
    case Arr(items) => forall i :: 0 <= i < |items| ==> RefFree(items[i])
    case _ => true
  }

  /** Resolution rebuilds a tree without references unchanged. */
  lemma {:induction false} ResolveRefFree(spec: Json, v: Json)
    requires RefFree(v)
    ensures ResolveValue(spec, v) == Ok(v)
    decreases v
  {
    match v
    case Obj(ms) =>
      ResolveMembersRefFree(spec, ms);
    case Arr(items) =>
      ResolveItemsRefFree(spec, items);
    case _ =>
  }

  lemma {:induction false} ResolveMembersRefFree(spec: Json, ms: Dict)
    requires forall i :: 0 <= i < |ms| ==> RefFree(ms[i].value)
    ensures ResolveMembers(spec, ms, false) == Ok(ms)
    decreases ms
  {
    if |ms| > 0 {
      ResolveRefFree(spec, ms[0].value);
      ResolveMembersRefFree(spec, ms[1..]);
      assert ms == [Member(ms[0].key, ms[0].value)] + ms[1..];
    }
  }

  lemma {:induction false} ResolveItemsRefFree(spec: Json, items: seq<Json>)
    requires forall i :: 0 <= i < |items| ==> RefFree(items[i])
    ensures ResolveItems(spec, items) == Ok(items)
    decreases items
  {
    if |items| > 0 {
      ResolveRefFree(spec, items[0]);
      ResolveItemsRefFree(spec, items[1..]);
      assert items == [items[0]] + items[1..];
    }
  }

  /** The overlay keeps exactly the sibling keys (less `$ref`), each bound to
      its resolved value. */
  lemma {:induction false} ResolveMembersLookup(spec: Json, ms: Dict, dropRef: bool, k: string)
    requires ResolveMembers(spec, ms, dropRef).Ok?
    ensures var out := ResolveMembers(spec, ms, dropRef).value;
      && (Lookup(out, k).Some? <==> Lookup(ms, k).Some? && !(dropRef && k == "$ref"))
      && (Lookup(out, k).Some? ==> ResolveValue(spec, Lookup(ms, k).value) == Ok(Lookup(out, k).value))
    decreases ms
  {
    if |ms| > 0 {
      ResolveMembersLookup(spec, ms[1..], dropRef, k);
    }
  }

  lemma {:induction false} ResolveMembersDistinct(spec: Json, ms: Dict, dropRef: bool)
    requires ResolveMembers(spec, ms, dropRef).Ok?
    requires DistinctKeys(ms)
    ensures DistinctKeys(ResolveMembers(spec, ms, dropRef).value)
    decreases ms
  {
    if |ms| > 0 {
      assert DistinctKeys(ms[1..]);
      ResolveMembersDistinct(spec, ms[1..], dropRef);
      var rest := ResolveMembers(spec, ms[1..], dropRef).value;
      if !(dropRef && ms[0].key == "$ref") {
        var out := ResolveMembers(spec, ms, dropRef).value;
        assert out[1..] == rest;
        forall j | 0 <= j < |rest|
          ensures rest[j].key != ms[0].key
        {
          ResolveMembersLookup(spec, ms[1..], dropRef, rest[j].key);
          assert Lookup(rest, rest[j].key).Some?;
          assert rest[j].key in KeysOf(ms[1..]);
          assert ms[0].key !in KeysOf(ms[1..]);
        }
      }
    }
  }

  /** Sibling keys beside `$ref` override the target's members; the other
      members of the target are kept (line 46-51). */
  lemma SiblingsOverrideTarget(spec: Json, ms: Dict, t: Dict)
    requires DistinctKeys(ms)
    requires Lookup(ms, "$ref").Some?
    requires ResolveRef(spec, Lookup(ms, "$ref").value) == Ok(Obj(t))
    requires ResolveValue(spec, Obj(ms)).Ok?
    ensures var r := ResolveValue(spec, Obj(ms)).value;
      && r.Obj?
      && (forall k :: k != "$ref" && Lookup(ms, k).Some? ==>
            Lookup(r.members, k).Some? && ResolveValue(spec, Lookup(ms, k).value) == Ok(Lookup(r.members, k).value))
      && (forall k :: k == "$ref" || Lookup(ms, k).None? ==> Lookup(r.members, k) == Lookup(t, k))
  {
    var overlays := ResolveMembers(spec, ms, true).value;
    ResolveMembersDistinct(spec, ms, true);
    var r := ResolveValue(spec, Obj(ms)).value;
    assert r == Obj(Update(t, overlays));
    forall k
      ensures Lookup(r.members, k) == if k in KeysOf(overlays) then Lookup(overlays, k) else Lookup(t, k)
      ensures Lookup(overlays, k).Some? <==> Lookup(ms, k).Some? && k != "$ref"
      ensures Lookup(overlays, k).Some? ==> ResolveValue(spec, Lookup(ms, k).value) == Ok(Lookup(overlays, k).value)
    {
      LookupUpdate(t, overlays, k);
      ResolveMembersLookup(spec, ms, true, k);
    }
  }

  // ----- allOf merging -----

  /** The running state of `merge_all_of`'s loop. */
  datatype MergeState = MergeState(merged: Dict, required: seq<string>, properties: Dict)

  /** One `key, val` step of the loop at line 101-107. */
  function MergeStep(st: MergeState, m: Member): MergeState {
    if m.key == "required" && m.value.Arr? then
      st.(required := st.required + PyStrs(m.value.items))
    else if m.key == "properties" && m.value.Obj? then
      st.(properties := Update(st.properties, m.value.members))
    else
      st.(merged := Put(st.merged, m.key, m.value))
  }

  /** The loop over a sequence of members, first to last. */
  function MergeMembers(ms: Dict, st: MergeState): MergeState
    decreases |ms|
  {
    if |ms| == 0 then st else MergeStep(MergeMembers(ms[..|ms| - 1], st), ms[|ms| - 1])
  }

  /** The members of all parts, part after part. */
  function Flatten(parts: seq<Dict>): Dict {
    if |parts| == 0 then [] else Flatten(parts[..|parts| - 1]) + parts[|parts| - 1]
  }

  /** `merge_all_of` once every part is resolved (line 109-113): the parts'
      `required` lists joined and sorted without duplicates, their
      `properties` dicts merged, and every other key assigned in turn. */
  function MergeResolved(parts: seq<Dict>): Dict {
    var st := MergeMembers(Flatten(parts), MergeState([], [], []));
    var withRequired :=
      if |st.required| > 0 then Put(st.merged, "required", Arr(StrJsons(SortedSet(st.required))))
      else st.merged;
    if |st.properties| > 0 then Put(withRequired, "properties", Obj(st.properties)) else withRequired
  }

  /** The `required` entries of a member sequence, stringified. */
  function RequiredEntries(ms: Dict): seq<string> {
    if |ms| == 0 then [] else RequiredEntries(ms[..|ms| - 1]) + RequiredOf(ms[|ms| - 1])
  }

  /** The names one member adds to `required` (line 102-103). */
  function RequiredOf(m: Member): seq<string> {
    if m.key == "required" && m.value.Arr? then PyStrs(m.value.items) else []
  }

  lemma MergeStepRequired(st: MergeState, m: Member)
    ensures MergeStep(st, m).required == st.required + RequiredOf(m)
  {
  }

  /** The value the last `properties` dict that defines `k` gives it. */
  function LastPropertyDefinition(ms: Dict, k: string): Option<Json> {
    if |ms| == 0 then None
    else
      var last := ms[|ms| - 1];
      if last.key == "properties" && last.value.Obj? && Lookup(last.value.members, k).Some? then
        Lookup(last.value.members, k)
      else LastPropertyDefinition(ms[..|ms| - 1], k)
  }

  /** Every `properties` dict among the members has distinct keys. */
  ghost predicate PropertyDictsDistinct(ms: Dict) {
    forall i :: 0 <= i < |ms| && ms[i].key == "properties" && ms[i].value.Obj? ==>
      DistinctKeys(ms[i].value.members)
  }

  lemma {:induction false} MergeMembersRequired(ms: Dict, st: MergeState)
    ensures MergeMembers(ms, st).required == st.required + RequiredEntries(ms)
    decreases |ms|
  {
    if |ms| > 0 {
      var init := ms[..|ms| - 1];
      var last := ms[|ms| - 1];
      MergeMembersRequired(init, st);
      var before := MergeMembers(init, st);
      var added := RequiredOf(last);
      assert MergeMembers(ms, st) == MergeStep(before, last);
      MergeStepRequired(before, last);
      assert RequiredEntries(ms) == RequiredEntries(init) + added;
      assert st.required + RequiredEntries(init) + added == st.required + (RequiredEntries(init) + added);
    }
  }

  lemma {:induction false} MergeMembersProperties(ms: Dict, st: MergeState, k: string)
    requires PropertyDictsDistinct(ms)
    ensures Lookup(MergeMembers(ms, st).properties, k) ==
      match LastPropertyDefinition(ms, k)
      case Some(v) => Some(v)
      case None => Lookup(st.properties, k)
    decreases |ms|
  {
    if |ms| > 0 {
      var init := ms[..|ms| - 1];
      var last := ms[|ms| - 1];
      assert PropertyDictsDistinct(init) by {
        forall i | 0 <= i < |init| && init[i].key == "properties" && init[i].value.Obj?
          ensures DistinctKeys(init[i].value.members)
        {
          assert init[i] == ms[i];
        }
      }
      MergeMembersProperties(init, st, k);
      if last.key == "properties" && last.value.Obj? {
        LookupUpdate(MergeMembers(init, st).properties, last.value.members, k);
      }
    }
  }

  /** `j` is a list of strings, increasing, holding exactly the strings among
      `items`. */
  ghost predicate SortedStringsOf(j: Json, items: seq<Json>) {
    && j.Arr?
    && (forall i :: 0 <= i < |j.items| ==> j.items[i].Str?)
    && StrictlySorted(StringsOf(j.items))
    && (forall x :: x in StringsOf(j.items) <==> Str(x) in items)
  }

  /** The merged `required` is the sorted, duplicate-free union of every
      part's `required` entries (line 102-103, 109-110). */
  lemma MergeRequiredIsSortedUnion(parts: seq<Dict>)
    requires |RequiredEntries(Flatten(parts))| > 0
    ensures var m := MergeResolved(parts);
      && Lookup(m, "required").Some?
      && SortedStringsOf(Lookup(m, "required").value, StrJsons(RequiredEntries(Flatten(parts))))
  {
    var ms := Flatten(parts);
    var st := MergeMembers(ms, MergeState([], [], []));
    MergeMembersRequired(ms, MergeState([], [], []));
    assert st.required == RequiredEntries(ms);
    MergedRequiredValue(parts);
    SortedSetJson(st.required);
  }

  /** `sorted(set(xs))` as a JSON list holds exactly the strings of `xs`, in
      increasing order. */
  lemma SortedSetJson(xs: seq<string>)
    ensures SortedStringsOf(Arr(StrJsons(SortedSet(xs))), StrJsons(xs))
  {
    var names := SortedSet(xs);
    StrJsonsStrings(names);
    StrJsonsMembers(xs);
  }

  lemma MergedRequiredValue(parts: seq<Dict>)
    requires |MergeMembers(Flatten(parts), MergeState([], [], [])).required| > 0
    ensures Lookup(MergeResolved(parts), "required") ==
      Some(Arr(StrJsons(SortedSet(MergeMembers(Flatten(parts), MergeState([], [], [])).required))))
  {
  }

  /** A property defined by several parts takes the value of the last of
      them (line 104-105). */
  lemma MergeLaterPropertiesWin(parts: seq<Dict>, k: string)
    requires PropertyDictsDistinct(Flatten(parts))
    requires LastPropertyDefinition(Flatten(parts), k).Some?
    ensures var m := MergeResolved(parts);
      && Lookup(m, "properties").Some?
      && Lookup(m, "properties").value.Obj?
      && Lookup(Lookup(m, "properties").value.members, k) == LastPropertyDefinition(Flatten(parts), k)
  {
    var ms := Flatten(parts);
    var st := MergeMembers(ms, MergeState([], [], []));
    MergeMembersProperties(ms, MergeState([], [], []), k);
    assert |st.properties| > 0;
  }

  // ----- resolve_schema -----

  /** Every property schema is a dict, as `resolve_schema` leaves them. */
  predicate PropertiesResolved(d: Dict) {
    match Lookup(d, "properties")
    case Some(Obj(ps)) => forall i :: 0 <= i < |ps| ==> ps[i].value.Obj?
    case _ => true
  }

  /** `resolve_schema` (scripts/generate_openapi_meta.py:60-90): the members of
      the resolved schema, `{}` when it does not resolve to a dict. Its
      `properties` values and its `items` are resolved schemas in turn. */
  function ResolveSchema(spec: Json, schema: Json, fuel: nat): (r: Result<Dict>)
    ensures !Truthy(schema) ==> r == Ok([])
    ensures r.Ok? ==> PropertiesResolved(r.value)
    decreases fuel, 0, 0
  {
    if !Truthy(schema) then Ok([])
    else if fuel == 0 then Err(RecursionLimit)
    else
      var resolved :- ResolveValue(spec, schema);
      if !resolved.Obj? then Ok([])
      else
        var withAllOf :- ApplyAllOf(spec, resolved.members, fuel - 1);
        var withProperties :- ResolvePropertiesOf(spec, withAllOf, fuel - 1);
        ResolveItemsOf(spec, withProperties, fuel - 1)
  }

  /** Line 67-79: a schema with an `allOf` list becomes the merge of its
      parts, overlaid with its own sibling keys. */
  function ApplyAllOf(spec: Json, d: Dict, fuel: nat): (r: Result<Dict>)
    ensures !(Lookup(d, "allOf").Some? && Lookup(d, "allOf").value.Arr?) ==> r == Ok(d)
    decreases fuel, 3, 0
  {
    match Lookup(d, "allOf")
    case Some(Arr(items)) =>
      var merged :- MergeAllOf(spec, items, fuel);
      OverlaySiblings(merged, d)
    case _ => Ok(d)
  }

  /** `merge_all_of` (scripts/generate_openapi_meta.py:92-113). */
  function MergeAllOf(spec: Json, items: seq<Json>, fuel: nat): (r: Result<Dict>)
    decreases fuel, 2, 0
  {
    var parts :- ResolveParts(spec, items, fuel);
    Ok(MergeResolved(parts))
  }

  /** Line 97-100: each part resolved as a schema (a non-dict part as `{}`),
      empty results skipped. */
  function ResolveParts(spec: Json, items: seq<Json>, fuel: nat): (r: Result<seq<Dict>>)
    ensures r.Ok? ==> |r.value| <= |items|
    ensures r.Ok? ==> forall i :: 0 <= i < |r.value| ==> |r.value[i]| > 0
    decreases fuel, 1, |items|
  {
    if |items| == 0 then Ok([])
    else
      var part :- ResolveSchema(spec, if items[0].Obj? then items[0] else Obj([]), fuel);
      var rest :- ResolveParts(spec, items[1..], fuel);
      Ok(if |part| == 0 then rest else [part] + rest)
  }

  /** One `key, val` step of the overlay loop at line 69-78. */
  function OverlayStep(merged: Dict, m: Member): Result<Dict> {
    if m.key == "allOf" then Ok(merged)
    else if m.key == "required" && m.value.Arr? then UnionRequired(merged, m.value.items)
    else if m.key == "properties" && m.value.Obj? then ExtendProperties(merged, m.value.members)
    else Ok(Put(merged, m.key, m.value))
  }

  /** Line 69-78: the schema's own keys laid over the merged parts. */
  function OverlaySiblings(merged: Dict, d: Dict): Result<Dict>
    decreases |d|
  {
    if |d| == 0 then Ok(merged)
    else
      var next :- OverlayStep(merged, d[0]);
      OverlaySiblings(next, d[1..])
  }

  /** The `required` list of a dict, `[]` when it has none. */
  function RequiredList(d: Dict): Result<seq<Json>> {
    match Lookup(d, "required")
    case None => Ok([])
    case Some(Arr(xs)) => Ok(xs)
    case Some(_) => Err(WrongType("required is not a list"))
  }

  /** Line 73: the merged `required` names joined with the sibling list,
      without duplicates and in increasing order; sorting a list that mixes
      strings with other values raises. */
  function UnionRequired(merged: Dict, val: seq<Json>): (r: Result<Dict>)
    ensures r.Ok? ==> RequiredList(merged).Ok?
    ensures r.Ok? ==>
      && Lookup(r.value, "required").Some?
      && SortedStringsOf(Lookup(r.value, "required").value, RequiredList(merged).value + val)
    ensures r.Ok? ==> forall k :: k != "required" ==> Lookup(r.value, k) == Lookup(merged, k)
    ensures RequiredList(merged).Ok? ==>
      (r.Ok? <==> forall i :: 0 <= i < |RequiredList(merged).value + val| ==> (RequiredList(merged).value + val)[i].Str?)
  {
    var existing :- RequiredList(merged);
    var all := existing + val;
    if forall i :: 0 <= i < |all| ==> all[i].Str? then
      var names := SortedSet(StringsOf(all));
      StrJsonsStrings(names);
      forall x
        ensures x in names <==> Str(x) in all
      {
        if Str(x) in all {
          var i :| 0 <= i < |all| && all[i] == Str(x);
          assert StringsOf(all)[i] == x;
        }
      }
      Ok(Put(merged, "required", Arr(StrJsons(names))))
    else
      Err(WrongType("required entries must be strings"))
  }

  lemma StrJsonsStrings(xs: seq<string>)
    ensures StringsOf(StrJsons(xs)) == xs
  {
  }

  /** The `properties` dict of a dict, `{}` when it has none that is a dict. */
  function PropertiesOf(d: Dict): Dict {
    match Lookup(d, "properties")
    case Some(Obj(p)) => p
    case _ => []
  }

  /** Line 75-76: the sibling properties laid over the merged `properties`
      dict, which is created empty when missing. */
  function ExtendProperties(merged: Dict, val: Dict): (r: Result<Dict>)
    ensures r.Ok? <==> Lookup(merged, "properties").None? || Lookup(merged, "properties").value.Obj?
    ensures r.Ok? ==> forall k :: k != "properties" ==> Lookup(r.value, k) == Lookup(merged, k)
    ensures r.Ok? ==> Lookup(r.value, "properties") == Some(Obj(Update(PropertiesOf(merged), val)))
  {
    match Lookup(merged, "properties")
    case None => Ok(Put(merged, "properties", Obj(Update([], val))))
    case Some(Obj(p)) => Ok(Put(merged, "properties", Obj(Update(p, val))))
    case Some(_) => Err(WrongType("properties is not a dict"))
  }

  lemma OverlayStepFrame(acc: Dict, m: Member, k: string)
    requires OverlayStep(acc, m).Ok? && k != m.key
    ensures Lookup(OverlayStep(acc, m).value, k) == Lookup(acc, k)
  {
  }

  /** A step's effect on its own key depends on nothing but that key's value. */
  lemma OverlayStepLocal(acc1: Dict, acc2: Dict, m: Member)
    requires Lookup(acc1, m.key) == Lookup(acc2, m.key)
    ensures OverlayStep(acc1, m).Ok? == OverlayStep(acc2, m).Ok?
    ensures OverlayStep(acc1, m).Ok? ==>
      Lookup(OverlayStep(acc1, m).value, m.key) == Lookup(OverlayStep(acc2, m).value, m.key)
  {
    if m.key == "required" && m.value.Arr? {
      assert RequiredList(acc1) == RequiredList(acc2);
    }
  }

  /** With distinct sibling keys, the overlay decides each key on its own:
      a key the schema lacks keeps its merged value, and a key it has gets
      what that key's step makes of the merged value. */
  lemma {:induction false} OverlayLookup(merged: Dict, d: Dict, k: string)
    requires DistinctKeys(d)
    requires OverlaySiblings(merged, d).Ok?
    ensures k !in KeysOf(d) ==> Lookup(OverlaySiblings(merged, d).value, k) == Lookup(merged, k)
    ensures k in KeysOf(d) ==>
      && OverlayStep(merged, Member(k, Get(d, k))).Ok?
      && Lookup(OverlaySiblings(merged, d).value, k) == Lookup(OverlayStep(merged, Member(k, Get(d, k))).value, k)
    decreases |d|
  {
    if |d| > 0 {
      var m := d[0];
      var next := OverlayStep(merged, m).value;
      assert DistinctKeys(d[1..]);
      OverlayLookup(next, d[1..], k);
      if k == m.key {
        assert k !in KeysOf(d[1..]);
        assert Get(d, k) == m.value;
      } else {
        OverlayStepFrame(merged, m, k);
        if k in KeysOf(d[1..]) {
          assert Get(d[1..], k) == Get(d, k);
          OverlayStepLocal(next, merged, Member(k, Get(d, k)));
        }
      }
    }
  }

  /** A sibling key other than `allOf`, a `required` list or a `properties`
      dict replaces whatever the parts gave it (line 77-78). */
  lemma SiblingOverrides(merged: Dict, d: Dict, k: string)
    requires DistinctKeys(d)
    requires OverlaySiblings(merged, d).Ok?
    requires k in KeysOf(d) && k != "allOf"
    requires !(k == "required" && Get(d, k).Arr?) && !(k == "properties" && Get(d, k).Obj?)
    ensures Lookup(OverlaySiblings(merged, d).value, k) == Lookup(d, k)
  {
    OverlayLookup(merged, d, k);
  }

  /** A sibling `required` list is joined with the parts' list, sorted and
      de-duplicated (line 72-73). */
  lemma SiblingRequiredJoins(merged: Dict, d: Dict, val: seq<Json>)
    requires DistinctKeys(d)
    requires OverlaySiblings(merged, d).Ok?
    requires Lookup(d, "required") == Some(Arr(val))
    ensures RequiredList(merged).Ok?
    ensures var out := OverlaySiblings(merged, d).value;
      && Lookup(out, "required").Some?
      && SortedStringsOf(Lookup(out, "required").value, RequiredList(merged).value + val)
  {
    OverlayLookup(merged, d, "required");
  }

  /** A sibling `properties` dict is laid over the parts' properties: its keys
      win, the parts' other properties stay (line 74-76). */
  lemma SiblingPropertiesExtend(merged: Dict, d: Dict, val: Dict, k: string)
    requires DistinctKeys(d) && DistinctKeys(val)
    requires OverlaySiblings(merged, d).Ok?
    requires Lookup(d, "properties") == Some(Obj(val))
    ensures var out := OverlaySiblings(merged, d).value;
      && Lookup(out, "properties").Some?
      && Lookup(out, "properties").value.Obj?
      && Lookup(Lookup(out, "properties").value.members, k) ==
           if k in KeysOf(val) then Lookup(val, k)
           else Lookup(PropertiesOf(merged), k)
  {
    OverlayLookup(merged, d, "properties");
    LookupUpdate(PropertiesOf(merged), val, k);
  }

  /** Line 81-85: each property schema resolved in turn. */
  function ResolvePropertiesOf(spec: Json, d: Dict, fuel: nat): (r: Result<Dict>)
    ensures r.Ok? ==> PropertiesResolved(r.value)
    ensures r.Ok? ==> forall k :: k != "properties" ==> Lookup(r.value, k) == Lookup(d, k)
    decreases fuel, 2, 0
  {
    match Lookup(d, "properties")
    case Some(Obj(ps)) =>
      var resolved :- ResolvePropertyValues(spec, ps, fuel);
      Ok(Put(d, "properties", Obj(resolved)))
    case _ => Ok(d)
  }

  function ResolvePropertyValues(spec: Json, ps: Dict, fuel: nat): (r: Result<Dict>)
    ensures r.Ok? ==> KeysOf(r.value) == KeysOf(ps)
    ensures r.Ok? ==> forall i :: 0 <= i < |r.value| ==> r.value[i].value.Obj?
    decreases fuel, 1, |ps|
  {
    if |ps| == 0 then Ok([])
    else
      var schema :- ResolveSchema(spec, ps[0].value, fuel);
      var rest :- ResolvePropertyValues(spec, ps[1..], fuel);
      Ok([Member(ps[0].key, Obj(schema))] + rest)
  }

  /** Line 87-88: a dict-valued `items` resolved as a schema. */
  function ResolveItemsOf(spec: Json, d: Dict, fuel: nat): (r: Result<Dict>)
    ensures r.Ok? ==> forall k :: k != "items" ==> Lookup(r.value, k) == Lookup(d, k)
    ensures r.Ok? && Lookup(d, "items").Some? && Lookup(d, "items").value.Obj? ==>
      Lookup(r.value, "items").Some? && Lookup(r.value, "items").value.Obj?
    decreases fuel, 1, 0
  {
    match Lookup(d, "items")
    case Some(Obj(items)) =>
      var resolved :- ResolveSchema(spec, Obj(items), fuel);
      Ok(Put(d, "items", Obj(resolved)))
    case _ => Ok(d)
  }

  // ----- what resolve_schema promises about allOf -----

  /** One `allOf` part resolved as a schema, a non-dict part as `{}`. */
  function PartOf(spec: Json, fuel: nat): Json -> Result<Dict> {
    (item: Json) => ResolveSchema(spec, if item.Obj? then item else Obj([]), fuel)
  }

  /** The non-empty dicts of a list, in order. */
  function NonEmptyDicts(ds: seq<Dict>): (r: seq<Dict>)
    ensures forall i :: 0 <= i < |r| ==> |r[i]| > 0
    ensures forall x :: x in r <==> x in ds && |x| > 0
  {
    if |ds| == 0 then []
    else (if |ds[0]| > 0 then [ds[0]] else []) + NonEmptyDicts(ds[1..])
  }

  /** Line 97-100: the parts are every item resolved as a schema, in order,
      with the empty results dropped; the first item that fails to resolve
      decides the error. */
  lemma {:induction false} ResolvePartsEach(spec: Json, items: seq<Json>, fuel: nat)
    ensures var all := MapResult(PartOf(spec, fuel), items);
      && (ResolveParts(spec, items, fuel).Err? <==> all.Err?)
      && (all.Err? ==> ResolveParts(spec, items, fuel).error == all.error)
      && (all.Ok? ==> ResolveParts(spec, items, fuel).value == NonEmptyDicts(all.value))
    decreases |items|
  {
    if |items| > 0 {
      var f := PartOf(spec, fuel);
      var first := f(items[0]);
      var rest := MapResult(f, items[1..]);
      ResolvePartsCons(spec, items, fuel);
      ResolvePartsEach(spec, items[1..], fuel);
      MapResultCons(f, items);
      if first.Ok? && rest.Ok? {
        NonEmptyDictsCons(first.value, rest.value);
      }
    }
  }

  lemma ResolvePartsCons(spec: Json, items: seq<Json>, fuel: nat)
    requires |items| > 0
    ensures var first := PartOf(spec, fuel)(items[0]);
      var rest := ResolveParts(spec, items[1..], fuel);
      ResolveParts(spec, items, fuel)
        == if first.Err? then Err(first.error)
           else if rest.Err? then Err(rest.error)
           else Ok((if |first.value| == 0 then [] else [first.value]) + rest.value)
  {
    var first := ResolveSchema(spec, if items[0].Obj? then items[0] else Obj([]), fuel);
    var rest := ResolveParts(spec, items[1..], fuel);
    assert PartOf(spec, fuel)(items[0]) == first;
    if first.Ok? && rest.Ok? {
      assert ResolveParts(spec, items, fuel) == Ok(if |first.value| == 0 then rest.value else [first.value] + rest.value);
      if |first.value| == 0 {
        assert [] + rest.value == rest.value;
      }
    }
  }

  lemma NonEmptyDictsCons(d: Dict, ds: seq<Dict>)
    ensures NonEmptyDicts([d] + ds) == (if |d| == 0 then [] else [d]) + NonEmptyDicts(ds)
  {
    assert ([d] + ds)[1..] == ds;
  }

  /** Line 67-79: a schema with an `allOf` list is the merge of its parts
      with its own keys laid over it; a failing merge is the error. */
  lemma ApplyAllOfMerges(spec: Json, d: Dict, fuel: nat)
    requires Lookup(d, "allOf").Some? && Lookup(d, "allOf").value.Arr?
    ensures var merged := MergeAllOf(spec, Lookup(d, "allOf").value.items, fuel);
      && (merged.Err? ==> ApplyAllOf(spec, d, fuel) == Err(merged.error))
      && (merged.Ok? ==> ApplyAllOf(spec, d, fuel) == OverlaySiblings(merged.value, d))
  {
  }

  /** Line 92-113: the merge fails exactly when resolving a part does, and
      otherwise merges the resolved non-empty parts. */
  lemma MergeAllOfParts(spec: Json, items: seq<Json>, fuel: nat)
    ensures MergeAllOf(spec, items, fuel).Err? <==> ResolveParts(spec, items, fuel).Err?
    ensures MergeAllOf(spec, items, fuel).Ok? ==>
      MergeAllOf(spec, items, fuel).value == MergeResolved(ResolveParts(spec, items, fuel).value)
  {
  }

  /** With nothing merged yet, the loop never leaves a list under
      `required` in the merged dict: lists go to the running name list. */
  lemma {:induction false} MergeMembersRequiredKey(ms: Dict)
    ensures var req := Lookup(MergeMembers(ms, MergeState([], [], [])).merged, "required");
      req.None? || !req.value.Arr?
    decreases |ms|
  {
    if |ms| > 0 {
      MergeMembersRequiredKey(ms[..|ms| - 1]);
    }
  }

  /** The merged `required`: the sorted names when the parts list any,
      otherwise absent or not a list. */
  lemma MergedRequiredShape(parts: seq<Dict>)
    ensures var entries := RequiredEntries(Flatten(parts));
      var req := Lookup(MergeResolved(parts), "required");
      && (|entries| > 0 ==> req == Some(Arr(StrJsons(SortedSet(entries)))))
      && (|entries| == 0 ==> req.None? || !req.value.Arr?)
  {
    var ms := Flatten(parts);
    var st := MergeMembers(ms, MergeState([], [], []));
    MergeMembersRequired(ms, MergeState([], [], []));
    assert st.required == RequiredEntries(ms);
    if |RequiredEntries(ms)| > 0 {
      MergedRequiredValue(parts);
    } else {
      MergeMembersRequiredKey(ms);
      assert Lookup(MergeResolved(parts), "required") == Lookup(st.merged, "required");
    }
  }

  /** Two lists naming the same strings describe the same sorted list. */
  lemma SortedStringsTransfer(j: Json, a: seq<Json>, b: seq<Json>, own: seq<Json>)
    requires SortedStringsOf(j, a + own)
    requires forall x :: Str(x) in a <==> Str(x) in b
    ensures SortedStringsOf(j, b + own)
  {
  }

  /** A `required` entry that is present and lists, sorted and without
      duplicates, exactly the strings among `names`. */
  ghost predicate ListsExactly(req: Option<Json>, names: seq<Json>) {
    req.Some? && SortedStringsOf(req.value, names)
  }

  /** The sibling `required` list of a schema, `[]` when it has none. */
  function OwnRequired(d: Dict): seq<Json> {
    match Lookup(d, "required")
    case Some(Arr(xs)) => xs
    case _ => []
  }

  /** Line 72-73 with line 102-103 and 109-110: after the merge and the
      overlay, `required` lists, sorted and without duplicates, exactly the
      names of every part's `required` list and of the schema's own. */
  lemma OverlayRequiredUnion(parts: seq<Dict>, d: Dict)
    requires DistinctKeys(d)
    requires Lookup(d, "required").None? || Lookup(d, "required").value.Arr?
    requires OverlaySiblings(MergeResolved(parts), d).Ok?
    ensures var entries := RequiredEntries(Flatten(parts));
      var out := OverlaySiblings(MergeResolved(parts), d).value;
      |entries| > 0 || Lookup(d, "required").Some? ==>
        ListsExactly(Lookup(out, "required"), StrJsons(entries) + OwnRequired(d))
  {
    var merged := MergeResolved(parts);
    var entries := RequiredEntries(Flatten(parts));
    MergedRequiredShape(parts);
    if Lookup(d, "required").Some? {
      OwnRequiredJoins(parts, d);
    } else if |entries| > 0 {
      OverlayLookup(merged, d, "required");
      MergeRequiredIsSortedUnion(parts);
      assert StrJsons(entries) + OwnRequired(d) == StrJsons(entries);
    }
  }

  lemma OwnRequiredJoins(parts: seq<Dict>, d: Dict)
    requires DistinctKeys(d)
    requires Lookup(d, "required").Some? && Lookup(d, "required").value.Arr?
    requires OverlaySiblings(MergeResolved(parts), d).Ok?
    ensures var out := OverlaySiblings(MergeResolved(parts), d).value;
      && Lookup(out, "required").Some?
      && SortedStringsOf(Lookup(out, "required").value, StrJsons(RequiredEntries(Flatten(parts))) + OwnRequired(d))
  {
    var merged := MergeResolved(parts);
    var entries := RequiredEntries(Flatten(parts));
    MergedRequiredShape(parts);
    StrJsonsMembers(entries);
    StrJsonsMembers(SortedSet(entries));
    SiblingRequiredJoins(merged, d, OwnRequired(d));
    var out := OverlaySiblings(merged, d).value;
    SortedStringsTransfer(Lookup(out, "required").value, RequiredList(merged).value, StrJsons(entries), OwnRequired(d));
  }

  /** The overlay promise restated for `ApplyAllOf` itself. */
  lemma AllOfRequiredUnion(spec: Json, d: Dict, fuel: nat)
    requires DistinctKeys(d)
    requires Lookup(d, "allOf").Some? && Lookup(d, "allOf").value.Arr?
    requires Lookup(d, "required").None? || Lookup(d, "required").value.Arr?
    requires ApplyAllOf(spec, d, fuel).Ok?
    ensures ResolveParts(spec, Lookup(d, "allOf").value.items, fuel).Ok?
    ensures var entries := RequiredEntries(Flatten(ResolveParts(spec, Lookup(d, "allOf").value.items, fuel).value));
      var out := ApplyAllOf(spec, d, fuel).value;
      |entries| > 0 || Lookup(d, "required").Some? ==>
        ListsExactly(Lookup(out, "required"), StrJsons(entries) + OwnRequired(d))
  {
    ApplyAllOfMerges(spec, d, fuel);
    MergeAllOfParts(spec, Lookup(d, "allOf").value.items, fuel);
    var parts := ResolveParts(spec, Lookup(d, "allOf").value.items, fuel).value;
    assert ApplyAllOf(spec, d, fuel) == OverlaySiblings(MergeResolved(parts), d);
    OverlayRequiredUnion(parts, d);
  }

  /** The same promise for a whole schema: resolving a dict schema with
      `allOf` yields a `required` list of exactly the parts' and the
      schema's own names, sorted and without duplicates; resolving the
      properties and the items (line 81-88) leaves it as it is. */
  lemma ResolveSchemaRequiredUnion(spec: Json, schema: Json, fuel: nat, d: Dict)
    requires Truthy(schema)
    requires ResolveValue(spec, schema) == Ok(Obj(d)) && DistinctKeys(d)
    requires Lookup(d, "allOf").Some? && Lookup(d, "allOf").value.Arr?
    requires Lookup(d, "required").None? || Lookup(d, "required").value.Arr?
    requires ResolveSchema(spec, schema, fuel + 1).Ok?
    ensures ResolveParts(spec, Lookup(d, "allOf").value.items, fuel).Ok?
    ensures var entries := RequiredEntries(Flatten(ResolveParts(spec, Lookup(d, "allOf").value.items, fuel).value));
      var out := ResolveSchema(spec, schema, fuel + 1).value;
      |entries| > 0 || Lookup(d, "required").Some? ==>
        ListsExactly(Lookup(out, "required"), StrJsons(entries) + OwnRequired(d))
  {
    var withAllOf := ApplyAllOf(spec, d, fuel);
    assert withAllOf.Ok?;
    var withProperties := ResolvePropertiesOf(spec, withAllOf.value, fuel);
    assert ResolveSchema(spec, schema, fuel + 1) == ResolveItemsOf(spec, withProperties.value, fuel);
    AllOfRequiredUnion(spec, d, fuel);
  }
}
