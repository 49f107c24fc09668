/** The parsers behind the three query parameters that get a dedicated UI:
`include` (a list of relation names), `sort` (a choice of orderings) and a
deep-object `filter` (one field per filter key).

Their options are mined from the parameter's description text, its named
`examples` and its schema's `enum`.
 */
module QueryOptions {
  import opened Results
  import opened JsonModel
  import opened Text
  import opened Ordering
  import opened Identifiers
  import opened SchemaInfo
  import opened Resolver

  // ----- tokens in a description -----

  /** Line 164-167: the non-empty texts between pairs of backticks, scanning
      from the left. */
  function BacktickTokens(s: string): (r: seq<string>)
    ensures forall i :: 0 <= i < |r| ==> |r[i]| > 0 && '`' !in r[i]
    decreases |s|
  {
    if |s| == 0 then []
    else if s[0] != '`' then BacktickTokens(s[1..])
    else
      var rest := s[1..];
      var j := IndexOf(rest, '`');
      if j == |rest| then []
      else if j == 0 then BacktickTokens(rest)
      else [rest[..j]] + BacktickTokens(rest[j + 1..])
  }

  /** Each text written in backticks, one after another. */
  function Backticked(ts: seq<string>): string {
    if |ts| == 0 then "" else "`" + ts[0] + "`" + Backticked(ts[1..])
  }

  /** Texts written in backticks are read back as they were written. */
  lemma {:induction false} BacktickTokensOfBackticked(ts: seq<string>)
    requires forall i :: 0 <= i < |ts| ==> |ts[i]| > 0 && '`' !in ts[i]
    ensures BacktickTokens(Backticked(ts)) == ts
  {
    if |ts| > 0 {
      var tail := Backticked(ts[1..]);
      var s := Backticked(ts);
      assert s[0] == '`';
      var rest := s[1..];
      assert rest == ts[0] + ['`'] + tail;
      IndexOfAfter(ts[0], '`', tail);
      assert rest[..|ts[0]|] == ts[0];
      assert rest[|ts[0]| + 1..] == tail;
      BacktickTokensOfBackticked(ts[1..]);
    }
  }

  /** `s` begins with `p` when ASCII letters are compared without case; `p` is
      written in lower case. */
  predicate StartsWithNoCase(s: string, p: string) {
    |p| <= |s| && LowerStr(s[..|p|]) == p
  }

  /** Line 169-173: the text of each `<strong>` element (tag names in any
      case) that holds no other tag. */
  function StrongTokens(s: string): (r: seq<string>)
    ensures forall i :: 0 <= i < |r| ==> |r[i]| > 0 && '<' !in r[i]
    decreases |s|
  {
    if |s| == 0 then []
    else if StartsWithNoCase(s, "<strong>") then
      var rest := s[8..];
      var k := IndexOf(rest, '<');
      if k > 0 && StartsWithNoCase(rest[k..], "</strong>") then [rest[..k]] + StrongTokens(rest[k + 9..])
      else StrongTokens(s[1..])
    else StrongTokens(s[1..])
  }

  lemma LowerStrOfLower(s: string)
    requires forall i :: 0 <= i < |s| ==> !IsUpper(s[i])
    ensures LowerStr(s) == s
  {
  }

  /** The `<strong>` tags are already lower case. */
  lemma StrongTagsLower()
    ensures LowerStr("<strong>") == "<strong>" && LowerStr("</strong>") == "</strong>"
  {
    LowerStrOfLower("<strong>");
    LowerStrOfLower("</strong>");
  }

  /** A `<strong>` element holding plain text yields that text. */
  lemma StrongTokensOfElement(t: string, tail: string)
    requires |t| > 0 && '<' !in t
    ensures StrongTokens("<strong>" + t + "</strong>" + tail) == [t] + StrongTokens(tail)
  {
    var s := "<strong>" + t + "</strong>" + tail;
    assert s[..8] == "<strong>";
    StrongTagsLower();
    var rest := s[8..];
    assert rest == t + ['<'] + ("/strong>" + tail);
    IndexOfAfter(t, '<', "/strong>" + tail);
    assert rest[|t|..][..9] == "</strong>";
    assert rest[..|t|] == t;
    assert rest[|t| + 9..] == tail;
  }

  /** Text without `<` holds no `<strong>` element. */
  lemma {:induction false} StrongTokensNone(s: string)
    requires '<' !in s
    ensures StrongTokens(s) == []
    decreases |s|
  {
    if |s| > 0 {
      if |s| >= 8 {
        assert LowerStr(s[..8])[0] == ToLower(s[0]) != '<';
      }
      assert '<' !in s[1..];
      StrongTokensNone(s[1..]);
    }
  }

  /** Every entry is non-empty, whitespace-normalised text. */
  ghost predicate Cleaned(xs: seq<string>) {
    forall i :: 0 <= i < |xs| ==> xs[i] != "" && IsNormalized(xs[i])
  }

  lemma CleanedAppend(a: seq<string>, b: seq<string>)
    requires Cleaned(a) && Cleaned(b)
    ensures Cleaned(a + b)
  {
    forall i | 0 <= i < |a + b|
      ensures (a + b)[i] != "" && IsNormalized((a + b)[i])
    {
      if i >= |a| {
        assert (a + b)[i] == b[i - |a|];
      }
    }
  }

  lemma CleanedCons(c: string, rest: seq<string>)
    requires c != "" && IsNormalized(c) && Cleaned(rest)
    ensures Cleaned([c] + rest)
  {
    forall i | 0 < i < |[c] + rest|
      ensures ([c] + rest)[i] != "" && IsNormalized(([c] + rest)[i])
    {
      assert ([c] + rest)[i] == rest[i - 1];
    }
  }

  /** Each part normalised, keeping the non-empty results. */
  function CleanAll(parts: seq<string>): (r: seq<string>)
    ensures Cleaned(r)
  {
    if |parts| == 0 then []
    else
      var c := NormalizeSpace(parts[0]);
      if c == "" then CleanAll(parts[1..])
      else
        CleanedCons(c, CleanAll(parts[1..]));
        [c] + CleanAll(parts[1..])
  }

  /** Texts that are already normalised and non-empty come through as they are. */
  lemma CleanAllKeepsClean(parts: seq<string>)
    requires Cleaned(parts)
    ensures CleanAll(parts) == parts
  {
    CleanedAreFixed(parts);
    CleanAllFixed(parts);
  }

  /** Every part is non-empty and left unchanged by normalisation. */
  ghost predicate FixedParts(parts: seq<string>) {
    |parts| == 0 || (parts[0] != "" && NormalizeSpace(parts[0]) == parts[0] && FixedParts(parts[1..]))
  }

  lemma {:induction false} CleanedAreFixed(parts: seq<string>)
    requires Cleaned(parts)
    ensures FixedParts(parts)
  {
    if |parts| > 0 {
      NormalizeSpaceFixesNormalized(parts[0]);
      assert Cleaned(parts[1..]) by {
        assert forall i :: 0 <= i < |parts[1..]| ==> parts[1..][i] == parts[i + 1];
      }
      CleanedAreFixed(parts[1..]);
    }
  }

  lemma {:induction false} CleanAllFixed(parts: seq<string>)
    requires FixedParts(parts)
    ensures CleanAll(parts) == parts
  {
    if |parts| > 0 {
      CleanAllFixed(parts[1..]);
      CleanAllKeepsHead(parts);
    }
  }

  lemma CleanAllKeepsHead(parts: seq<string>)
    requires |parts| > 0 && parts[0] != "" && NormalizeSpace(parts[0]) == parts[0]
    requires CleanAll(parts[1..]) == parts[1..]
    ensures CleanAll(parts) == parts
  {
    CleanAllStep(parts);
    ConsEqual(CleanAll(parts[1..]), CleanAll(parts), parts);
  }

  lemma CleanAllStep(parts: seq<string>)
    requires |parts| > 0 && parts[0] != "" && NormalizeSpace(parts[0]) == parts[0]
    ensures CleanAll(parts) == [parts[0]] + CleanAll(parts[1..])
  {
  }

  lemma ConsEqual<T>(tail: seq<T>, x: seq<T>, y: seq<T>)
    requires |y| > 0 && x == [y[0]] + tail && tail == y[1..]
    ensures x == y
  {
    assert y == [y[0]] + y[1..];
  }

  /** Each token split at the separator, the pieces in order. */
  function SplitAll(tokens: seq<string>, sep: char): seq<string> {
    if |tokens| == 0 then [] else Split(tokens[0], sep) + SplitAll(tokens[1..], sep)
  }

  /** Line 175-185: the comma-separated texts of the examples whose `value` is a
      string. */
  function ExampleTexts(examples: Dict): (r: seq<string>)
    ensures Cleaned(r)
  {
    if |examples| == 0 then []
    else
      var ex := examples[0].value;
      var here :=
        if ex.Obj? && Get(ex.members, "value").Str? then CleanAll(Split(Get(ex.members, "value").s, ','))
        else [];
      here + ExampleTexts(examples[1..])
  }

  // ----- first-seen de-duplication -----

  ghost predicate Distinct(xs: seq<string>) {
    forall i, j :: 0 <= i < j < |xs| ==> xs[i] != xs[j]
  }

  /** Where `x` first occurs in `xs`. */
  function FirstIndex(xs: seq<string>, x: string): (i: nat)
    requires x in xs
    ensures i < |xs| && xs[i] == x && x !in xs[..i]
  {
    if xs[0] == x then 0
    else
      var j := FirstIndex(xs[1..], x);
      assert xs[..j + 1] == [xs[0]] + xs[1..][..j];
      j + 1
  }

  lemma {:induction false} FirstIndexExtend(xs: seq<string>, y: string, x: string)
    requires x in xs
    ensures FirstIndex(xs + [y], x) == FirstIndex(xs, x)
  {
    if xs[0] != x {
      assert (xs + [y])[1..] == xs[1..] + [y];
      FirstIndexExtend(xs[1..], y, x);
    }
  }

  lemma FirstIndexOfNew(xs: seq<string>, y: string)
    requires y !in xs
    ensures FirstIndex(xs + [y], y) == |xs|
  {
    assert forall j :: 0 <= j < |xs| ==> (xs + [y])[j] == xs[j];
  }

  /** The loop at line 187-192: every option once, where it first occurs. */
  function Dedup(xs: seq<string>): (r: seq<string>)
    ensures Distinct(r)
    ensures forall x :: x in r <==> x in xs
    ensures forall i, j :: 0 <= i < j < |r| ==> FirstIndex(xs, r[i]) < FirstIndex(xs, r[j])
    decreases |xs|
  {
    if |xs| == 0 then []
    else
      var init := xs[..|xs| - 1];
      var last := xs[|xs| - 1];
      assert xs == init + [last];
      var prev := Dedup(init);
      forall x | x in init
        ensures FirstIndex(xs, x) == FirstIndex(init, x)
      {
        FirstIndexExtend(init, last, x);
      }
      if last in prev then prev
      else
        FirstIndexOfNew(init, last);
        prev + [last]
  }

  /** A list without repeats is its own de-duplication. */
  lemma {:induction false} DedupOfDistinct(xs: seq<string>)
    requires Distinct(xs)
    ensures Dedup(xs) == xs
    decreases |xs|
  {
    if |xs| > 0 {
      var init := xs[..|xs| - 1];
      assert Distinct(init);
      DedupOfDistinct(init);
      assert xs[|xs| - 1] !in init;
    }
  }

  // ----- include -----

  /** Line 162-185: every candidate option, in the order the source collects
      them: backtick tokens, then `<strong>` tokens split at commas, then the
      comma-separated example values. A description that is a truthy non-string
      makes `re.findall` raise. */
  function IncludeCandidates(parameter: Dict): (r: Result<seq<string>>)
    ensures r.Err? <==> Truthy(Get(parameter, "description")) && !Get(parameter, "description").Str?
    ensures r.Ok? ==> Cleaned(r.value)
  {
    var description :- TextOr(Get(parameter, "description"), "");
    var examples := Get(parameter, "examples");
    var quoted := CleanAll(BacktickTokens(description));
    var strong := CleanAll(SplitAll(StrongTokens(description), ','));
    var fromExamples := if examples.Obj? then ExampleTexts(examples.members) else [];
    CleanedAppend(quoted, strong);
    CleanedAppend(quoted + strong, fromExamples);
    Ok(quoted + strong + fromExamples)
  }

  /** `parse_include_options` (scripts/generate_openapi_meta.py:160-193): the
      candidates, each kept once, in the order they were first seen. */
  function ParseIncludeOptions(parameter: Dict): (r: Result<seq<string>>)
    ensures r.Err? <==> Truthy(Get(parameter, "description")) && !Get(parameter, "description").Str?
    ensures r.Ok? ==> Distinct(r.value)
    ensures r.Ok? ==> Cleaned(r.value)
    ensures r.Ok? ==> forall x :: x in r.value <==> x in IncludeCandidates(parameter).value
    ensures r.Ok? ==> forall i, j :: 0 <= i < j < |r.value| ==>
      FirstIndex(IncludeCandidates(parameter).value, r.value[i]) < FirstIndex(IncludeCandidates(parameter).value, r.value[j])
  {
    var candidates :- IncludeCandidates(parameter);
    var r := Dedup(candidates);
    assert forall i :: 0 <= i < |r| ==> r[i] in candidates;
    Ok(r)
  }

  /** A string description and no examples: the candidates are the
      backticked and the `<strong>` texts. */
  lemma IncludeCandidatesOfDescription(d: string)
    ensures IncludeCandidates([Member("description", Str(d))])
      == Ok(CleanAll(BacktickTokens(d)) + CleanAll(SplitAll(StrongTokens(d), ',')))
  {
    var parameter := [Member("description", Str(d))];
    assert Get(parameter, "description") == Str(d);
    assert Get(parameter, "examples") == Null;
    assert TextOr(Str(d), "") == Ok(d);
    var quoted := CleanAll(BacktickTokens(d));
    var strong := CleanAll(SplitAll(StrongTokens(d), ','));
    assert quoted + strong + [] == quoted + strong;
  }

  /** A description that only lists option names in backticks offers those
      names, in order. */
  lemma IncludeCandidatesOfBackticked(ts: seq<string>)
    requires forall i :: 0 <= i < |ts| ==> ts[i] != "" && IsNormalized(ts[i]) && '`' !in ts[i] && '<' !in ts[i]
    ensures IncludeCandidates([Member("description", Str(Backticked(ts)))]) == Ok(ts)
  {
    var d := Backticked(ts);
    IncludeCandidatesOfDescription(d);
    BacktickTokensOfBackticked(ts);
    assert Cleaned(ts);
    CleanAllKeepsClean(ts);
    assert CleanAll(BacktickTokens(d)) == ts;
    BackticksAdd(ts, '<');
    StrongTokensNone(d);
    var strong := CleanAll(SplitAll(StrongTokens(d), ','));
    assert strong == [];
    assert ts + strong == ts;
  }

  /** Option names written in backticks in the description are read back
      exactly, in order. */
  lemma IncludeOptionsRoundTrip(ts: seq<string>)
    requires Distinct(ts)
    requires forall i :: 0 <= i < |ts| ==> ts[i] != "" && IsNormalized(ts[i]) && '`' !in ts[i] && '<' !in ts[i]
    ensures ParseIncludeOptions([Member("description", Str(Backticked(ts)))]) == Ok(ts)
  {
    var parameter := [Member("description", Str(Backticked(ts)))];
    IncludeCandidatesOfBackticked(ts);
    ParseIncludeOptionsDedups(parameter);
    DedupOfDistinct(ts);
  }

  lemma ParseIncludeOptionsDedups(parameter: Dict)
    requires IncludeCandidates(parameter).Ok?
    ensures ParseIncludeOptions(parameter) == Ok(Dedup(IncludeCandidates(parameter).value))
  {
  }

  /** Backticks add no character other than the backtick. */
  lemma {:induction false} BackticksAdd(ts: seq<string>, c: char)
    requires c != '`'
    requires forall i :: 0 <= i < |ts| ==> c !in ts[i]
    ensures c !in Backticked(ts)
  {
    if |ts| > 0 {
      BackticksAdd(ts[1..], c);
      assert Backticked(ts) == "`" + ts[0] + "`" + Backticked(ts[1..]);
    }
  }

  // ----- sort -----

  /** One entry of a choice list: what the UI shows and what is sent. */
  datatype Choice = Choice(name: string, value: string)

  function Values(cs: seq<Choice>): (r: seq<string>)
    ensures |r| == |cs|
    ensures forall i :: 0 <= i < |cs| ==> r[i] == cs[i].value
  {
    seq(|cs|, i requires 0 <= i < |cs| => cs[i].value)
  }

  /** An example that is used (a dict with a non-null `value`) but whose
      truthy summary is not a string, which `normalize_space` cannot take. */
  predicate SummaryRaises(example: Member) {
    && example.value.Obj?
    && !Get(example.value.members, "value").Null?
    && Truthy(Get(example.value.members, "summary"))
    && !Get(example.value.members, "summary").Str?
  }

  /** Line 200-208 for one named example: skipped unless it is a dict with a
      non-null `value`; its option value is that value as a string; it is
      named by its summary when that is truthy, else by the humanised value
      when the value is not empty, else by the example's key. */
  function ExampleChoice(example: Member): (r: Result<Option<Choice>>)
    ensures r.Err? <==> SummaryRaises(example)
    ensures !example.value.Obj? || Get(example.value.members, "value").Null? ==> r == Ok(None)
    ensures r.Ok? && example.value.Obj? && !Get(example.value.members, "value").Null? ==>
      var value := PyStr(Get(example.value.members, "value"));
      var summary := Get(example.value.members, "summary");
      && r.value.Some?
      && r.value.value.value == value
      && IsNormalized(r.value.value.name)
      && (Truthy(summary) ==> r.value.value.name == NormalizeSpace(summary.s))
      && (!Truthy(summary) && value != "" ==> r.value.value.name == NormalizeSpace(HumanizeIdentifier(value)))
      && (!Truthy(summary) && value == "" ==> r.value.value.name == NormalizeSpace(example.key))
  {
    if !example.value.Obj? then Ok(None)
    else
      var raw := Get(example.value.members, "value");
      if raw.Null? then Ok(None)
      else
        var value := PyStr(raw);
        var summary := Get(example.value.members, "summary");
        if Truthy(summary) then
          if summary.Str? then Ok(Some(Choice(NormalizeSpace(summary.s), value)))
          else Err(WrongType("summary must be a string"))
        else
          var humanized := HumanizeIdentifier(value);
          assert humanized == "" <==> value == "";
          Ok(Some(Choice(NormalizeSpace(if humanized != "" then humanized else example.key), value)))
  }

  /** Some example's summary cannot be normalised. */
  ghost predicate AnyRaises(examples: Dict) {
    exists i :: 0 <= i < |examples| && SummaryRaises(examples[i])
  }

  /** Some example gives the choice `c`. */
  ghost predicate Offers(examples: Dict, c: Choice) {
    exists i :: 0 <= i < |examples| && ExampleChoice(examples[i]) == Ok(Some(c))
  }

  /** The choices the named examples give, in order: the loop raises at the
      first example whose summary cannot be normalised, and otherwise collects
      the option of every example that is not skipped. */
  function ExampleChoices(examples: Dict): (r: Result<seq<Choice>>)
    ensures r.Err? <==> AnyRaises(examples)
    ensures r.Ok? ==> |r.value| <= |examples|
    ensures r.Ok? ==> forall c :: c in r.value <==> Offers(examples, c)
  {
    if |examples| == 0 then Ok([])
    else
      var head := ExampleChoice(examples[0]);
      var rest := ExampleChoices(examples[1..]);
      ExamplesTail(examples);
      if head.Err? then Err(head.error)
      else if rest.Err? then Err(rest.error)
      else
        var mine := if head.value.Some? then [head.value.value] else [];
        OffersTail(examples, mine, rest.value);
        Ok(mine + rest.value)
  }

  lemma ExamplesTail(examples: Dict)
    requires |examples| > 0
    ensures AnyRaises(examples) <==> SummaryRaises(examples[0]) || AnyRaises(examples[1..])
  {
    if AnyRaises(examples) {
      var i :| 0 <= i < |examples| && SummaryRaises(examples[i]);
      if i > 0 {
        assert examples[1..][i - 1] == examples[i];
      }
    }
    if AnyRaises(examples[1..]) {
      var i :| 0 <= i < |examples[1..]| && SummaryRaises(examples[1..][i]);
      assert examples[i + 1] == examples[1..][i];
    }
  }

  lemma OffersTail(examples: Dict, mine: seq<Choice>, rest: seq<Choice>)
    requires |examples| > 0
    requires ExampleChoice(examples[0]).Ok?
    requires mine == if ExampleChoice(examples[0]).value.Some? then [ExampleChoice(examples[0]).value.value] else []
    requires forall c :: c in rest <==> Offers(examples[1..], c)
    ensures forall c :: c in mine + rest <==> Offers(examples, c)
  {
    forall c
      ensures c in mine + rest <==> Offers(examples, c)
    {
      OffersCons(examples, c);
    }
  }

  /** The first example gives `c`, or one of the others does. */
  lemma OffersCons(examples: Dict, c: Choice)
    requires |examples| > 0
    ensures Offers(examples, c) <==> ExampleChoice(examples[0]) == Ok(Some(c)) || Offers(examples[1..], c)
  {
    if Offers(examples, c) {
      var i :| 0 <= i < |examples| && ExampleChoice(examples[i]) == Ok(Some(c));
      if i > 0 {
        assert examples[1..][i - 1] == examples[i];
      }
    }
    if ExampleChoice(examples[0]) == Ok(Some(c)) {
      assert 0 < |examples|;
    }
    if Offers(examples[1..], c) {
      var i :| 0 <= i < |examples[1..]| && ExampleChoice(examples[1..][i]) == Ok(Some(c));
      assert examples[i + 1] == examples[1..][i];
    }
  }

  /** Line 210-217: each `enum` value, stringified, appended unless some
      option already carries that value. */
  function AppendEnum(options: seq<Choice>, enumValues: seq<Json>): (r: seq<Choice>)
    ensures |options| <= |r| && r[..|options|] == options
    decreases |enumValues|
  {
    if |enumValues| == 0 then options
    else
      var value := PyStr(enumValues[0]);
      var next := if value in Values(options) then options else options + [Choice(HumanizeIdentifier(value), value)];
      var r := AppendEnum(next, enumValues[1..]);
      assert r[..|options|] == r[..|next|][..|options|];
      r
  }

  /** The option values after the loop are those before it and the `enum`
      values. */
  lemma {:induction false} AppendEnumValues(options: seq<Choice>, enumValues: seq<Json>, v: string)
    ensures v in Values(AppendEnum(options, enumValues)) <==> v in Values(options) || v in PyStrs(enumValues)
    decreases |enumValues|
  {
    if |enumValues| > 0 {
      var value := PyStr(enumValues[0]);
      var next := if value in Values(options) then options else options + [Choice(HumanizeIdentifier(value), value)];
      AppendEnumValues(next, enumValues[1..], v);
      PyStrsCons(enumValues);
      if value !in Values(options) {
        ValuesSnoc(options, Choice(HumanizeIdentifier(value), value));
      }
    }
  }

  lemma ValuesSnoc(options: seq<Choice>, c: Choice)
    ensures Values(options + [c]) == Values(options) + [c.value]
  {
  }

  /** An appended option carries a value no earlier option has, and is named
      by its humanised value. */
  lemma {:induction false} AppendEnumFresh(options: seq<Choice>, enumValues: seq<Json>, i: nat)
    requires |options| <= i < |AppendEnum(options, enumValues)|
    ensures var r := AppendEnum(options, enumValues);
      r[i].value !in Values(r[..i]) && r[i].name == HumanizeIdentifier(r[i].value)
    decreases |enumValues|
  {
    var value := PyStr(enumValues[0]);
    var next := if value in Values(options) then options else options + [Choice(HumanizeIdentifier(value), value)];
    var r := AppendEnum(options, enumValues);
    assert r == AppendEnum(next, enumValues[1..]);
    if i >= |next| {
      AppendEnumFresh(next, enumValues[1..], i);
    } else {
      var c := Choice(HumanizeIdentifier(value), value);
      assert value !in Values(options) && next == options + [c] && i == |options|;
      assert r[..|next|] == next;
      assert r[i] == r[..|next|][i] == c;
      assert r[..i] == r[..|next|][..i] == options;
    }
  }

  /** `parse_sort_options` (scripts/generate_openapi_meta.py:196-219). */
  function ParseSortOptions(parameter: Dict): (r: Result<seq<Choice>>)
    ensures var examples := Get(parameter, "examples");
      r.Err? <==> examples.Obj? && ExampleChoices(examples.members).Err?
    ensures var examples := Get(parameter, "examples");
      r.Err? <==> examples.Obj? && exists i :: 0 <= i < |examples.members| && SummaryRaises(examples.members[i])
  {
    var examples := Get(parameter, "examples");
    var fromExamples :- if examples.Obj? then ExampleChoices(examples.members) else Ok([]);
    var schema := Get(parameter, "schema");
    if schema.Obj? && Get(schema.members, "enum").Arr? then
      Ok(AppendEnum(fromExamples, Get(schema.members, "enum").items))
    else Ok(fromExamples)
  }

  /** The example-derived options come first and unchanged; each `enum` value
      follows only when its string is new, named by its humanised form; and
      every `enum` value ends up among the option values. */
  lemma SortOptionsOrder(parameter: Dict)
    requires ParseSortOptions(parameter).Ok?
    requires Get(parameter, "schema").Obj? && Get(Get(parameter, "schema").members, "enum").Arr?
    ensures var examples := Get(parameter, "examples");
      var fromExamples := if examples.Obj? then ExampleChoices(examples.members).value else [];
      var r := ParseSortOptions(parameter).value;
      var enumValues := Get(Get(parameter, "schema").members, "enum").items;
      && r[..|fromExamples|] == fromExamples
      && (forall i :: |fromExamples| <= i < |r| ==> r[i].value !in Values(r[..i]))
      && (forall i :: 0 <= i < |enumValues| ==> PyStr(enumValues[i]) in Values(r))
  {
    var examples := Get(parameter, "examples");
    var fromExamples := if examples.Obj? then ExampleChoices(examples.members).value else [];
    var enumValues := Get(Get(parameter, "schema").members, "enum").items;
    var r := ParseSortOptions(parameter).value;
    assert r == AppendEnum(fromExamples, enumValues);
    forall i | |fromExamples| <= i < |r|
      ensures r[i].value !in Values(r[..i])
    {
      AppendEnumFresh(fromExamples, enumValues, i);
    }
    forall i | 0 <= i < |enumValues|
      ensures PyStr(enumValues[i]) in Values(r)
    {
      assert PyStrs(enumValues)[i] == PyStr(enumValues[i]);
      AppendEnumValues(fromExamples, enumValues, PyStr(enumValues[i]));
    }
  }

  // ----- filter -----

  /** One filter field of a deep-object `filter` parameter. */
  datatype FilterField = FilterField(name: string, uiLabel: string, description: string, fieldType: string, example: Json)

  /** Line 236-245: the field type an example value implies. */
  function ExampleFieldType(key: string, example: Json): (r: string)
    ensures EndsWith(key, "_between") ==> r == "betweenDateTime"
    ensures !EndsWith(key, "_between") ==>
      && (r == "boolean" <==> example.Bool?)
      && (r == "integer" <==> example.Int?)
      && (r == "number" <==> example.Float?)
      && (r == "string" <==> !(example.Bool? || example.Int? || example.Float?))
  {
    if EndsWith(key, "_between") then "betweenDateTime"
    else
      match example
      case Bool(_) => "boolean"
      case Int(_) => "integer"
      case Float(_) => "number"
      case _ => "string"
  }

  /** The `fields` dict of `parse_filter_fields`, with its keys listed so that
      they can be sorted. */
  datatype FieldTable = FieldTable(keys: seq<string>, fields: map<string, FilterField>)

  ghost predicate Listed(t: FieldTable) {
    forall k :: k in t.fields <==> k in t.keys
  }

  function EmptyTable(): (t: FieldTable)
    ensures Listed(t) && t.fields == map[]
  {
    FieldTable([], map[])
  }

  /** The field a first example creates. */
  function ExampleField(key: string, summary: string, example: Json): FilterField {
    FilterField(key, HumanizeIdentifier(key), summary, ExampleFieldType(key, example), example)
  }

  /** Line 234-254 for one key of one example's `value`. */
  function AddExampleMember(t: FieldTable, key: string, example: Json, summary: string): (r: FieldTable)
    requires Listed(t)
    ensures Listed(r)
  {
    if key !in t.fields then
      FieldTable(t.keys + [key], t.fields[key := ExampleField(key, summary, example)])
    else if summary != "" && t.fields[key].description == "" then
      FieldTable(t.keys, t.fields[key := t.fields[key].(description := summary)])
    else t
  }

  function AddExampleMembers(t: FieldTable, value: Dict, summary: string): (r: FieldTable)
    requires Listed(t)
    ensures Listed(r)
    decreases |value|
  {
    if |value| == 0 then t
    else AddExampleMembers(AddExampleMember(t, value[0].key, value[0].value, summary), value[1..], summary)
  }

  /** After one example: its keys are added with its summary, and a field with
      an empty description takes the summary when that is not empty. */
  lemma {:induction false} AddExampleMembersFacts(t: FieldTable, value: Dict, summary: string, k: string)
    requires Listed(t)
    decreases |value|
    ensures var r := AddExampleMembers(t, value, summary);
      && (k in r.fields <==> k in t.fields || k in KeysOf(value))
      && (k in t.fields ==>
            r.fields[k] ==
              if k in KeysOf(value) && summary != "" && t.fields[k].description == ""
              then t.fields[k].(description := summary) else t.fields[k])
      && (k !in t.fields && k in KeysOf(value) ==> r.fields[k] == ExampleField(k, summary, Lookup(value, k).value))
  {
    if |value| > 0 {
      var next := AddExampleMember(t, value[0].key, value[0].value, summary);
      AddExampleMemberFacts(t, value[0].key, value[0].value, summary, k);
      AddExampleMembersFacts(next, value[1..], summary, k);
      assert k in KeysOf(value) <==> k == value[0].key || k in KeysOf(value[1..]);
      assert Lookup(value, k) == if k == value[0].key then Some(value[0].value) else Lookup(value[1..], k);
    }
  }

  /** One key of one example: a new key gets its field, a known key keeps its
      field unless it takes the summary, and other keys are untouched. */
  lemma AddExampleMemberFacts(t: FieldTable, key: string, example: Json, summary: string, k: string)
    requires Listed(t)
    ensures var r := AddExampleMember(t, key, example, summary);
      && (k in r.fields <==> k in t.fields || k == key)
      && (k in t.fields ==>
            r.fields[k] ==
              if k == key && summary != "" && t.fields[k].description == ""
              then t.fields[k].(description := summary) else t.fields[k])
      && (k !in t.fields && k == key ==> r.fields[k] == ExampleField(k, summary, example))
  {
  }

  /** The normalised summary of an example, `""` when it has none. */
  function SummaryText(example: Dict): string {
    var t := TextOr(Get(example, "summary"), "");
    if t.Ok? then NormalizeSpace(t.value) else ""
  }

  /** The dict-valued `value` of an example, if it has one. */
  function ExampleValue(example: Json): Option<Dict> {
    if example.Obj? && Get(example.members, "value").Obj? then Some(Get(example.members, "value").members)
    else None
  }

  /** The loop over `examples.values()` at line 225-254. */
  function AddExamples(t: FieldTable, examples: Dict): (r: Result<FieldTable>)
    requires Listed(t)
    ensures r.Ok? ==> Listed(r.value)
    decreases |examples|
  {
    if |examples| == 0 then Ok(t)
    else
      match ExampleValue(examples[0].value)
      case None => AddExamples(t, examples[1..])
      case Some(value) =>
        var summary :- TextOr(Get(examples[0].value.members, "summary"), "");
        AddExamples(AddExampleMembers(t, value, NormalizeSpace(summary)), examples[1..])
  }

  /** The example value of `key` in the first example that has the key. */
  function FirstExample(examples: Dict, key: string): Option<Json> {
    if |examples| == 0 then None
    else
      match ExampleValue(examples[0].value)
      case Some(value) =>
        if key in KeysOf(value) then Lookup(value, key) else FirstExample(examples[1..], key)
      case None => FirstExample(examples[1..], key)
  }

  /** The first non-empty summary among the examples that have `key`. */
  function FirstSummary(examples: Dict, key: string): string {
    if |examples| == 0 then ""
    else
      match ExampleValue(examples[0].value)
      case Some(value) =>
        if key in KeysOf(value) && SummaryText(examples[0].value.members) != "" then
          SummaryText(examples[0].value.members)
        else FirstSummary(examples[1..], key)
      case None => FirstSummary(examples[1..], key)
  }

  /** Across all examples: a key's field is made by the first example that has
      it, and its description is the first non-empty summary among the
      examples that have it. */
  lemma {:induction false} AddExamplesFacts(t: FieldTable, examples: Dict, k: string)
    requires Listed(t)
    decreases |examples|
    requires AddExamples(t, examples).Ok?
    ensures var r := AddExamples(t, examples).value;
      && (k in r.fields <==> k in t.fields || FirstExample(examples, k).Some?)
      && (k in t.fields ==>
            r.fields[k] ==
              if t.fields[k].description == "" && FirstSummary(examples, k) != ""
              then t.fields[k].(description := FirstSummary(examples, k)) else t.fields[k])
      && (k !in t.fields && FirstExample(examples, k).Some? ==>
            r.fields[k] == ExampleField(k, FirstSummary(examples, k), FirstExample(examples, k).value))
  {
    if |examples| > 0 {
      match ExampleValue(examples[0].value)
      case None =>
        AddExamplesFacts(t, examples[1..], k);
      case Some(value) =>
        var summary := NormalizeSpace(TextOr(Get(examples[0].value.members, "summary"), "").value);
        assert summary == SummaryText(examples[0].value.members);
        var next := AddExampleMembers(t, value, summary);
        AddExampleMembersFacts(t, value, summary, k);
        AddExamplesFacts(next, examples[1..], k);
    }
  }

  /** Line 256-270 for one property: a dict-valued property schema becomes a
      field typed by its schema; the description must be text. */
  function AddSchemaProperty(t: FieldTable, key: string, raw: Json): (r: Result<FieldTable>)
    requires Listed(t)
    ensures r.Ok? ==> Listed(r.value)
  {
    if !raw.Obj? then Ok(t)
    else
      var example := Get(raw.members, "example");
      var schemaType := InferSchemaType(raw.members, example);
      var description :- TextOr(Get(raw.members, "description"), "");
      var field := FilterField(key, HumanizeIdentifier(key), NormalizeSpace(description),
        if EndsWith(key, "_between") then "betweenDateTime" else schemaType, example);
      Ok(FieldTable(if key in t.fields then t.keys else t.keys + [key], t.fields[key := field]))
  }

  function AddSchemaProperties(t: FieldTable, properties: Dict): (r: Result<FieldTable>)
    requires Listed(t)
    ensures r.Ok? ==> Listed(r.value)
    decreases |properties|
  {
    if |properties| == 0 then Ok(t)
    else
      var next :- AddSchemaProperty(t, properties[0].key, properties[0].value);
      AddSchemaProperties(next, properties[1..])
  }

  /** The field the property schema `raw` of `key` yields. */
  function SchemaField(key: string, raw: Dict): FilterField
    requires TextOr(Get(raw, "description"), "").Ok?
  {
    var example := Get(raw, "example");
    FilterField(key, HumanizeIdentifier(key), NormalizeSpace(TextOr(Get(raw, "description"), "").value),
      if EndsWith(key, "_between") then "betweenDateTime" else InferSchemaType(raw, example), example)
  }

  /** The last dict-valued definition of `key` among the properties. */
  function LastSchemaDefinition(properties: Dict, key: string): Option<Dict> {
    if |properties| == 0 then None
    else
      var last := properties[|properties| - 1];
      if last.key == key && last.value.Obj? then Some(last.value.members)
      else LastSchemaDefinition(properties[..|properties| - 1], key)
  }

  lemma {:induction false} AddSchemaPropertiesFacts(t: FieldTable, properties: Dict, k: string)
    requires Listed(t)
    requires AddSchemaProperties(t, properties).Ok?
    ensures var r := AddSchemaProperties(t, properties).value;
      && (k in r.fields <==> k in t.fields || LastSchemaDefinition(properties, k).Some?)
      && (LastSchemaDefinition(properties, k).Some? ==>
            && TextOr(Get(LastSchemaDefinition(properties, k).value, "description"), "").Ok?
            && r.fields[k] == SchemaField(k, LastSchemaDefinition(properties, k).value))
      && (LastSchemaDefinition(properties, k).None? && k in t.fields ==> r.fields[k] == t.fields[k])
    decreases |properties|
  {
    if |properties| > 0 {
      var next := AddSchemaProperty(t, properties[0].key, properties[0].value).value;
      AddSchemaPropertiesFacts(next, properties[1..], k);
      LastSchemaDefinitionSplit(properties, k);
    }
  }

  /** The last definition among `properties` is the last one among the tail,
      or else the head's. */
  lemma {:induction false} LastSchemaDefinitionSplit(properties: Dict, k: string)
    requires |properties| > 0
    ensures LastSchemaDefinition(properties, k) ==
      if LastSchemaDefinition(properties[1..], k).Some? then LastSchemaDefinition(properties[1..], k)
      else if properties[0].key == k && properties[0].value.Obj? then Some(properties[0].value.members)
      else None
    decreases |properties|
  {
    if |properties| > 1 {
      var init := properties[..|properties| - 1];
      assert init[1..] == properties[1..][..|properties| - 2];
      assert init[0] == properties[0];
      LastSchemaDefinitionSplit(init, k);
    }
  }

  function Names(fs: seq<FilterField>): (r: seq<string>)
    ensures |r| == |fs|
    ensures forall i :: 0 <= i < |fs| ==> r[i] == fs[i].name
  {
    seq(|fs|, i requires 0 <= i < |fs| => fs[i].name)
  }

  /** Line 272: the collected fields, in increasing order of their keys. */
  function TableFields(t: FieldTable): (r: seq<FilterField>)
    requires Listed(t)
    ensures |r| == |SortedSet(t.keys)|
    ensures forall i :: 0 <= i < |r| ==> r[i] == t.fields[SortedSet(t.keys)[i]]
  {
    var names := SortedSet(t.keys);
    seq(|names|, i requires 0 <= i < |names| => t.fields[names[i]])
  }

  /** Every field of the table is filed under its own name and labelled with
      the humanised name; a `_between` name gets the date-range type. */
  ghost predicate WellNamed(t: FieldTable) {
    forall k :: k in t.fields ==>
      && t.fields[k].name == k
      && t.fields[k].uiLabel == HumanizeIdentifier(k)
      && (EndsWith(k, "_between") ==> t.fields[k].fieldType == "betweenDateTime")
  }

  lemma {:induction false} ExampleTableWellNamed(t: FieldTable, examples: Dict)
    requires Listed(t) && WellNamed(t)
    requires AddExamples(t, examples).Ok?
    ensures WellNamed(AddExamples(t, examples).value)
  {
    var r := AddExamples(t, examples).value;
    forall k | k in r.fields
      ensures r.fields[k].name == k && r.fields[k].uiLabel == HumanizeIdentifier(k)
      ensures EndsWith(k, "_between") ==> r.fields[k].fieldType == "betweenDateTime"
    {
      AddExamplesFacts(t, examples, k);
    }
  }

  lemma SchemaTableWellNamed(properties: Dict)
    requires AddSchemaProperties(EmptyTable(), properties).Ok?
    ensures WellNamed(AddSchemaProperties(EmptyTable(), properties).value)
  {
    var r := AddSchemaProperties(EmptyTable(), properties).value;
    forall k | k in r.fields
      ensures r.fields[k].name == k && r.fields[k].uiLabel == HumanizeIdentifier(k)
      ensures EndsWith(k, "_between") ==> r.fields[k].fieldType == "betweenDateTime"
    {
      AddSchemaPropertiesFacts(EmptyTable(), properties, k);
    }
  }

  /** The fields the examples give, before any fallback. */
  function ExampleTable(parameter: Dict): (r: Result<FieldTable>)
    ensures r.Ok? ==> Listed(r.value) && WellNamed(r.value)
  {
    var examples := Get(parameter, "examples");
    if examples.Obj? then
      var r := AddExamples(EmptyTable(), examples.members);
      assert r.Ok? ==> WellNamed(r.value) by {
        if r.Ok? { ExampleTableWellNamed(EmptyTable(), examples.members); }
      }
      r
    else Ok(EmptyTable())
  }

  /** The fields of the resolved schema's dict-valued properties (line
      256-270), used when the examples define none. */
  function SchemaTable(parameter: Dict, spec: Json, fuel: nat): (r: Result<FieldTable>)
    ensures r.Ok? ==> Listed(r.value) && WellNamed(r.value)
  {
    var schema :- ResolveSchema(spec, Get(parameter, "schema"), fuel);
    var properties := Get(schema, "properties");
    if properties.Obj? then
      var t := AddSchemaProperties(EmptyTable(), properties.members);
      assert t.Ok? ==> WellNamed(t.value) by {
        if t.Ok? { SchemaTableWellNamed(properties.members); }
      }
      t
    else Ok(EmptyTable())
  }

  /** The sorted fields of a well-named table are increasing by name,
      labelled by their names, and typed as date ranges when named so. */
  lemma TableFieldsFacts(t: FieldTable)
    requires Listed(t) && WellNamed(t)
    ensures var r := TableFields(t);
      && StrictlySorted(Names(r))
      && (forall i :: 0 <= i < |r| ==> r[i].uiLabel == HumanizeIdentifier(r[i].name))
      && (forall i :: 0 <= i < |r| ==> EndsWith(r[i].name, "_between") ==> r[i].fieldType == "betweenDateTime")
  {
    var r := TableFields(t);
    assert Names(r) == SortedSet(t.keys);
  }

  /** `parse_filter_fields` (scripts/generate_openapi_meta.py:222-272): the
      fields the examples define, or, when they define none, the fields of the
      resolved schema's properties; sorted by name. */
  function ParseFilterFields(parameter: Dict, spec: Json, fuel: nat): (r: Result<seq<FilterField>>)
    ensures r.Ok? ==> StrictlySorted(Names(r.value))
    ensures r.Ok? ==> forall i :: 0 <= i < |r.value| ==> r.value[i].uiLabel == HumanizeIdentifier(r.value[i].name)
    ensures r.Ok? ==> forall i :: 0 <= i < |r.value| ==>
      EndsWith(r.value[i].name, "_between") ==> r.value[i].fieldType == "betweenDateTime"
  {
    var fromExamples :- ExampleTable(parameter);
    var table :- if fromExamples.keys != [] then Ok(fromExamples) else SchemaTable(parameter, spec, fuel);
    TableFieldsFacts(table);
    Ok(TableFields(table))
  }

  /** When an example defines a field, the fields are exactly the keys the
      examples define; each takes its example and type from the first example
      that has the key, and its description from the first non-empty summary
      among those examples. The schema is not consulted. */
  lemma FilterFieldsFromExamples(parameter: Dict, spec: Json, fuel: nat, k0: string)
    requires ParseFilterFields(parameter, spec, fuel).Ok?
    requires Get(parameter, "examples").Obj?
    requires FirstExample(Get(parameter, "examples").members, k0).Some?
    ensures var examples := Get(parameter, "examples").members;
      var r := ParseFilterFields(parameter, spec, fuel).value;
      && (forall k :: k in Names(r) <==> FirstExample(examples, k).Some?)
      && (forall i :: 0 <= i < |r| ==>
            && FirstExample(examples, r[i].name) == Some(r[i].example)
            && r[i].fieldType == ExampleFieldType(r[i].name, r[i].example)
            && r[i].description == FirstSummary(examples, r[i].name))
  {
    var examples := Get(parameter, "examples").members;
    var t := AddExamples(EmptyTable(), examples).value;
    AddExamplesFacts(EmptyTable(), examples, k0);
    assert t.keys != [];
    var r := ParseFilterFields(parameter, spec, fuel).value;
    assert r == TableFields(t);
    forall k
      ensures k in Names(r) <==> FirstExample(examples, k).Some?
    {
      AddExamplesFacts(EmptyTable(), examples, k);
      NamesOfTable(t, k);
    }
    forall i | 0 <= i < |r|
      ensures FirstExample(examples, r[i].name) == Some(r[i].example)
      ensures r[i].fieldType == ExampleFieldType(r[i].name, r[i].example)
      ensures r[i].description == FirstSummary(examples, r[i].name)
    {
      var k := SortedSet(t.keys)[i];
      AddExamplesFacts(EmptyTable(), examples, k);
    }
  }

  /** A name is among a table's sorted fields exactly when the table has it. */
  lemma NamesOfTable(t: FieldTable, k: string)
    requires Listed(t) && WellNamed(t)
    ensures k in Names(TableFields(t)) <==> k in t.fields
  {
    var r := TableFields(t);
    var names := SortedSet(t.keys);
    if k in t.fields {
      var i :| 0 <= i < |names| && names[i] == k;
      assert Names(r)[i] == k;
    }
  }

  /** When no example defines a field, the fields are the dict-valued
      properties of the resolved schema, each typed by its own schema. */
  lemma FilterFieldsFromSchema(parameter: Dict, spec: Json, fuel: nat)
    requires ParseFilterFields(parameter, spec, fuel).Ok?
    requires Get(parameter, "examples").Obj? ==> forall k :: FirstExample(Get(parameter, "examples").members, k).None?
    ensures var r := ParseFilterFields(parameter, spec, fuel).value;
      var schema := ResolveSchema(spec, Get(parameter, "schema"), fuel);
      && schema.Ok?
      && var properties := Get(schema.value, "properties");
      && (forall k :: k in Names(r) <==> properties.Obj? && LastSchemaDefinition(properties.members, k).Some?)
      && (forall i :: 0 <= i < |r| ==>
            && properties.Obj?
            && var raw := LastSchemaDefinition(properties.members, r[i].name);
            && raw.Some?
            && TextOr(Get(raw.value, "description"), "").Ok?
            && r[i] == SchemaField(r[i].name, raw.value))
  {
    var fromExamples := ExampleTable(parameter).value;
    assert fromExamples.keys == [] by {
      if Get(parameter, "examples").Obj? {
        var examples := Get(parameter, "examples").members;
        if fromExamples.keys != [] {
          var k := fromExamples.keys[0];
          AddExamplesFacts(EmptyTable(), examples, k);
        }
      }
    }
    var schema := ResolveSchema(spec, Get(parameter, "schema"), fuel).value;
    var properties := Get(schema, "properties");
    var r := ParseFilterFields(parameter, spec, fuel).value;
    if properties.Obj? {
      var t := AddSchemaProperties(EmptyTable(), properties.members).value;
      SchemaTableWellNamed(properties.members);
      assert r == TableFields(t);
      forall k
        ensures k in Names(r) <==> LastSchemaDefinition(properties.members, k).Some?
      {
        AddSchemaPropertiesFacts(EmptyTable(), properties.members, k);
        NamesOfTable(t, k);
      }
      forall i | 0 <= i < |r|
        ensures var raw := LastSchemaDefinition(properties.members, r[i].name);
          && raw.Some?
          && TextOr(Get(raw.value, "description"), "").Ok?
          && r[i] == SchemaField(r[i].name, raw.value)
      {
        var k := SortedSet(t.keys)[i];
        AddSchemaPropertiesFacts(EmptyTable(), properties.members, k);
      }
    } else {
      assert r == [];
    }
  }
}
