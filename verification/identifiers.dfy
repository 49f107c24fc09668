/** The identifier normalisers: display labels from API names, and the slug
used for resource values and fallback operation ids.

Each regular expression of the generator is re-expressed as a recursion over
characters: the camel-case split becomes `SplitCamel`, and the replacement of
non-slug runs becomes `SlugRuns`.
 */
module Identifiers {
  import opened Results
  import opened Text

  predicate IsSeparator(c: char) { c == '.' || c == '_' || c == '-' }

  predicate IsLowerOrDigit(c: char) { IsLower(c) || IsDigit(c) }

  /** The three separator replacements of `humanize_identifier`: no `.`, `_`
      or `-` is left, each of them has become a space, and every other
      character stays in place. */
  function ReplaceSeparators(s: string): (r: string)
    ensures |r| == |s|
    ensures forall i :: 0 <= i < |r| ==> !IsSeparator(r[i])
    ensures forall i :: 0 <= i < |s| && !IsSeparator(s[i]) ==> r[i] == s[i]
    ensures forall i :: 0 <= i < |s| && IsSeparator(s[i]) ==> r[i] == ' '
  {
    seq(|s|, i requires 0 <= i < |s| => if IsSeparator(s[i]) then ' ' else s[i])
  }

  /** The camel-case split of line 122: a space between a lower-case letter or
      digit and the capital that follows it. An upper-case letter cannot start
      a match, so the matches never overlap. */
  function SplitCamel(s: string): (r: string)
    ensures NonSpace(r) == NonSpace(s)
    ensures forall c :: c in r ==> c == ' ' || c in s
    decreases |s|
  {
    if |s| < 2 then s
    else if IsLowerOrDigit(s[0]) && IsUpper(s[1]) then
      var rest := SplitCamel(s[1..]);
      assert NonSpace([s[0], ' '] + rest) == [s[0]] + NonSpace(rest) by {
        assert ([s[0], ' '] + rest)[1..] == [' '] + rest;
        assert ([' '] + rest)[1..] == rest;
      }
      [s[0], ' '] + rest
    else
      var rest := SplitCamel(s[1..]);
      assert ([s[0]] + rest)[1..] == rest;
      [s[0]] + rest
  }

  /** A camel-case boundary before `s[i]`: a lower-case letter or digit
      followed by a capital. */
  predicate CamelBreak(s: string, i: int) {
    0 < i < |s| && IsLowerOrDigit(s[i - 1]) && IsUpper(s[i])
  }

  /** The number of camel-case boundaries before `s[n]`, that is at the
      positions 1 to n - 1. */
  function BreaksBefore(s: string, n: nat): nat
    requires n <= |s|
  {
    if n <= 1 then 0 else BreaksBefore(s, n - 1) + (if CamelBreak(s, n - 1) then 1 else 0)
  }

  /** Counting the boundaries of `s` from its second character on. */
  lemma {:induction false} BreaksBeforeTail(s: string, n: nat)
    requires 1 <= n <= |s|
    ensures BreaksBefore(s, n) == (if n >= 2 && CamelBreak(s, 1) then 1 else 0) + BreaksBefore(s[1..], n - 1)
    decreases n
  {
    if n > 2 {
      BreaksBeforeTail(s, n - 1);
      assert CamelBreak(s[1..], n - 2) == CamelBreak(s, n - 1);
    }
  }

  /** The position `SplitCamel` gives `s[i]`: shifted right by one for every
      boundary up to and including `i`. */
  function Place(s: string, i: nat): nat
    requires i < |s|
  {
    i + BreaksBefore(s, i + 1)
  }

  /** Past the first character, places in `s` are places in its tail, shifted
      by the first character and the space after it, if any. */
  lemma PlaceTail(s: string, i: nat)
    requires 1 <= i < |s|
    ensures Place(s, i) == 1 + (if CamelBreak(s, 1) then 1 else 0) + Place(s[1..], i - 1)
  {
    BreaksBeforeTail(s, i + 1);
  }

  /** Where `SplitCamel` puts each character: `s[i]` moves to `Place(s, i)`, a
      space fills the gap in front of every boundary, and nothing else is
      added. */
  lemma SplitCamelPlaces(s: string)
    ensures |SplitCamel(s)| == |s| + BreaksBefore(s, |s|)
    ensures forall i :: 0 <= i < |s| ==> Place(s, i) < |SplitCamel(s)| && SplitCamel(s)[Place(s, i)] == s[i]
    ensures forall i :: CamelBreak(s, i) ==> SplitCamel(s)[Place(s, i) - 1] == ' '
  {
    SplitCamelLength(s);
    SplitCamelKeeps(s);
    SplitCamelSpaces(s);
  }

  /** One step of `SplitCamel`: the first character, a space when a boundary
      follows it, then the split tail. */
  lemma SplitCamelCons(s: string)
    requires |s| >= 2
    ensures SplitCamel(s) == [s[0]] + (if CamelBreak(s, 1) then [' '] else []) + SplitCamel(s[1..])
  {
  }

  lemma {:induction false} SplitCamelLength(s: string)
    ensures |SplitCamel(s)| == |s| + BreaksBefore(s, |s|)
    decreases |s|
  {
    if |s| >= 2 {
      SplitCamelCons(s);
      SplitCamelLength(s[1..]);
      BreaksBeforeTail(s, |s|);
    }
  }

  lemma {:induction false} SplitCamelKeeps(s: string)
    ensures forall i :: 0 <= i < |s| ==> Place(s, i) < |SplitCamel(s)| && SplitCamel(s)[Place(s, i)] == s[i]
    decreases |s|
  {
    if |s| >= 2 {
      var t := s[1..];
      var rest := SplitCamel(t);
      var pre := [s[0]] + (if CamelBreak(s, 1) then [' '] else []);
      SplitCamelCons(s);
      SplitCamelKeeps(t);
      forall i | 0 <= i < |s|
        ensures Place(s, i) < |SplitCamel(s)| && SplitCamel(s)[Place(s, i)] == s[i]
      {
        if i > 0 {
          assert t[i - 1] == s[i];
          ShiftedPlace(s, i, pre, rest);
        }
      }
    }
  }

  /** A place in the tail, shifted past the first character and its space. */
  lemma ShiftedPlace(s: string, i: nat, pre: string, rest: string)
    requires 1 <= i < |s|
    requires pre == [s[0]] + (if CamelBreak(s, 1) then [' '] else [])
    requires Place(s[1..], i - 1) < |rest|
    ensures Place(s, i) == |pre| + Place(s[1..], i - 1)
    ensures Place(s, i) < |pre + rest| && (pre + rest)[Place(s, i)] == rest[Place(s[1..], i - 1)]
  {
    PlaceTail(s, i);
  }

  lemma {:induction false} SplitCamelSpaces(s: string)
    ensures forall i :: CamelBreak(s, i) ==> Place(s, i) - 1 < |SplitCamel(s)| && SplitCamel(s)[Place(s, i) - 1] == ' '
    decreases |s|
  {
    if |s| >= 2 {
      var t := s[1..];
      var rest := SplitCamel(t);
      var pre := [s[0]] + (if CamelBreak(s, 1) then [' '] else []);
      SplitCamelCons(s);
      SplitCamelSpaces(t);
      forall i | CamelBreak(s, i)
        ensures Place(s, i) - 1 < |SplitCamel(s)| && SplitCamel(s)[Place(s, i) - 1] == ' '
      {
        if i == 1 {
          assert BreaksBefore(s, 2) == 1;
        } else {
          assert CamelBreak(t, i - 1);
          ShiftedSpace(s, i, pre, rest);
        }
      }
    }
  }

  /** The space in front of a boundary of the tail, shifted the same way. */
  lemma ShiftedSpace(s: string, i: nat, pre: string, rest: string)
    requires 2 <= i < |s|
    requires pre == [s[0]] + (if CamelBreak(s, 1) then [' '] else [])
    requires Place(s[1..], i - 1) - 1 < |rest| && rest[Place(s[1..], i - 1) - 1] == ' '
    ensures Place(s, i) - 1 < |pre + rest| && (pre + rest)[Place(s, i) - 1] == ' '
  {
    PlaceTail(s, i);
    var p := Place(s[1..], i - 1) - 1;
    assert (pre + rest)[|pre| + p] == rest[p];
  }

  /** First character upper-cased, the rest lower-cased (`t[0].upper() +
      t[1:].lower()`). */
  function Capitalize(t: string): (r: string)
    requires |t| > 0
    ensures |r| == |t|
    ensures r[0] == ToUpper(t[0])
    ensures forall i :: 1 <= i < |t| ==> r[i] == ToLower(t[i])
  {
    [ToUpper(t[0])] + LowerStr(t[1..])
  }

  /** Case mapping touches letters only, so it keeps every whitespace position,
      and lower-casing the result is lower-casing the input. */
  lemma CapitalizeShape(t: string)
    requires |t| > 0
    ensures forall i :: 0 <= i < |t| ==> (IsSpace(Capitalize(t)[i]) <==> IsSpace(t[i]))
    ensures forall i :: 0 <= i < |t| ==> (Capitalize(t)[i] == ' ' <==> t[i] == ' ')
    ensures LowerStr(Capitalize(t)) == LowerStr(t)
  {
  }

  lemma {:induction false} LowerNonSpace(s: string)
    ensures NonSpace(LowerStr(s)) == LowerStr(NonSpace(s))
  {
    if |s| > 0 {
      LowerNonSpace(s[1..]);
      assert LowerStr(s)[1..] == LowerStr(s[1..]);
      NonSpaceLower(s);
    }
  }

  lemma NonSpaceLower(s: string)
    requires |s| > 0
    ensures LowerStr(NonSpace(s)) == (if IsSpace(s[0]) then "" else [ToLower(s[0])]) + LowerStr(NonSpace(s[1..]))
  {
    var head := if IsSpace(s[0]) then "" else [s[0]];
    assert NonSpace(s) == head + NonSpace(s[1..]);
    LowerStrAppend(head, NonSpace(s[1..]));
    assert LowerStr(head) == if IsSpace(s[0]) then "" else [ToLower(s[0])];
  }

  lemma {:induction false} NonSpaceMembers(s: string, c: char)
    ensures c in NonSpace(s) <==> c in s && !IsSpace(c)
  {
    if |s| > 0 {
      NonSpaceMembers(s[1..], c);
      assert c in s <==> c == s[0] || c in s[1..];
    }
  }

  /** The characters of `value` that survive in a humanised label: neither
      whitespace nor one of `.`, `_`, `-`. */
  function Significant(value: string): string {
    if |value| == 0 then ""
    else
      (if IsSpace(value[0]) || IsSeparator(value[0]) then "" else [value[0]])
      + Significant(value[1..])
  }

  lemma {:induction false} SignificantIsNonSpace(value: string)
    ensures NonSpace(ReplaceSeparators(value)) == Significant(value)
  {
    if |value| > 0 {
      SignificantIsNonSpace(value[1..]);
      assert ReplaceSeparators(value)[1..] == ReplaceSeparators(value[1..]);
    }
  }

  /** True of an identifier in which cleaning leaves nothing: only whitespace
      and the separators `.`, `_`, `-`. */
  predicate IsBlankIdentifier(value: string) {
    forall i :: 0 <= i < |value| ==> IsSpace(value[i]) || IsSeparator(value[i])
  }

  /** The shape of a label built by `Capitalize` over normalised text. */
  ghost predicate IsSentenceCase(r: string) {
    && |r| > 0
    && IsNormalized(r)
    && !IsLower(r[0])
    && (forall i :: 1 <= i < |r| ==> !IsUpper(r[i]))
  }

  /** The label rule shared by `humanize_identifier` and
      `operation_label_from_id` once the text is normalised. */
  lemma CapitalizeNormalized(t: string)
    requires |t| > 0 && IsNormalized(t)
    ensures IsSentenceCase(Capitalize(t))
    ensures LowerStr(NonSpace(Capitalize(t))) == LowerStr(NonSpace(t))
  {
    CapitalizeShape(t);
    var r := Capitalize(t);
    assert SingleSpaced(r) by {
      forall i | 0 <= i < |r| - 1
        ensures !(r[i] == ' ' && r[i + 1] == ' ')
      {
        assert !(t[i] == ' ' && t[i + 1] == ' ');
      }
    }
    LowerNonSpace(r);
    LowerNonSpace(t);
  }

  /** Cleaning leaves nothing exactly when the identifier is blank. */
  lemma CleanedEmpty(value: string)
    ensures NormalizeSpace(SplitCamel(ReplaceSeparators(value))) == "" <==> IsBlankIdentifier(value)
  {
    var replaced := ReplaceSeparators(value);
    SignificantIsNonSpace(value);
    NonSpaceEmpty(replaced);
    NonSpaceEmpty(SplitCamel(replaced));
    if IsBlankIdentifier(value) {
      assert forall i :: 0 <= i < |replaced| ==> IsSpace(replaced[i]);
    } else {
      var k :| 0 <= k < |value| && !IsSpace(value[k]) && !IsSeparator(value[k]);
      assert !IsSpace(replaced[k]);
    }
  }

  /** No separator survives cleaning. */
  lemma CleanedHasNoSeparator(value: string, c: char)
    requires IsSeparator(c)
    ensures c !in NormalizeSpace(SplitCamel(ReplaceSeparators(value)))
  {
    var replaced := ReplaceSeparators(value);
    assert c !in replaced by {
      forall i | 0 <= i < |replaced|
        ensures replaced[i] != c
      {
      }
    }
    var split := SplitCamel(replaced);
    assert c !in split;
    var text := NormalizeSpace(split);
    NonSpaceMembers(split, c);
    NonSpaceMembers(text, c);
  }

  lemma CapitalizeMembers(t: string, c: char)
    requires |t| > 0 && IsSeparator(c) && c !in t
    ensures c !in Capitalize(t)
  {
    forall i | 0 <= i < |t|
      ensures Capitalize(t)[i] != c
    {
      assert t[i] != c;
    }
  }

  /** `humanize_identifier` (scripts/generate_openapi_meta.py:120-126). */
  function HumanizeIdentifier(value: string): (r: string)
    ensures IsBlankIdentifier(value) ==> r == value
    ensures !IsBlankIdentifier(value) ==> IsSentenceCase(r)
    ensures !IsBlankIdentifier(value) ==> forall i :: 0 <= i < |r| ==> !IsSeparator(r[i])
    ensures !IsBlankIdentifier(value) ==> LowerStr(NonSpace(r)) == LowerStr(Significant(value))
  {
    var text := NormalizeSpace(SplitCamel(ReplaceSeparators(value)));
    CleanedEmpty(value);
    if text == "" then value
    else
      CapitalizeNormalized(text);
      SignificantIsNonSpace(value);
      assert forall c :: IsSeparator(c) ==> c !in Capitalize(text) by {
        forall c | IsSeparator(c)
          ensures c !in Capitalize(text)
        {
          CleanedHasNoSeparator(value, c);
          CapitalizeMembers(text, c);
        }
      }
      assert forall i :: 0 <= i < |Capitalize(text)| ==> Capitalize(text)[i] in Capitalize(text);
      Capitalize(text)
  }

  /** `operation_label_from_id` (scripts/generate_openapi_meta.py:129-134).
      A non-empty id made only of whitespace normalises to the empty sentence,
      and `sentence[0]` raises. */
  function OperationLabelFromId(operationId: string): (r: Result<string>)
    ensures operationId == "" ==> r == Ok("Operation")
    ensures r.Err? <==> operationId != "" && forall i :: 0 <= i < |operationId| ==> IsSpace(operationId[i])
    ensures r.Ok? && operationId != "" ==> IsSentenceCase(r.value)
    ensures r.Ok? && operationId != "" ==> LowerStr(NonSpace(r.value)) == LowerStr(NonSpace(operationId))
  {
    if operationId == "" then Ok("Operation")
    else
      var sentence := NormalizeSpace(SplitCamel(operationId));
      NonSpaceEmpty(operationId);
      if sentence == "" then
        NonSpaceEmpty(SplitCamel(operationId));
        Err(EmptyIndex)
      else
        CapitalizeNormalized(sentence);
        Ok(Capitalize(sentence))
  }

  /** A character the slug keeps: `[a-z0-9]`. */
  predicate IsSlugChar(c: char) { IsLower(c) || IsDigit(c) }

  /** The shape of every slug: non-empty, only `[a-z0-9_]`, no `_` at either
      end, never `__`. */
  ghost predicate IsSlug(s: string) {
    && |s| > 0
    && (forall i :: 0 <= i < |s| ==> IsSlugChar(s[i]) || s[i] == '_')
    && s[0] != '_' && s[|s| - 1] != '_'
    && (forall i :: 0 <= i < |s| - 1 ==> !(s[i] == '_' && s[i + 1] == '_'))
  }

  /** The `[a-z0-9]` characters of `s`, in order. */
  function SlugChars(s: string): string {
    if |s| == 0 then ""
    else (if IsSlugChar(s[0]) then [s[0]] else "") + SlugChars(s[1..])
  }

  lemma {:induction false} SlugCharsAppend(a: string, b: string)
    ensures SlugChars(a + b) == SlugChars(a) + SlugChars(b)
  {
    if |a| == 0 {
      assert a + b == b;
    } else {
      var ab := a + b;
      assert ab[0] == a[0] && ab[1..] == a[1..] + b;
      SlugCharsAppend(a[1..], b);
      var head := if IsSlugChar(a[0]) then [a[0]] else "";
      assert SlugChars(ab) == head + SlugChars(a[1..] + b);
      assert SlugChars(a) == head + SlugChars(a[1..]);
    }
  }

  /** Only underscores and slug characters, with no two underscores adjacent. */
  ghost predicate SingleUnderscored(s: string) {
    && (forall i :: 0 <= i < |s| ==> IsSlugChar(s[i]) || s[i] == '_')
    && (forall i :: 0 <= i < |s| - 1 ==> !(s[i] == '_' && s[i + 1] == '_'))
  }

  function SkipNonSlug(s: string): (r: string)
    ensures |r| <= |s|
    ensures |r| > 0 ==> IsSlugChar(r[0])
    ensures SlugChars(r) == SlugChars(s)
  {
    if |s| > 0 && !IsSlugChar(s[0]) then SkipNonSlug(s[1..]) else s
  }

  /** Each run of characters other than `[a-z0-9]` replaced by one `_`. */
  function SlugRuns(s: string): (r: string)
    ensures SingleUnderscored(r)
    ensures SlugChars(r) == SlugChars(s)
    ensures |s| > 0 && IsSlugChar(s[0]) ==> |r| > 0 && r[0] == s[0]
    decreases |s|
  {
    if |s| == 0 then ""
    else if IsSlugChar(s[0]) then [s[0]] + SlugRuns(s[1..])
    else "_" + SlugRuns(SkipNonSlug(s))
  }

  function TrimUnderscoreStart(s: string): (r: string)
    ensures |r| <= |s| && r == s[|s| - |r|..]
    ensures |r| > 0 ==> r[0] != '_'
    ensures SlugChars(r) == SlugChars(s)
  {
    if |s| > 0 && s[0] == '_' then TrimUnderscoreStart(s[1..]) else s
  }

  function TrimUnderscoreEnd(s: string): (r: string)
    ensures |r| <= |s| && r == s[..|r|]
    ensures |r| > 0 ==> r[|r| - 1] != '_'
    ensures SlugChars(r) == SlugChars(s)
  {
    if |s| > 0 && s[|s| - 1] == '_' then
      var init := s[..|s| - 1];
      assert s == init + "_";
      SlugCharsAppend(init, "_");
      TrimUnderscoreEnd(init)
    else s
  }

  /** Underscores trimmed from both ends. */
  function StripUnderscores(s: string): (r: string)
    ensures SlugChars(r) == SlugChars(s)
    ensures SingleUnderscored(s) ==> SingleUnderscored(r)
    ensures |r| > 0 ==> r[0] != '_' && r[|r| - 1] != '_'
  {
    var e := TrimUnderscoreEnd(s);
    var r := TrimUnderscoreStart(e);
    assert r == s[|e| - |r|..|e|];
    r
  }

  lemma {:induction false} SlugCharsEmpty(s: string)
    ensures SlugChars(s) == "" <==> forall i :: 0 <= i < |s| ==> !IsSlugChar(s[i])
  {
    if |s| > 0 {
      SlugCharsEmpty(s[1..]);
      assert forall i :: 1 <= i < |s| ==> s[i] == s[1..][i - 1];
    }
  }

  /** Stripping the underscores of the run-replaced text leaves a slug, or
      nothing when the text has no slug character. */
  lemma SlugCore(s: string)
    ensures var n := StripUnderscores(SlugRuns(s));
      && (n == "" <==> SlugChars(s) == "")
      && (n != "" ==> IsSlug(n) && SlugChars(n) == SlugChars(s))
  {
    var n := StripUnderscores(SlugRuns(s));
    SlugCharsEmpty(n);
    if n != "" {
      assert IsSlugChar(n[0]);
    }
  }

  lemma GeneralIsSlug()
    ensures IsSlug("general")
  {
    var g := "general";
    assert forall i :: 0 <= i < |g| ==> IsLower(g[i]);
  }

  /** `slugify` (scripts/generate_openapi_meta.py:137-140): lower-cased, each
      run of characters other than `[a-z0-9]` replaced by a single `_`, with
      `_` trimmed from both ends; "general" when nothing is left. */
  function Slugify(value: string): (r: string)
    ensures IsSlug(r)
    ensures SlugChars(LowerStr(value)) == "" ==> r == "general"
    ensures SlugChars(LowerStr(value)) != "" ==> SlugChars(r) == SlugChars(LowerStr(value))
  {
    var normalized := StripUnderscores(SlugRuns(LowerStr(value)));
    SlugCore(LowerStr(value));
    if normalized == "" then
      GeneralIsSlug();
      "general"
    else normalized
  }

  lemma {:induction false} SlugRunsFixesSingleUnderscored(s: string)
    requires SingleUnderscored(s)
    ensures SlugRuns(s) == s
    decreases |s|
  {
    if |s| > 0 {
      assert SingleUnderscored(s[1..]);
      if !IsSlugChar(s[0]) {
        assert SkipNonSlug(s) == s[1..] by {
          if |s| > 1 { assert s[1] != '_'; }
        }
      }
      SlugRunsFixesSingleUnderscored(s[1..]);
    }
  }

  /** A slug is its own slug. */
  lemma SlugifyFixesSlugs(s: string)
    requires IsSlug(s)
    ensures Slugify(s) == s
  {
    assert LowerStr(s) == s;
    SlugRunsFixesSingleUnderscored(s);
  }

  /** Applying `slugify` twice gives the result of applying it once. */
  lemma SlugifyIdempotent(value: string)
    ensures Slugify(Slugify(value)) == Slugify(value)
  {
    SlugifyFixesSlugs(Slugify(value));
  }
}
