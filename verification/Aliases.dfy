/**
 A show's aliases: three tagged buckets (TMDB, LLM, user) that are regenerated, and the flat list
 merged from them.
 */
module Aliases {
  import opened Common

  /** String services of the host language. */
  datatype Strings = Strings(strip: string -> string, lower: string -> string, upper: string -> string)

  /** One alternative title; absent fields are empty. */
  datatype TmdbTitle = TmdbTitle(title: string, country: string, kind: string)

  const VERBATIM_COUNTRIES := {"JP", "US", "GB", "KR"}
  const TRANSLITERATION_KEYWORDS := ["romaji", "hepburn", "romanization", "transliteration"]

  predicate Contains(s: string, part: string) {
    part <= s || (s != [] && Contains(s[1..], part))
  }

  lemma {:induction false} ContainsMeans(s: string, part: string)
    ensures Contains(s, part) <==> exists k :: 0 <= k <= |s| && part <= s[k..]
  {
    assert s[0..] == s;
    if s == "" {
      assert forall k :: 0 <= k <= |s| ==> s[k..] == s;
    } else {
      ContainsMeans(s[1..], part);
      assert forall k :: 0 <= k < |s| ==> s[1..][k..] == s[k + 1..];
      if exists k :: 0 <= k <= |s| && part <= s[k..] {
        var k :| 0 <= k <= |s| && part <= s[k..];
        assert k > 0 ==> s[k..] == s[1..][k - 1..];
      }
      if exists k :: 0 <= k <= |s[1..]| && part <= s[1..][k..] {
        var k :| 0 <= k <= |s[1..]| && part <= s[1..][k..];
        assert part <= s[k + 1..];
      }
    }
  }

  // ---- First occurrences ----

  /** The elements of `s` that are not in `skip`, each once, where it first occurs. */
  function FirstOccurrences(s: seq<string>, skip: set<string>): seq<string> {
    if s == [] then []
    else
      var before, x := FirstOccurrences(s[..|s| - 1], skip), s[|s| - 1];
      if x in skip || x in before then before else before + [x]
  }

  lemma FirstOccurrencesStep(s: seq<string>, x: string, skip: set<string>)
    ensures var r := FirstOccurrences(s, skip);
            FirstOccurrences(s + [x], skip) == if x in skip || x in r then r else r + [x]
  {
    assert (s + [x])[..|s|] == s;
  }

  function FirstIndex(s: seq<string>, x: string): (i: nat)
    requires x in s
    ensures i < |s| && s[i] == x && x !in s[..i]
  {
    if x in s[..|s| - 1] then
      assert s[..|s| - 1][..FirstIndex(s[..|s| - 1], x)] == s[..FirstIndex(s[..|s| - 1], x)];
      FirstIndex(s[..|s| - 1], x)
    else |s| - 1
  }

  ghost predicate OccursBefore(s: seq<string>, x: string, y: string) {
    x in s && y in s && FirstIndex(s, x) < FirstIndex(s, y)
  }

  /** The list is a set in the order of first occurrence, and misses nothing. */
  ghost predicate FirstsOf(r: seq<string>, s: seq<string>, skip: set<string>) {
    && Distinct(r)
    && (forall x :: x in r <==> x in s && x !in skip)
    && forall i, j :: 0 <= i < j < |r| ==> OccursBefore(s, r[i], r[j])
  }

  lemma {:induction false} FirstOccurrencesFacts(s: seq<string>, skip: set<string>)
    ensures FirstsOf(FirstOccurrences(s, skip), s, skip)
  {
    hide FirstsOf;
    if s == [] {
      NoFirsts(skip);
    } else {
      var before, x := s[..|s| - 1], s[|s| - 1];
      FirstOccurrencesFacts(before, skip);
      FirstsStep(FirstOccurrences(before, skip), before, skip, x);
      assert s == before + [x];
    }
  }

  lemma NoFirsts(skip: set<string>)
    ensures FirstsOf([], [], skip)
  {
  }

  lemma FirstsStep(r: seq<string>, s: seq<string>, skip: set<string>, x: string)
    requires FirstsOf(r, s, skip)
    ensures FirstsOf(if x in skip || x in r then r else r + [x], s + [x], skip)
  {
    var all := s + [x];
    assert all[..|s|] == s;
    forall i, j | 0 <= i < j < |r| ensures OccursBefore(all, r[i], r[j]) {
      assert OccursBefore(s, r[i], r[j]);
    }
    if x !in skip && x !in r {
      forall i | 0 <= i < |r| ensures OccursBefore(all, r[i], x) {
        assert r[i] in r;
      }
    }
  }

  // ---- Extraction from TMDB ----

  /** The normalised title of an entry worth keeping. */
  function Normalised(str: Strings, t: TmdbTitle): Option<string> {
    var title := str.strip(t.title);
    var kind := str.lower(t.kind);
    if title == "" then None
    else if str.upper(t.country) !in VERBATIM_COUNTRIES && !(exists i :: 0 <= i < |TRANSLITERATION_KEYWORDS| && Contains(kind, TRANSLITERATION_KEYWORDS[i])) then None
    else Some(str.lower(title))
  }

  function NormalisedAll(str: Strings, titles: seq<TmdbTitle>): seq<string> {
    if titles == [] then []
    else
      var before, last := NormalisedAll(str, titles[..|titles| - 1]), Normalised(str, titles[|titles| - 1]);
      if last.None? then before else before + [last.value]
  }

  function Canonical(str: Strings, title: string): string {
    str.lower(str.strip(title))
  }

  function Extracted(str: Strings, titles: seq<TmdbTitle>, title: string): seq<string> {
    FirstOccurrences(NormalisedAll(str, titles), {Canonical(str, title)})
  }

  /** The entry supplies the alias: its title, stripped and in lower case, from a chosen country or as a transliteration. */
  ghost predicate Supplies(str: Strings, t: TmdbTitle, alias: string) {
    && str.strip(t.title) != "" && alias == str.lower(str.strip(t.title))
    && (str.upper(t.country) in {"JP", "US", "GB", "KR"}
        || exists word :: word in {"romaji", "hepburn", "romanization", "transliteration"} && Names(str.lower(t.kind), word))
  }

  /** The word stands somewhere in the text. */
  ghost predicate Names(text: string, word: string) {
    exists k :: 0 <= k <= |text| && word <= text[k..]
  }

  lemma NormalisedMeans(str: Strings, t: TmdbTitle)
    ensures forall alias :: Normalised(str, t) == Some(alias) <==> Supplies(str, t, alias)
  {
    hide Contains;
    var kind := str.lower(t.kind);
    forall word ensures Contains(kind, word) <==> Names(kind, word) {
      ContainsMeans(kind, word);
    }
    assert TRANSLITERATION_KEYWORDS[0] == "romaji" && TRANSLITERATION_KEYWORDS[1] == "hepburn";
    assert TRANSLITERATION_KEYWORDS[2] == "romanization" && TRANSLITERATION_KEYWORDS[3] == "transliteration";
  }

  ghost predicate Supplied(str: Strings, titles: seq<TmdbTitle>, alias: string) {
    exists k :: 0 <= k < |titles| && Supplies(str, titles[k], alias)
  }

  /** The first entry that supplies one alias comes before every entry that supplies the other. */
  ghost predicate SuppliedBefore(str: Strings, titles: seq<TmdbTitle>, first: string, second: string) {
    exists m :: 0 <= m < |titles| && Supplies(str, titles[m], first) && forall k :: 0 <= k <= m ==> !Supplies(str, titles[k], second)
  }

  /** Every alias that some entry supplies, once, in the order of supply, but for the show's own title. */
  ghost predicate Extraction(str: Strings, titles: seq<TmdbTitle>, title: string, aliases: seq<string>) {
    && Distinct(aliases)
    && (forall alias :: alias in aliases <==>
          alias != str.lower(str.strip(title)) && Supplied(str, titles, alias))
    && forall i, j :: 0 <= i < j < |aliases| ==> SuppliedBefore(str, titles, aliases[i], aliases[j])
  }

  lemma {:induction false} ExtractedMeans(str: Strings, titles: seq<TmdbTitle>, title: string)
    ensures Extraction(str, titles, title, Extracted(str, titles, title))
  {
    hide Normalised, Supplies;
    if titles != [] {
      var before, t := titles[..|titles| - 1], titles[|titles| - 1];
      assert titles == before + [t];
      ExtractedMeans(str, before, title);
      NormalisedMeans(str, t);
      if Normalised(str, t).Some? {
        FirstOccurrencesStep(NormalisedAll(str, before), Normalised(str, t).value, {Canonical(str, title)});
        ExtractionStep(str, before, title, Extracted(str, before, title), t, Normalised(str, t).value);
      } else {
        ExtractionSkip(str, before, title, Extracted(str, before, title), t);
      }
    }
  }

  lemma SuppliedStays(str: Strings, titles: seq<TmdbTitle>, t: TmdbTitle, first: string, second: string)
    requires SuppliedBefore(str, titles, first, second)
    ensures SuppliedBefore(str, titles + [t], first, second)
  {
    hide Supplies;
    var m :| 0 <= m < |titles| && Supplies(str, titles[m], first) && forall k :: 0 <= k <= m ==> !Supplies(str, titles[k], second);
    assert (titles + [t])[m] == titles[m] && forall k :: 0 <= k <= m ==> (titles + [t])[k] == titles[k];
  }

  lemma ExtractionSkip(str: Strings, titles: seq<TmdbTitle>, title: string, aliases: seq<string>, t: TmdbTitle)
    requires Extraction(str, titles, title, aliases) && forall alias :: !Supplies(str, t, alias)
    ensures Extraction(str, titles + [t], title, aliases)
  {
    hide Supplies, Supplied, SuppliedBefore;
    MoreSupplied(str, titles, t);
    forall i, j | 0 <= i < j < |aliases| ensures SuppliedBefore(str, titles + [t], aliases[i], aliases[j]) {
      SuppliedStays(str, titles, t, aliases[i], aliases[j]);
    }
  }

  lemma MoreSupplied(str: Strings, titles: seq<TmdbTitle>, t: TmdbTitle)
    ensures forall alias :: Supplied(str, titles + [t], alias) <==> Supplies(str, t, alias) || Supplied(str, titles, alias)
  {
    hide Supplies;
    var all := titles + [t];
    forall alias | Supplies(str, t, alias) || Supplied(str, titles, alias) ensures Supplied(str, all, alias) {
      if Supplies(str, t, alias) {
        assert all[|titles|] == t;
      } else {
        var k :| 0 <= k < |titles| && Supplies(str, titles[k], alias);
        assert all[k] == titles[k];
      }
    }
  }

  lemma ExtractionStep(str: Strings, titles: seq<TmdbTitle>, title: string, aliases: seq<string>, t: TmdbTitle, alias: string)
    requires Extraction(str, titles, title, aliases) && forall other :: Supplies(str, t, other) <==> other == alias
    ensures Extraction(str, titles + [t], title, if alias == Canonical(str, title) || alias in aliases then aliases else aliases + [alias])
  {
    hide Supplies, Supplied, SuppliedBefore;
    MoreSupplied(str, titles, t);
    forall i, j | 0 <= i < j < |aliases| ensures SuppliedBefore(str, titles + [t], aliases[i], aliases[j]) {
      SuppliedStays(str, titles, t, aliases[i], aliases[j]);
    }
    if alias != Canonical(str, title) && alias !in aliases {
      forall i | 0 <= i < |aliases| ensures SuppliedBefore(str, titles + [t], aliases[i], alias) {
        assert aliases[i] in aliases;
        NewIsLater(str, titles, t, aliases[i], alias);
      }
    }
  }

  lemma NewIsLater(str: Strings, titles: seq<TmdbTitle>, t: TmdbTitle, first: string, alias: string)
    requires Supplied(str, titles, first) && !Supplied(str, titles, alias)
    ensures SuppliedBefore(str, titles + [t], first, alias)
  {
    hide Supplies;
    var m :| 0 <= m < |titles| && Supplies(str, titles[m], first);
    assert (titles + [t])[m] == titles[m] && forall k :: 0 <= k <= m ==> (titles + [t])[k] == titles[k];
  }

  method ExtractTmdbAliases(str: Strings, titles: seq<TmdbTitle>, title: string) returns (aliases: seq<string>)
    ensures aliases == Extracted(str, titles, title)
    ensures Extraction(str, titles, title, aliases)
  {
    hide Extraction, Normalised;
    var seen := {Canonical(str, title)};
    aliases := [];
    for i := 0 to |titles|
      invariant aliases == Extracted(str, titles[..i], title)
      invariant forall x :: x in seen <==> x == Canonical(str, title) || x in aliases
    {
      assert titles[..i + 1][..i] == titles[..i];
      var entry := Normalised(str, titles[i]);
      if entry.Some? {
        FirstOccurrencesStep(NormalisedAll(str, titles[..i]), entry.value, {Canonical(str, title)});
        if entry.value !in seen {
          seen := seen + {entry.value};
          aliases := aliases + [entry.value];
        }
      }
    }
    assert titles[..|titles|] == titles;
    ExtractedMeans(str, titles, title);
  }

  // ---- Merging ----

  datatype Sources = Sources(tmdb: seq<string>, llm: seq<string>, user: seq<string>)

  function NonEmpty(s: seq<string>): seq<string> {
    if s == [] then []
    else if s[|s| - 1] == "" then NonEmpty(s[..|s| - 1])
    else NonEmpty(s[..|s| - 1]) + [s[|s| - 1]]
  }

  lemma NonEmptyStep(s: seq<string>, x: string)
    ensures NonEmpty(s + [x]) == if x == "" then NonEmpty(s) else NonEmpty(s) + [x]
  {
    assert (s + [x])[..|s|] == s;
  }

  lemma {:induction false} NonEmptyFacts(s: seq<string>)
    ensures forall x :: x in NonEmpty(s) <==> x in s && x != ""
  {
    if s != [] {
      NonEmptyFacts(s[..|s| - 1]);
    }
  }

  function Union(sources: Sources): seq<string> {
    FirstOccurrences(NonEmpty(sources.tmdb + sources.llm + sources.user), {})
  }

  /** One bucket after the others, with what they have contributed. */
  method MergeBucket(bucket: seq<string>, seen: set<string>, merged: seq<string>, ghost earlier: seq<string>)
    returns (seen': set<string>, merged': seq<string>)
    requires merged == FirstOccurrences(NonEmpty(earlier), {}) && forall x :: x in seen <==> x in merged
    ensures merged' == FirstOccurrences(NonEmpty(earlier + bucket), {}) && forall x :: x in seen' <==> x in merged'
  {
    hide FirstOccurrences, NonEmpty;
    seen', merged' := seen, merged;
    assert earlier + bucket[..0] == earlier;
    for i := 0 to |bucket|
      invariant merged' == FirstOccurrences(NonEmpty(earlier + bucket[..i]), {})
      invariant forall x :: x in seen' <==> x in merged'
    {
      ghost var before := earlier + bucket[..i];
      assert earlier + bucket[..i + 1] == before + [bucket[i]];
      NonEmptyStep(before, bucket[i]);
      if bucket[i] != "" {
        FirstOccurrencesStep(NonEmpty(before), bucket[i], {});
        if bucket[i] !in seen' {
          seen', merged' := seen' + {bucket[i]}, merged' + [bucket[i]];
        }
      }
    }
    assert bucket[..|bucket|] == bucket;
  }

  method BuildFlatAliases(sources: Sources) returns (flat: Option<seq<string>>)
    ensures flat == if Union(sources) == [] then None else Some(Union(sources))
  {
    var seen, merged := {}, [];
    seen, merged := MergeBucket(sources.tmdb, seen, merged, []);
    assert [] + sources.tmdb == sources.tmdb;
    seen, merged := MergeBucket(sources.llm, seen, merged, sources.tmdb);
    seen, merged := MergeBucket(sources.user, seen, merged, sources.tmdb + sources.llm);
    flat := if merged == [] then None else Some(merged);
  }

  // ---- Regeneration ----

  datatype Llm = Unavailable | LlmRaises | Proposes(names: seq<string>)

  /** One call: what TMDB returned (None if the fetch failed) and what the LLM did. */
  datatype Call = Call(fetched: Option<seq<TmdbTitle>>, llm: Llm)

  /** The alias columns of a show; None for SQL NULL. */
  datatype Columns = Columns(aliases: Option<seq<string>>, sources: Option<Sources>)

  function Proposed(str: Strings, llm: Llm): seq<string> {
    if llm.Proposes? then StripAll(str, llm.names) else []
  }

  function StripAll(str: Strings, names: seq<string>): seq<string> {
    if names == [] then []
    else (if str.strip(names[0]) == "" then [] else [str.lower(str.strip(names[0]))]) + StripAll(str, names[1..])
  }

  /** The LLM's names that are not blank, stripped and in lower case, in their order. */
  lemma {:induction false} StripAllMeans(str: Strings, before: seq<string>, name: string, after: seq<string>)
    ensures StripAll(str, before + [name] + after)
            == StripAll(str, before) + (if str.strip(name) == "" then [] else [str.lower(str.strip(name))]) + StripAll(str, after)
  {
    var all := before + [name] + after;
    if before == [] {
      assert all[0] == name && all[1..] == after;
    } else {
      assert all[1..] == before[1..] + [name] + after;
      StripAllMeans(str, before[1..], name, after);
    }
  }

  /** What must survive: the user bucket, or a flat list that predates the buckets. */
  function Kept(c: Columns): seq<string> {
    if c.sources.Some? then c.sources.value.user else c.aliases.GetOr([])
  }

  function TmdbBucket(c: Columns): seq<string> {
    if c.sources.Some? then c.sources.value.tmdb else []
  }

  function NewTmdb(title: string, str: Strings, before: Columns, call: Call): seq<string> {
    if call.fetched.Some? then Extracted(str, call.fetched.value, title) else TmdbBucket(before)
  }

  class Show {
    const title: string
    var aliases: Option<seq<string>>
    var sources: Option<Sources>

    constructor (title: string, c: Columns)
      ensures this.title == title && Value() == c
    {
      this.title := title;
      aliases, sources := c.aliases, c.sources;
    }

    function Value(): Columns
      reads this
    {
      Columns(aliases, sources)
    }
  }

  method GenerateAliases(show: Show, str: Strings, call: Call)
    modifies show
    ensures Regenerated(show.title, str, old(show.Value()), call, show.Value())
    // The user's names and the last fetched ones stay; a list that predates the buckets becomes the user's.
    ensures FlatIsUnion(show.Value())
    ensures var before, after := old(show.sources), show.sources.value;
            && after.user == (if before.Some? then before.value.user else old(show.aliases).GetOr([]))
            && (call.fetched.Some? ==> Extraction(str, call.fetched.value, show.title, after.tmdb))
            && (call.fetched.None? ==> after.tmdb == if before.Some? then before.value.tmdb else [])
            && after.llm == if call.llm.Proposes? then StripAll(str, call.llm.names) else []
  {
    var existing := show.sources.GetOr(Sources([], [], []));
    var tmdb := existing.tmdb;
    if call.fetched.Some? {
      tmdb := ExtractTmdbAliases(str, call.fetched.value, show.title);
    }
    var llm := if call.llm.Proposes? then StripAll(str, call.llm.names) else [];
    var user := existing.user;
    if user == [] && show.sources.None? && show.aliases.Some? {
      user := show.aliases.value;
    }
    var renewed := Sources(tmdb, llm, user);
    show.sources := Some(renewed);
    var flat := BuildFlatAliases(renewed);
    show.aliases := flat;
    UnionFacts(show.title, str, old(show.Value()), call, show.Value());
  }

  /** What one call makes of the columns: it replaces TMDB and LLM names and keeps the user's. */
  ghost predicate Regenerated(title: string, str: Strings, before: Columns, call: Call, after: Columns) {
    && after.sources == Some(Sources(
         NewTmdb(title, str, before, call), Proposed(str, call.llm), Kept(before)))
    && after.aliases == if Union(after.sources.value) == [] then None else Some(Union(after.sources.value))
  }

  ghost predicate RunOf(title: string, str: Strings, columns: seq<Columns>, calls: seq<Call>) {
    && |columns| == |calls| + 1
    && forall i :: 0 <= i < |calls| ==> Regenerated(title, str, columns[i], calls[i], columns[i + 1])
  }

  /** The flat list is the duplicate-free union of the buckets in their order, and NULL when they are empty. */
  ghost predicate FlatIsUnion(c: Columns) {
    && c.sources.Some?
    && (c.aliases.Some? ==> c.aliases.value != [])
    && var flat, all := c.aliases.GetOr([]), c.sources.value.tmdb + c.sources.value.llm + c.sources.value.user;
       FirstsOf(flat, NonEmpty(all), {}) && forall a :: a in flat <==> a in all && a != ""
  }

  lemma UnionFacts(title: string, str: Strings, before: Columns, call: Call, after: Columns)
    requires Regenerated(title, str, before, call, after)
    ensures FlatIsUnion(after)
  {
    var all := after.sources.value.tmdb + after.sources.value.llm + after.sources.value.user;
    NonEmptyFacts(all);
    FirstOccurrencesFacts(NonEmpty(all), {});
  }

  /** A flat alias stays in the flat list exactly when it predates the buckets, is the user's, or is supplied again. */
  lemma FlatAliasKeptExactly(title: string, str: Strings, before: Columns, call: Call, after: Columns, a: string)
    requires Regenerated(title, str, before, call, after)
    requires a in before.aliases.GetOr([]) && a != ""
    ensures a in after.aliases.GetOr([])
            <==> before.sources.None? || a in before.sources.value.user
                 || a in NewTmdb(title, str, before, call) || a in Proposed(str, call.llm)
  {
    UnionFacts(title, str, before, call, after);
  }

  /** The flat list holds an alias that is in no bucket. */
  ghost predicate HasOrphan(c: Columns) {
    c.sources.Some? && exists a :: a in c.aliases.GetOr([]) && a !in c.sources.value.tmdb + c.sources.value.llm + c.sources.value.user
  }

  /** Where an alias is in no bucket, a call that brings no names loses it; */
  lemma OrphanIsLost(title: string, str: Strings, alias: string)
    requires alias != ""
    ensures var before := Columns(Some([alias]), Some(Sources([], [], [])));
            HasOrphan(before) && Regenerated(title, str, before, Call(None, Unavailable), Columns(None, Some(Sources([], [], []))))
  {
    var none: seq<string> := [];
    assert none + none + none == none;
    var before := Columns(Some([alias]), Some(Sources([], [], [])));
    assert alias in before.aliases.GetOr([]) && alias !in before.sources.value.tmdb + before.sources.value.llm + before.sources.value.user;
  }

  /** but no call leaves such a state, so what the next one drops is a generated alias and never a user's. */
  lemma OnlyGeneratedAreDropped(title: string, str: Strings, first: Columns, call: Call, second: Columns, next: Call, third: Columns, a: string)
    requires Regenerated(title, str, first, call, second) && Regenerated(title, str, second, next, third)
    requires a in second.aliases.GetOr([]) && a !in third.aliases.GetOr([])
    ensures !HasOrphan(second)
    ensures a in second.sources.value.tmdb + second.sources.value.llm && a !in second.sources.value.user
  {
    UnionFacts(title, str, first, call, second);
    FlatAliasKeptExactly(title, str, second, next, third, a);
  }

  /** The last call before `n` that fetched titles, if any: its extraction is the TMDB bucket. */
  function TmdbAfter(title: string, str: Strings, first: Columns, calls: seq<Call>, n: nat): seq<string>
    requires n <= |calls|
  {
    if n == 0 then TmdbBucket(first)
    else if calls[n - 1].fetched.Some? then Extracted(str, calls[n - 1].fetched.value, title)
    else TmdbAfter(title, str, first, calls, n - 1)
  }

  /** Over any sequence of calls no user alias is lost, and the TMDB bucket is that of the last fetch that succeeded. */
  lemma {:induction false} BucketsKept(title: string, str: Strings, columns: seq<Columns>, calls: seq<Call>, n: nat)
    requires RunOf(title, str, columns, calls) && n <= |calls|
    ensures Kept(columns[n]) == Kept(columns[0])
    ensures TmdbBucket(columns[n]) == TmdbAfter(title, str, columns[0], calls, n)
  {
    if n > 0 {
      BucketsKept(title, str, columns, calls, n - 1);
      assert Regenerated(title, str, columns[n - 1], calls[n - 1], columns[n]);
    }
  }

  /** After every call the flat list is the union of the buckets, and holds each of the user's aliases. */
  lemma AliasesAfterRuns(title: string, str: Strings, columns: seq<Columns>, calls: seq<Call>, n: nat)
    requires RunOf(title, str, columns, calls) && 0 < n <= |calls|
    ensures FlatIsUnion(columns[n])
    ensures columns[n].sources.value.user == Kept(columns[0])
    ensures columns[n].sources.value.llm == Proposed(str, calls[n - 1].llm)
    ensures forall a :: a in Kept(columns[0]) && a != "" ==> a in columns[n].aliases.GetOr([])
  {
    BucketsKept(title, str, columns, calls, n);
    assert Regenerated(title, str, columns[n - 1], calls[n - 1], columns[n]);
    UnionFacts(title, str, columns[n - 1], calls[n - 1], columns[n]);
  }
}
