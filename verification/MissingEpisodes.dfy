/** Aired episodes without a file, grouped by season. */
module MissingEpisodes {
  import opened Common

  /** An absent or empty air date means the episode is not announced. */
  datatype Episode = Episode(id: nat, season: int, number: int, airDate: Option<string>, tracked: bool)

  datatype SeasonGap = SeasonGap(season: int, aired: nat, missing: seq<Episode>)

  // ---- Stable sorting ----

  /** Behind every element that is not larger. */
  function Insert<T>(x: T, s: seq<T>, key: T -> int): seq<T> {
    if s == [] || key(s[|s| - 1]) <= key(x) then s + [x] else Insert(x, s[..|s| - 1], key) + [s[|s| - 1]]
  }

  /** `[...s].sort((a, b) => key(a) - key(b))` */
  function SortedBy<T>(s: seq<T>, key: T -> int): seq<T> {
    if s == [] then [] else Insert(s[|s| - 1], SortedBy(s[..|s| - 1], key), key)
  }

  ghost predicate Ordered<T>(s: seq<T>, key: T -> int) {
    forall i, j :: 0 <= i < j < |s| ==> key(s[i]) <= key(s[j])
  }

  /** The elements with one key, in order. */
  function Same<T>(s: seq<T>, key: T -> int, k: int): seq<T> {
    if s == [] then []
    else if key(s[|s| - 1]) == k then Same(s[..|s| - 1], key, k) + [s[|s| - 1]]
    else Same(s[..|s| - 1], key, k)
  }

  lemma SameStep<T>(s: seq<T>, x: T, key: T -> int, k: int)
    ensures Same(s + [x], key, k) == if key(x) == k then Same(s, key, k) + [x] else Same(s, key, k)
  {
    assert (s + [x])[..|s|] == s;
  }

  lemma {:induction false} InsertMembers<T>(x: T, s: seq<T>, key: T -> int)
    ensures multiset(Insert(x, s, key)) == multiset(s) + multiset{x}
  {
    if s != [] && key(s[|s| - 1]) > key(x) {
      InsertMembers(x, s[..|s| - 1], key);
      assert s == s[..|s| - 1] + [s[|s| - 1]];
    }
  }

  ghost predicate AtMost<T>(s: seq<T>, key: T -> int, k: int) {
    forall i :: 0 <= i < |s| ==> key(s[i]) <= k
  }

  lemma {:induction false} InsertAtMost<T>(x: T, s: seq<T>, key: T -> int, k: int)
    requires AtMost(s, key, k) && key(x) <= k
    ensures AtMost(Insert(x, s, key), key, k)
  {
    if s != [] && key(s[|s| - 1]) > key(x) {
      InsertAtMost(x, s[..|s| - 1], key, k);
    }
  }

  lemma {:induction false} InsertOrdered<T>(x: T, s: seq<T>, key: T -> int)
    requires Ordered(s, key)
    ensures Ordered(Insert(x, s, key), key)
  {
    if s != [] && key(s[|s| - 1]) > key(x) {
      InsertOrdered(x, s[..|s| - 1], key);
      InsertAtMost(x, s[..|s| - 1], key, key(s[|s| - 1]));
    }
  }

  lemma {:induction false} InsertStable<T>(x: T, s: seq<T>, key: T -> int, k: int)
    requires Ordered(s, key)
    ensures Same(Insert(x, s, key), key, k) == Same(s + [x], key, k)
  {
    if s != [] && key(s[|s| - 1]) > key(x) {
      var before, last := s[..|s| - 1], s[|s| - 1];
      InsertStable(x, before, key, k);
      SameStep(Insert(x, before, key), last, key, k);
      SameStep(before, x, key, k);
      SameStep(s, x, key, k);
    }
  }

  /** Sorting orders a list, loses and invents nothing, and keeps equal elements in their order. */
  lemma {:induction false} SortedFacts<T>(s: seq<T>, key: T -> int)
    ensures var r := SortedBy(s, key);
            && Ordered(r, key) && multiset(r) == multiset(s)
            && forall k :: Same(r, key, k) == Same(s, key, k)
  {
    if s != [] {
      var before, x := s[..|s| - 1], s[|s| - 1];
      assert s == before + [x];
      SortedFacts(before, key);
      InsertOrdered(x, SortedBy(before, key), key);
      InsertMembers(x, SortedBy(before, key), key);
      forall k ensures Same(SortedBy(s, key), key, k) == Same(s, key, k) {
        InsertStable(x, SortedBy(before, key), key, k);
        SameStep(SortedBy(before, key), x, key, k);
      }
    }
  }

  // ---- What a season has ----

  /** The order of ISO dates as strings. */
  predicate Before(a: string, b: string) {
    if a == "" || b == "" then a == "" && b != ""
    else a[0] < b[0] || (a[0] == b[0] && Before(a[1..], b[1..]))
  }

  /** At the first place where they differ `a` is smaller, or it ends there. */
  ghost predicate Precedes(a: string, b: string) {
    exists k: nat :: k <= |a| && k < |b| && a[..k] == b[..k] && (k == |a| || a[k] < b[k])
  }

  lemma {:induction false} BeforeMeans(a: string, b: string)
    ensures Before(a, b) <==> Precedes(a, b)
  {
    if a == "" {
      assert b != "" ==> a[..0] == b[..0];
    } else if b != "" {
      BeforeMeans(a[1..], b[1..]);
      if Before(a, b) {
        if a[0] < b[0] {
          assert a[..0] == b[..0];
        } else {
          var k: nat :| k <= |a[1..]| && k < |b[1..]| && a[1..][..k] == b[1..][..k] && (k == |a[1..]| || a[1..][k] < b[1..][k]);
          assert a[..k + 1] == [a[0]] + a[1..][..k] && b[..k + 1] == [b[0]] + b[1..][..k];
        }
      }
      if Precedes(a, b) {
        var k: nat :| k <= |a| && k < |b| && a[..k] == b[..k] && (k == |a| || a[k] < b[k]);
        if k > 0 {
          assert a[0] == a[..k][0] == b[0];
          assert a[1..][..k - 1] == a[..k][1..] == b[1..][..k - 1];
        }
      }
    }
  }

  /** It has an air date, and that is before today. */
  ghost predicate HasAired(e: Episode, today: string) {
    e.airDate.Some? && e.airDate.value != "" && Precedes(e.airDate.value, today)
  }

  predicate Dated(e: Episode) {
    e.airDate.GetOr("") != ""
  }

  predicate Aired(e: Episode, today: string) {
    Dated(e) && Before(e.airDate.value, today)
  }

  predicate IsGap(e: Episode, today: string) {
    Aired(e, today) && !e.tracked
  }

  function AiredCount(eps: seq<Episode>, today: string, season: int): nat {
    if eps == [] then 0
    else AiredCount(eps[..|eps| - 1], today, season)
         + (if Aired(eps[|eps| - 1], today) && eps[|eps| - 1].season == season then 1 else 0)
  }

  function GapsOf(eps: seq<Episode>, today: string, season: int): seq<Episode> {
    if eps == [] then []
    else if IsGap(eps[|eps| - 1], today) && eps[|eps| - 1].season == season then GapsOf(eps[..|eps| - 1], today, season) + [eps[|eps| - 1]]
    else GapsOf(eps[..|eps| - 1], today, season)
  }

  function AllGaps(eps: seq<Episode>, today: string): seq<Episode> {
    if eps == [] then []
    else if IsGap(eps[|eps| - 1], today) then AllGaps(eps[..|eps| - 1], today) + [eps[|eps| - 1]]
    else AllGaps(eps[..|eps| - 1], today)
  }

  /** The chosen elements, in order. */
  ghost function Where<T>(s: seq<T>, chosen: T -> bool): seq<T> {
    if s == [] then [] else (if chosen(s[0]) then [s[0]] else []) + Where(s[1..], chosen)
  }

  lemma {:induction false} WhereLast<T>(s: seq<T>, x: T, chosen: T -> bool)
    ensures Where(s + [x], chosen) == Where(s, chosen) + if chosen(x) then [x] else []
  {
    if s == [] {
      assert ([x])[1..] == [] && s + [x] == [x];
    } else {
      assert (s + [x])[1..] == s[1..] + [x];
      WhereLast(s[1..], x, chosen);
    }
  }

  /** Aired in this season and without a file. */
  ghost function MissingIn(today: string, season: int): Episode -> bool {
    (e: Episode) => e.season == season && HasAired(e, today) && !e.tracked
  }

  lemma {:induction false} GapsOfMeans(eps: seq<Episode>, today: string, season: int)
    ensures GapsOf(eps, today, season) == Where(eps, MissingIn(today, season))
  {
    if eps != [] {
      var before, e := eps[..|eps| - 1], eps[|eps| - 1];
      assert eps == before + [e];
      GapsOfMeans(before, today, season);
      WhereLast(before, e, MissingIn(today, season));
      if e.airDate.Some? {
        BeforeMeans(e.airDate.value, today);
      }
    }
  }

  /** The positions of a season's aired episodes. */
  ghost function AiredIn(eps: seq<Episode>, today: string, season: int): set<nat> {
    set i | 0 <= i < |eps| && eps[i].season == season && HasAired(eps[i], today)
  }

  lemma AiredInStep(eps: seq<Episode>, today: string, season: int)
    requires eps != []
    ensures var before, e := eps[..|eps| - 1], eps[|eps| - 1];
            |AiredIn(eps, today, season)| == |AiredIn(before, today, season)| + if e.season == season && HasAired(e, today) then 1 else 0
  {
    hide HasAired;
    var n := |eps| - 1;
    assert AiredIn(eps, today, season) == AiredIn(eps[..n], today, season) + if eps[n].season == season && HasAired(eps[n], today) then {n} else {};
  }

  lemma AiredMeans(e: Episode, today: string)
    ensures Aired(e, today) <==> HasAired(e, today)
  {
    if e.airDate.Some? {
      BeforeMeans(e.airDate.value, today);
    }
  }

  lemma {:induction false} AiredCountMeans(eps: seq<Episode>, today: string, season: int)
    ensures AiredCount(eps, today, season) == |AiredIn(eps, today, season)|
  {
    hide HasAired, Aired;
    if eps == [] {
      assert AiredIn([], today, season) == {};
    } else {
      AiredCountMeans(eps[..|eps| - 1], today, season);
      AiredInStep(eps, today, season);
      AiredMeans(eps[|eps| - 1], today);
    }
  }

  // ---- The report ----

  datatype Tally = Tally(aired: nat, missing: seq<Episode>)

  /** The map of the first loop, after some episodes: seasons with a dated episode, in the order they are first met. */
  ghost predicate Tallied(eps: seq<Episode>, today: string, order: seq<int>, bySeason: map<int, Tally>) {
    && Distinct(order)
    && (forall s :: s in order <==> s in bySeason)
    && forall s :: (if s in bySeason then bySeason[s] else Tally(0, [])) == Tally(AiredCount(eps, today, s), GapsOf(eps, today, s))
  }

  method TallyEpisode(eps: seq<Episode>, i: nat, today: string, order: seq<int>, bySeason: map<int, Tally>)
    returns (order': seq<int>, bySeason': map<int, Tally>)
    requires i < |eps| && Tallied(eps[..i], today, order, bySeason)
    ensures Tallied(eps[..i + 1], today, order', bySeason')
  {
    var ep := eps[i];
    assert eps[..i + 1][..i] == eps[..i];
    order', bySeason' := order, bySeason;
    if !Dated(ep) {
      return;
    }
    var entry := Tally(0, []);
    if ep.season in bySeason {
      entry := bySeason[ep.season];
    } else {
      order' := order + [ep.season];
    }
    if Before(ep.airDate.value, today) {
      entry := entry.(aired := entry.aired + 1);
      if !ep.tracked {
        entry := entry.(missing := entry.missing + [ep]);
      }
    }
    bySeason' := bySeason[ep.season := entry];
  }

  function Gap(s: int, bySeason: map<int, Tally>): SeasonGap
    requires s in bySeason
  {
    SeasonGap(s, bySeason[s].aired, SortedBy(bySeason[s].missing, (e: Episode) => e.number))
  }

  lemma TalliedSeason(eps: seq<Episode>, today: string, order: seq<int>, bySeason: map<int, Tally>, s: int)
    requires Tallied(eps, today, order, bySeason)
    ensures s in order <==> s in bySeason
  {
  }

  method ComputeMissingEpisodes(eps: seq<Episode>, today: string) returns (gaps: seq<SeasonGap>)
    ensures Reports(gaps, eps, today)
    // Each season in which an aired episode has no file, with those episodes and the number that have aired.
    ensures Tells(gaps, eps, today)
  {
    var order: seq<int>, bySeason: map<int, Tally> := [], map[];
    for i := 0 to |eps|
      invariant Tallied(eps[..i], today, order, bySeason)
    {
      order, bySeason := TallyEpisode(eps, i, today, order, bySeason);
    }
    assert eps[..|eps|] == eps;
    var seasons: seq<int> := [];
    for i := 0 to |order|
      invariant Distinct(seasons) && Tallied(eps, today, order, bySeason)
      invariant forall s :: s in seasons <==> s in order[..i] && s in bySeason && bySeason[s].missing != []
    {
      var s := order[i];
      assert s in order;
      TalliedSeason(eps, today, order, bySeason, s);
      if bySeason[s].missing != [] {
        seasons := seasons + [s];
      }
    }
    assert order[..|order|] == order;
    var sorted := SortedBy(seasons, (s: int) => s);
    SortedSeasons(seasons);
    gaps := [];
    for i := 0 to |sorted|
      invariant |gaps| == i
      invariant forall j :: 0 <= j < i ==> sorted[j] in bySeason && gaps[j] == Gap(sorted[j], bySeason)
    {
      assert sorted[i] in sorted;
      gaps := gaps + [Gap(sorted[i], bySeason)];
    }
    ReportsGaps(eps, today, order, bySeason, sorted, gaps);
    ReportsTell(gaps, eps, today);
  }

  /** The report, by the episodes: ascending seasons, each with its aired count and its missing episodes by number. */
  ghost predicate Tells(gaps: seq<SeasonGap>, eps: seq<Episode>, today: string) {
    && (forall i, j :: 0 <= i < j < |gaps| ==> gaps[i].season < gaps[j].season)
    && (forall season :: (exists i :: 0 <= i < |gaps| && gaps[i].season == season)
          <==> exists e :: e in eps && MissingIn(today, season)(e))
    && forall i :: 0 <= i < |gaps| ==> TellsSeason(gaps[i], eps, today)
  }

  ghost predicate TellsSeason(gap: SeasonGap, eps: seq<Episode>, today: string) {
    var number, missing := (e: Episode) => e.number, Where(eps, MissingIn(today, gap.season));
    && gap.aired == |AiredIn(eps, today, gap.season)|
    && Ordered(gap.missing, number) && multiset(gap.missing) == multiset(missing)
    && forall k :: Same(gap.missing, number, k) == Same(missing, number, k)
  }

  lemma {:induction false} WhereMembers<T>(s: seq<T>, chosen: T -> bool)
    ensures forall x :: x in Where(s, chosen) <==> x in s && chosen(x)
  {
    if s != [] {
      WhereMembers(s[1..], chosen);
    }
  }

  lemma ReportsTell(gaps: seq<SeasonGap>, eps: seq<Episode>, today: string)
    requires Reports(gaps, eps, today)
    ensures Tells(gaps, eps, today)
  {
    hide HasAired, Same, Ordered;
    forall i | 0 <= i < |gaps|
      ensures TellsSeason(gaps[i], eps, today) && exists e :: e in eps && MissingIn(today, gaps[i].season)(e)
    {
      var season := gaps[i].season;
      assert ReportsSeason(gaps[i], eps, today);
      GapsOfMeans(eps, today, season);
      AiredCountMeans(eps, today, season);
      WhereMembers(eps, MissingIn(today, season));
      assert gaps[i].missing[0] in multiset(gaps[i].missing);
      assert gaps[i].missing[0] in Where(eps, MissingIn(today, season));
    }
    forall season, e | e in eps && MissingIn(today, season)(e) ensures exists i :: 0 <= i < |gaps| && gaps[i].season == season {
      GapMeans(e, today);
    }
  }

  lemma GapMeans(e: Episode, today: string)
    ensures IsGap(e, today) <==> MissingIn(today, e.season)(e)
  {
    if e.airDate.Some? {
      BeforeMeans(e.airDate.value, today);
    }
  }

  lemma SortedSeasons(seasons: seq<int>)
    requires Distinct(seasons)
    ensures var sorted := SortedBy(seasons, (s: int) => s);
            && (forall s :: s in sorted <==> s in seasons)
            && forall i, j :: 0 <= i < j < |sorted| ==> sorted[i] < sorted[j]
  {
    var sorted := SortedBy(seasons, (s: int) => s);
    SortedFacts(seasons, (s: int) => s);
    DistinctOnce(seasons);
    forall i, j | 0 <= i < j < |sorted| ensures sorted[i] < sorted[j] {
      if sorted[i] == sorted[j] {
        Twice(sorted, i, j);
      }
    }
    forall s ensures s in sorted <==> s in seasons {
      assert s in multiset(sorted) <==> s in multiset(seasons);
    }
  }

  lemma {:induction false} DistinctOnce(s: seq<int>)
    requires Distinct(s)
    ensures forall x :: multiset(s)[x] <= 1
  {
    if s != [] {
      var before, last := s[..|s| - 1], s[|s| - 1];
      assert s == before + [last];
      DistinctOnce(before);
      assert last !in before;
    }
  }

  lemma Twice(s: seq<int>, i: nat, j: nat)
    requires i < j < |s| && s[i] == s[j]
    ensures multiset(s)[s[i]] >= 2
  {
    assert s == s[..j] + [s[j]] + s[j + 1..];
    assert s[..j][i] in s[..j];
  }

  /** What the report says of the episodes. */
  ghost predicate Reports(gaps: seq<SeasonGap>, eps: seq<Episode>, today: string) {
    // The seasons with a gap, in ascending order;
    && (forall i, j :: 0 <= i < j < |gaps| ==> gaps[i].season < gaps[j].season)
    && (forall e :: e in eps && IsGap(e, today) ==> exists i :: 0 <= i < |gaps| && gaps[i].season == e.season)
    // each with its gaps, sorted by number, and the number of its aired episodes.
    && (forall i :: 0 <= i < |gaps| ==> ReportsSeason(gaps[i], eps, today))
  }

  ghost predicate ReportsSeason(gap: SeasonGap, eps: seq<Episode>, today: string) {
    var number, missing := (e: Episode) => e.number, GapsOf(eps, today, gap.season);
    && gap.aired == AiredCount(eps, today, gap.season)
    && gap.missing != []
    && Ordered(gap.missing, number)
    && multiset(gap.missing) == multiset(missing)
    && forall k :: Same(gap.missing, number, k) == Same(missing, number, k)
  }

  lemma {:induction false} GapInSeason(eps: seq<Episode>, today: string, e: Episode)
    requires e in eps && IsGap(e, today)
    ensures e in GapsOf(eps, today, e.season)
  {
    if e != eps[|eps| - 1] {
      assert e in eps[..|eps| - 1];
      GapInSeason(eps[..|eps| - 1], today, e);
    }
  }

  lemma ReportsGaps(eps: seq<Episode>, today: string, order: seq<int>, bySeason: map<int, Tally>, sorted: seq<int>, gaps: seq<SeasonGap>)
    requires Tallied(eps, today, order, bySeason)
    requires forall s :: s in sorted <==> s in order && s in bySeason && bySeason[s].missing != []
    requires forall i, j :: 0 <= i < j < |sorted| ==> sorted[i] < sorted[j]
    requires |gaps| == |sorted|
    requires forall j :: 0 <= j < |sorted| ==> sorted[j] in bySeason && gaps[j] == Gap(sorted[j], bySeason)
    ensures Reports(gaps, eps, today)
  {
    forall i | 0 <= i < |gaps| ensures ReportsSeason(gaps[i], eps, today) {
      var s := sorted[i];
      assert s in sorted && bySeason[s] == Tally(AiredCount(eps, today, s), GapsOf(eps, today, s));
      SortedFacts(bySeason[s].missing, (e: Episode) => e.number);
      assert |multiset(gaps[i].missing)| == |multiset(bySeason[s].missing)|;
    }
    forall e | e in eps && IsGap(e, today) ensures exists i :: 0 <= i < |gaps| && gaps[i].season == e.season {
      GapInSeason(eps, today, e);
      assert e.season in bySeason && e.season in order;
      assert e.season in sorted;
      var i :| 0 <= i < |sorted| && sorted[i] == e.season;
      assert gaps[i].season == e.season;
    }
  }

  // ---- Nothing is lost between the seasons ----

  function Concatenated(gaps: seq<SeasonGap>): seq<Episode> {
    if gaps == [] then [] else Concatenated(gaps[..|gaps| - 1]) + gaps[|gaps| - 1].missing
  }

  /** The gaps of these seasons. */
  ghost function Collected(eps: seq<Episode>, today: string, seasons: seq<int>): multiset<Episode> {
    if seasons == [] then multiset{}
    else Collected(eps, today, seasons[..|seasons| - 1]) + multiset(GapsOf(eps, today, seasons[|seasons| - 1]))
  }

  lemma {:induction false} CollectedStep(eps: seq<Episode>, e: Episode, today: string, seasons: seq<int>)
    requires Distinct(seasons)
    ensures Collected(eps + [e], today, seasons)
            == Collected(eps, today, seasons) + if IsGap(e, today) && e.season in seasons then multiset{e} else multiset{}
  {
    assert (eps + [e])[..|eps|] == eps;
    if seasons != [] {
      var before, last := seasons[..|seasons| - 1], seasons[|seasons| - 1];
      assert seasons == before + [last];
      CollectedStep(eps, e, today, before);
      assert last !in before;
    }
  }

  lemma {:induction false} CollectedIsAll(eps: seq<Episode>, today: string, seasons: seq<int>)
    requires Distinct(seasons) && forall e :: e in eps && IsGap(e, today) ==> e.season in seasons
    ensures Collected(eps, today, seasons) == multiset(AllGaps(eps, today))
  {
    if eps == [] {
      CollectedNothing(today, seasons);
    } else {
      var before, e := eps[..|eps| - 1], eps[|eps| - 1];
      assert eps == before + [e] && e in eps;
      CollectedIsAll(before, today, seasons);
      CollectedStep(before, e, today, seasons);
    }
  }

  lemma {:induction false} CollectedNothing(today: string, seasons: seq<int>)
    ensures Collected([], today, seasons) == multiset{}
  {
    if seasons != [] {
      CollectedNothing(today, seasons[..|seasons| - 1]);
    }
  }

  function Seasons(gaps: seq<SeasonGap>): (seasons: seq<int>)
    ensures |seasons| == |gaps| && forall i :: 0 <= i < |gaps| ==> seasons[i] == gaps[i].season
  {
    seq(|gaps|, i requires 0 <= i < |gaps| => gaps[i].season)
  }

  lemma {:induction false} ConcatenatedIsCollected(gaps: seq<SeasonGap>, eps: seq<Episode>, today: string)
    requires forall i :: 0 <= i < |gaps| ==> ReportsSeason(gaps[i], eps, today)
    ensures multiset(Concatenated(gaps)) == Collected(eps, today, Seasons(gaps))
  {
    if gaps != [] {
      var before := gaps[..|gaps| - 1];
      ConcatenatedIsCollected(before, eps, today);
      assert Seasons(gaps)[..|gaps| - 1] == Seasons(before);
      assert ReportsSeason(gaps[|gaps| - 1], eps, today);
    }
  }

  lemma {:induction false} AllGapsMean(eps: seq<Episode>, today: string)
    ensures AllGaps(eps, today) == Where(eps, (e: Episode) => HasAired(e, today) && !e.tracked)
  {
    hide HasAired, Aired;
    if eps != [] {
      var before, e := eps[..|eps| - 1], eps[|eps| - 1];
      assert eps == before + [e];
      AllGapsMean(before, today);
      WhereLast(before, e, (e: Episode) => HasAired(e, today) && !e.tracked);
      AiredMeans(e, today);
    }
  }

  /** The missing lists together are exactly the aired untracked episodes, each as often as it is listed. */
  lemma ReportIsComplete(gaps: seq<SeasonGap>, eps: seq<Episode>, today: string)
    requires Reports(gaps, eps, today)
    ensures multiset(Concatenated(gaps)) == multiset(Where(eps, (e: Episode) => HasAired(e, today) && !e.tracked))
  {
    AllGapsMean(eps, today);
    ConcatenatedIsCollected(gaps, eps, today);
    forall e | e in eps && IsGap(e, today) ensures e.season in Seasons(gaps) {
      var i :| 0 <= i < |gaps| && gaps[i].season == e.season;
      assert Seasons(gaps)[i] == e.season;
    }
    CollectedIsAll(eps, today, Seasons(gaps));
  }
}
