/** The import run: one directory after another, each split into groups that share one `claimed` set. */
module ImportRun {
  import opened Common
  import opened Import

  /** A group of entries and the show it resolved to. */
  datatype Work = Work(showDir: string, show: ShowRef, action: Action, entries: seq<Entry>)

  function RawPaths(entries: seq<Entry>): (paths: seq<string>)
    ensures |paths| == |entries|
  {
    seq(|entries|, i requires 0 <= i < |entries| => entries[i].rawPath)
  }

  /** The estimate for a show that only a dry run would create. */
  function Estimate(r: ShowImportResult, entries: seq<Entry>, k: nat): ShowImportResult
    requires k <= |entries|
  {
    if k == 0 then r
    else
      var before := Estimate(r, entries, k - 1);
      if entries[k - 1].episode.Some? then before.(episodesTracked := before.episodesTracked + 1)
      else before.(episodesUnmatched := before.episodesUnmatched + 1,
                   unmatchedPaths := before.unmatchedPaths + [entries[k - 1].rawPath])
  }

  /** The outcomes of a group, given what was claimed before it and tracked before its directory. */
  function OutcomesFor(env: ImportEnv, w: Work, claimed: set<nat>, tracked: set<nat>): (os: seq<Outcome>)
    requires w.show.Saved?
    ensures |os| == |w.entries|
  {
    Outcomes(MatchesOf(env, w.show.id, w.entries), claimed, tracked)
  }

  function ResultFor(env: ImportEnv, mode: Mode, w: Work, claimed: set<nat>, tracked: set<nat>): ShowImportResult {
    var empty := EmptyResult(w.showDir, w.action);
    if w.show.NoShow? then empty.(episodesUnmatched := |w.entries|, unmatchedPaths := RawPaths(w.entries))
    else if mode == ShowsOnly then empty
    else if w.show.Unsaved? then Estimate(empty, w.entries, |w.entries|)
    else Summary(w.showDir, w.action, w.entries, OutcomesFor(env, w, claimed, tracked), |w.entries|)
  }

  lemma {:induction false} EstimateIs(r: ShowImportResult, entries: seq<Entry>, k: nat)
    requires k <= |entries| && r.episodesTracked == r.episodesUnmatched == 0 && r.unmatchedPaths == []
    ensures var e := Estimate(r, entries, k);
            && (e.showDir, e.action, e.episodesAlreadyTracked, e.alreadyTrackedPaths) == (r.showDir, r.action, r.episodesAlreadyTracked, r.alreadyTrackedPaths)
            && e.episodesTracked == |Numbered(entries, k)| && e.episodesUnmatched == |Unnumbered(entries, k)|
            && e.unmatchedPaths == PathsWhere(entries, Unnumbered(entries, |entries|), k)
  {
    hide Numbered, Unnumbered;
    NumberedStep(entries, if k == 0 then 0 else k - 1);
    if k > 0 {
      EstimateIs(r, entries, k - 1);
      InUnnumbered(entries, k - 1);
    }
  }

  lemma NumberedStep(entries: seq<Entry>, k: nat)
    requires k <= |entries|
    ensures k == 0 ==> Numbered(entries, 0) == {} && Unnumbered(entries, 0) == {}
    ensures k < |entries| ==>
      && |Numbered(entries, k + 1)| == |Numbered(entries, k)| + (if entries[k].episode.Some? then 1 else 0)
      && |Unnumbered(entries, k + 1)| == |Unnumbered(entries, k)| + (if entries[k].episode.None? then 1 else 0)
  {
    if k < |entries| {
      OneMoreNumbered(entries, k);
      OneMoreUnnumbered(entries, k);
    }
  }

  lemma OneMoreNumbered(entries: seq<Entry>, k: nat)
    requires k < |entries|
    ensures |Numbered(entries, k + 1)| == |Numbered(entries, k)| + if entries[k].episode.Some? then 1 else 0
  {
    assert Numbered(entries, k + 1) == Numbered(entries, k) + if entries[k].episode.Some? then {k} else {};
  }

  lemma OneMoreUnnumbered(entries: seq<Entry>, k: nat)
    requires k < |entries|
    ensures |Unnumbered(entries, k + 1)| == |Unnumbered(entries, k)| + if entries[k].episode.None? then 1 else 0
  {
    assert Unnumbered(entries, k + 1) == Unnumbered(entries, k) + if entries[k].episode.None? then {k} else {};
  }

  lemma InUnnumbered(entries: seq<Entry>, i: nat)
    requires i < |entries|
    ensures i in Unnumbered(entries, |entries|) <==> entries[i].episode.None?
  {
  }

  /** The entries whose file name has an episode number, and those without. */
  function Numbered(entries: seq<Entry>, k: nat): set<nat>
    requires k <= |entries|
  {
    set i | 0 <= i < k && entries[i].episode.Some?
  }

  function Unnumbered(entries: seq<Entry>, k: nat): set<nat>
    requires k <= |entries|
  {
    set i | 0 <= i < k && entries[i].episode.None?
  }

  /** What a group reports, by the kind of its show: none, one that a dry run would create, or an existing one. */
  ghost predicate Reported(env: ImportEnv, mode: Mode, w: Work, claimed: set<nat>, tracked: set<nat>, r: ShowImportResult) {
    && (r.showDir, r.action) == (w.showDir, w.action)
    && match w.show
       case NoShow =>
         && r.episodesTracked == r.episodesAlreadyTracked == 0 && r.alreadyTrackedPaths == []
         && r.episodesUnmatched == |w.entries| == |r.unmatchedPaths|
         && forall i :: 0 <= i < |w.entries| ==> r.unmatchedPaths[i] == w.entries[i].rawPath
       case Unsaved =>
         if mode == ShowsOnly then r == EmptyResult(w.showDir, w.action)
         else
           && r.episodesTracked == |Numbered(w.entries, |w.entries|)| && r.episodesUnmatched == |Unnumbered(w.entries, |w.entries|)|
           && r.unmatchedPaths == PathsWhere(w.entries, Unnumbered(w.entries, |w.entries|), |w.entries|)
           && r.episodesAlreadyTracked == 0 && r.alreadyTrackedPaths == []
       case Saved(id) =>
         if mode == ShowsOnly then r == EmptyResult(w.showDir, w.action)
         else SummaryIs(r, w.entries, MatchesOf(env, id, w.entries), claimed, tracked)
  }

  lemma ResultMeans(env: ImportEnv, mode: Mode, w: Work, claimed: set<nat>, tracked: set<nat>)
    ensures Reported(env, mode, w, claimed, tracked, ResultFor(env, mode, w, claimed, tracked))
  {
    hide SummaryIs, Estimate;
    if w.show.Unsaved? {
      EstimateIs(EmptyResult(w.showDir, w.action), w.entries, |w.entries|);
    }
    if w.show.Saved? {
      SummaryMeans(w.showDir, w.action, w.entries, MatchesOf(env, w.show.id, w.entries), claimed, tracked);
    }
  }

  function ClaimedAfter(env: ImportEnv, mode: Mode, w: Work, claimed: set<nat>): set<nat> {
    if w.show.Saved? && mode != ShowsOnly then claimed + Seen(MatchesOf(env, w.show.id, w.entries), |w.entries|) else claimed
  }

  /** What the first `k` groups of a directory claim. */
  function ClaimedBy(env: ImportEnv, mode: Mode, works: seq<Work>, k: nat): set<nat>
    requires k <= |works|
  {
    if k == 0 then {} else ClaimedAfter(env, mode, works[k - 1], ClaimedBy(env, mode, works, k - 1))
  }

  /** The results of the first `k` groups of a directory; whether the run is dry is not mentioned. */
  function ResultsBy(env: ImportEnv, mode: Mode, works: seq<Work>, tracked: set<nat>, k: nat): seq<ShowImportResult>
    requires k <= |works|
  {
    if k == 0 then []
    else ResultsBy(env, mode, works, tracked, k - 1) + [ResultFor(env, mode, works[k - 1], ClaimedBy(env, mode, works, k - 1), tracked)]
  }

  /** The groups of one directory: its own show's, then one for each name split off. */
  function WorksFor(env: ImportEnv, mode: Mode, showDir: string, entries: seq<Entry>): seq<Work> {
    var (primary, action) := env.resolve(0, showDir);
    if primary.NoShow? || mode == EpisodesOnly then [Work(showDir, primary, action, entries)]
    else
      [Work(showDir, primary, action, Kept(env, primary, entries))]
      + SplitWorks(env, Grouped(entries, NameOf(env, primary), env.normalize))
  }

  function SplitWorks(env: ImportEnv, groups: seq<Group>): (works: seq<Work>)
    ensures |works| == |groups|
  {
    seq(|groups|, i requires 0 <= i < |groups| => SplitWork(env, i + 1, groups[i]))
  }

  function SplitWork(env: ImportEnv, at: nat, g: Group): Work {
    var (show, action) := env.resolve(at, g.display);
    Work(g.display, show, action, g.entries)
  }

  /** The groups of a directory: all of its entries, or those that stay and one group for each other show they name. */
  ghost predicate WorksAre(env: ImportEnv, mode: Mode, showDir: string, entries: seq<Entry>, works: seq<Work>) {
    && works != []
    && works[0].showDir == showDir && (works[0].show, works[0].action) == env.resolve(0, showDir)
    && if works[0].show.NoShow? || mode == EpisodesOnly then |works| == 1 && works[0].entries == entries
       else
         && KeepsExactly(env, works[0].show, entries, works[0].entries)
         && exists groups: seq<Group> :: |groups| == |works| - 1 && SplitsExactly(env, works[0].show, entries, groups)
              && forall i :: 1 <= i < |works| ==>
                   && (works[i].show, works[i].action) == env.resolve(i, works[i].showDir)
                   && works[i].showDir == groups[i - 1].display && works[i].entries == groups[i - 1].entries
  }

  lemma WorksMean(env: ImportEnv, mode: Mode, showDir: string, entries: seq<Entry>)
    ensures WorksAre(env, mode, showDir, entries, WorksFor(env, mode, showDir, entries))
  {
    hide KeepsExactly, SplitsExactly, Grouped;
    var works := WorksFor(env, mode, showDir, entries);
    var primary := env.resolve(0, showDir).0;
    if !(primary.NoShow? || mode == EpisodesOnly) {
      SplitMeans(env, primary, entries);
      var groups := Grouped(entries, NameOf(env, primary), env.normalize);
      assert |groups| == |works| - 1 && SplitsExactly(env, primary, entries, groups);
      forall i | 1 <= i < |works| ensures works[i] == SplitWork(env, i, groups[i - 1]) {
        assert works[i] == SplitWorks(env, groups)[i - 1];
      }
    }
  }

  /** The store after one group of a directory. */
  function WorkStore(env: ImportEnv, mode: Mode, dryRun: bool, w: Work, claimed: set<nat>, store: Store): Store {
    if dryRun || mode == ShowsOnly || !w.show.Saved? then store
    else StoreAfter(store, w.entries, MatchesOf(env, w.show.id, w.entries),
                    OutcomesFor(env, w, claimed, TrackedIds(store.episodes)), env.raceLost, |w.entries|)
  }

  /** The store after the first `k` groups of a directory. */
  ghost function StoreBy(env: ImportEnv, mode: Mode, dryRun: bool, works: seq<Work>, store: Store, k: nat): Store
    requires k <= |works|
  {
    if k == 0 then store
    else WorkStore(env, mode, dryRun, works[k - 1], ClaimedBy(env, mode, works, k - 1), StoreBy(env, mode, dryRun, works, store, k - 1))
  }

  /** Matching returns rows of the table; only a dry run meets a show without an id. */
  ghost predicate ValidEnv(env: ImportEnv, store: Store, dryRun: bool) {
    && (forall show, e :: env.matchEntry(show, e).Some? ==> env.matchEntry(show, e).value in store.episodes)
    && (!dryRun ==> forall at, name :: !env.resolve(at, name).0.Unsaved?)
  }

  /** The state of the loop over a group's entries. */
  ghost predicate Walked(env: ImportEnv, dryRun: bool, w: Work, claimed0: set<nat>, store0: Store,
      claimed: set<nat>, store: Store, result: ShowImportResult, k: nat)
    requires w.show.Saved?
  {
    var matches := MatchesOf(env, w.show.id, w.entries);
    var os := Outcomes(matches, claimed0, TrackedIds(store0.episodes));
    && k <= |w.entries|
    && claimed == claimed0 + Seen(matches, k)
    && result == Summary(w.showDir, w.action, w.entries, os, k)
    && store == if dryRun then store0 else StoreAfter(store0, w.entries, matches, os, env.raceLost, k)
  }

  lemma WalkStep(env: ImportEnv, dryRun: bool, w: Work, claimed0: set<nat>, store0: Store,
      claimed: set<nat>, store: Store, result: ShowImportResult, k: nat,
      outcome: Outcome, claimed': set<nat>, store': Store, result': ShowImportResult)
    requires w.show.Saved? && ValidEnv(env, store0, dryRun) && k < |w.entries|
    requires Walked(env, dryRun, w, claimed0, store0, claimed, store, result, k)
    requires var ep := env.matchEntry(w.show.id, w.entries[k]);
             && outcome == EntryOutcome(ep, claimed, TrackedIds(store.episodes))
             && claimed' == (if ep.Some? then claimed + {ep.value} else claimed)
             && store' == (if outcome == Tracked && !dryRun then WithTracked(store, ep.value, w.entries[k].rawPath, env.raceLost(w.entries[k])) else store)
    requires result' == Tallied(result, outcome, w.entries[k])
    ensures Walked(env, dryRun, w, claimed0, store0, claimed', store', result', k + 1)
  {
    hide TrackedIds, WithTracked, MatchesOf, Seen;
    var matches := MatchesOf(env, w.show.id, w.entries);
    SeenStep(matches, k);
    TrackingAfter(store0, w.entries, matches, claimed0, env.raceLost, k);
    assert outcome == OutcomeOf(matches, claimed0, TrackedIds(store0.episodes), k);
  }

  function EntryOutcome(ep: Option<nat>, claimed: set<nat>, tracked: set<nat>): Outcome {
    if ep.None? then Unmatched
    else if ep.value in claimed then AlreadyTrackedHere
    else if ep.value in tracked then TrackedPreviously
    else Tracked
  }

  function Tallied(r: ShowImportResult, outcome: Outcome, e: Entry): ShowImportResult {
    match outcome
    case Tracked => r.(episodesTracked := r.episodesTracked + 1)
    case AlreadyTrackedHere =>
      r.(episodesAlreadyTracked := r.episodesAlreadyTracked + 1, alreadyTrackedPaths := r.alreadyTrackedPaths + [e.rawPath])
    case Unmatched =>
      r.(episodesUnmatched := r.episodesUnmatched + 1, unmatchedPaths := r.unmatchedPaths + [e.rawPath])
    case TrackedPreviously => r
  }

  // ---- A directory tracks what it claims ----

  ghost predicate NoneUnsaved(works: seq<Work>) {
    forall i :: 0 <= i < |works| ==> !works[i].show.Unsaved?
  }

  /** The state between two groups of a directory. */
  ghost predicate Imported(env: ImportEnv, mode: Mode, dryRun: bool, works: seq<Work>, store0: Store, k: nat,
      claimed: set<nat>, results: seq<ShowImportResult>, store: Store)
  {
    && k <= |works|
    && results == ResultsBy(env, mode, works, TrackedIds(store0.episodes), k)
    && claimed == ClaimedBy(env, mode, works, k)
    && store == StoreBy(env, mode, dryRun, works, store0, k)
  }

  lemma ImportedNone(env: ImportEnv, mode: Mode, dryRun: bool, works: seq<Work>, store: Store)
    ensures Imported(env, mode, dryRun, works, store, 0, {}, [], store)
  {
  }

  lemma ImportedStep(env: ImportEnv, mode: Mode, dryRun: bool, works: seq<Work>, store0: Store, k: nat,
      claimed: set<nat>, results: seq<ShowImportResult>, store: Store, result: ShowImportResult)
    requires ValidEnv(env, store0, dryRun) && k < |works|
    requires !dryRun ==> NoneUnsaved(works)
    requires Imported(env, mode, dryRun, works, store0, k, claimed, results, store)
    requires result == ResultFor(env, mode, works[k], claimed, TrackedIds(store.episodes))
    ensures Imported(env, mode, dryRun, works, store0, k + 1, ClaimedAfter(env, mode, works[k], claimed), results + [result],
                     WorkStore(env, mode, dryRun, works[k], claimed, store))
  {
    ResultAsPredicted(env, mode, dryRun, works, store0, k);
  }

  lemma Resolves(env: ImportEnv, store: Store)
    requires ValidEnv(env, store, false)
    ensures forall at, name :: !env.resolve(at, name).0.Unsaved?
  {
  }

  lemma WorksResolved(env: ImportEnv, mode: Mode, showDir: string, entries: seq<Entry>)
    requires forall at, name :: !env.resolve(at, name).0.Unsaved?
    ensures NoneUnsaved(WorksFor(env, mode, showDir, entries))
  {
  }

  /** Initially tracked plus claimed is what is tracked, and an episode tracked before keeps its whole row. */
  lemma WorkTracks(env: ImportEnv, mode: Mode, w: Work, claimed: set<nat>, tracked0: set<nat>, store: Store)
    requires ValidEnv(env, store, false) && !w.show.Unsaved? && mode != ShowsOnly
    requires TrackedIds(store.episodes) == tracked0 + claimed
    ensures var after := WorkStore(env, mode, false, w, claimed, store).episodes;
            && after.Keys == store.episodes.Keys
            && TrackedIds(after) == tracked0 + ClaimedAfter(env, mode, w, claimed)
            && forall id :: id in store.episodes && (id in TrackedIds(store.episodes) || id !in TrackedIds(after)) ==> after[id] == store.episodes[id]
  {
    if w.show.Saved? {
      TrackingAfter(store, w.entries, MatchesOf(env, w.show.id, w.entries), claimed, env.raceLost, |w.entries|);
    }
  }

  lemma {:induction false} DirectoryTracks(env: ImportEnv, mode: Mode, works: seq<Work>, store: Store, k: nat)
    requires ValidEnv(env, store, false) && k <= |works| && mode != ShowsOnly
    requires NoneUnsaved(works)
    ensures var after := StoreBy(env, mode, false, works, store, k).episodes;
            && after.Keys == store.episodes.Keys
            && TrackedIds(after) == TrackedIds(store.episodes) + ClaimedBy(env, mode, works, k)
            && forall id :: id in store.episodes && (id in TrackedIds(store.episodes) || id !in TrackedIds(after)) ==> after[id] == store.episodes[id]
  {
    if k > 0 {
      DirectoryTracks(env, mode, works, store, k - 1);
      WorkTracks(env, mode, works[k - 1], ClaimedBy(env, mode, works, k - 1), TrackedIds(store.episodes),
                 StoreBy(env, mode, false, works, store, k - 1));
    }
  }

  /** The group sees what the directory has tracked so far, yet its result is the one the first store predicts. */
  lemma ResultAsPredicted(env: ImportEnv, mode: Mode, dryRun: bool, works: seq<Work>, store: Store, k: nat)
    requires ValidEnv(env, store, dryRun) && k < |works|
    requires !dryRun ==> NoneUnsaved(works)
    ensures var now := StoreBy(env, mode, dryRun, works, store, k);
            && ValidEnv(env, now, dryRun)
            && ResultFor(env, mode, works[k], ClaimedBy(env, mode, works, k), TrackedIds(now.episodes))
               == ResultFor(env, mode, works[k], ClaimedBy(env, mode, works, k), TrackedIds(store.episodes))
  {
    if dryRun || mode == ShowsOnly {
      StoreByUnchanged(env, mode, dryRun, works, store, k);
    } else {
      DirectoryTracks(env, mode, works, store, k);
      if works[k].show.Saved? {
        ClaimsHideTracking(MatchesOf(env, works[k].show.id, works[k].entries), ClaimedBy(env, mode, works, k), TrackedIds(store.episodes));
      }
    }
  }

  lemma {:induction false} StoreByUnchanged(env: ImportEnv, mode: Mode, dryRun: bool, works: seq<Work>, store: Store, k: nat)
    requires k <= |works| && (dryRun || mode == ShowsOnly)
    ensures StoreBy(env, mode, dryRun, works, store, k) == store
  {
    if k > 0 {
      StoreByUnchanged(env, mode, dryRun, works, store, k - 1);
    }
  }

  // ---- The whole run ----

  /** One directory: what its lookups answer, and its groups. */
  datatype Directory = Directory(env: ImportEnv, works: seq<Work>)

  function DirectoriesFor(envs: nat -> ImportEnv, mode: Mode, groups: seq<Group>): (dirs: seq<Directory>)
    ensures |dirs| == |groups|
  {
    seq(|groups|, i requires 0 <= i < |groups| => Directory(envs(i), WorksFor(envs(i), mode, groups[i].key, groups[i].entries)))
  }

  ghost function StoreAt(mode: Mode, dryRun: bool, dirs: seq<Directory>, store: Store, d: nat): Store
    requires d <= |dirs|
  {
    if d == 0 then store
    else StoreBy(dirs[d - 1].env, mode, dryRun, dirs[d - 1].works, StoreAt(mode, dryRun, dirs, store, d - 1), |dirs[d - 1].works|)
  }

  ghost function RunResults(mode: Mode, dryRun: bool, dirs: seq<Directory>, store: Store, d: nat): seq<ShowImportResult>
    requires d <= |dirs|
  {
    if d == 0 then []
    else
      RunResults(mode, dryRun, dirs, store, d - 1)
      + ResultsBy(dirs[d - 1].env, mode, dirs[d - 1].works,
                  TrackedIds(StoreAt(mode, dryRun, dirs, store, d - 1).episodes), |dirs[d - 1].works|)
  }

  datatype PathImportResult = PathImportResult(
    showsProcessed: nat,
    showsCreated: nat,
    showsFound: nat,
    showsNotFound: nat,
    episodesTracked: nat,
    episodesUnmatched: nat,
    episodesAlreadyTracked: nat,
    showResults: seq<ShowImportResult>)

  function Actions(results: seq<ShowImportResult>, action: Action): nat {
    if results == [] then 0
    else Actions(results[..|results| - 1], action) + (if results[|results| - 1].action == action then 1 else 0)
  }

  function TrackedSum(results: seq<ShowImportResult>): nat {
    if results == [] then 0 else TrackedSum(results[..|results| - 1]) + results[|results| - 1].episodesTracked
  }

  function UnmatchedSum(results: seq<ShowImportResult>): nat {
    if results == [] then 0 else UnmatchedSum(results[..|results| - 1]) + results[|results| - 1].episodesUnmatched
  }

  function AlreadySum(results: seq<ShowImportResult>): nat {
    if results == [] then 0 else AlreadySum(results[..|results| - 1]) + results[|results| - 1].episodesAlreadyTracked
  }

  /** The counters of the run are the totals over its results. */
  ghost predicate Totalled(r: PathImportResult, shows: nat, results: seq<ShowImportResult>) {
    && r.showsProcessed == shows && r.showResults == results
    && r.showsCreated == Actions(results, Created)
    && r.showsFound == Actions(results, Found)
    && r.showsNotFound == Actions(results, NotFound)
    && r.episodesTracked == TrackedSum(results)
    && r.episodesUnmatched == UnmatchedSum(results)
    && r.episodesAlreadyTracked == AlreadySum(results)
  }

  /** The groups that ended so. */
  function With(results: seq<ShowImportResult>, action: Action, k: nat): set<nat>
    requires k <= |results|
  {
    set i | 0 <= i < k && results[i].action == action
  }

  lemma WithStep(results: seq<ShowImportResult>, action: Action, k: nat)
    requires k <= |results|
    ensures k == 0 ==> |With(results, action, k)| == 0
    ensures k > 0 ==> |With(results, action, k)| == |With(results[..k - 1], action, k - 1)| + if results[k - 1].action == action then 1 else 0
  {
    if k > 0 {
      assert With(results, action, k) == With(results[..k - 1], action, k - 1) + if results[k - 1].action == action then {k - 1} else {};
    } else {
      assert With(results, action, k) == {};
    }
  }

  lemma {:induction false} ActionsAre(results: seq<ShowImportResult>, action: Action)
    ensures Actions(results, action) == |With(results, action, |results|)|
  {
    hide With;
    WithStep(results, action, |results|);
    if results != [] {
      ActionsAre(results[..|results| - 1], action);
    }
  }

  /** All lists of unmatched paths, and all lists of repeated ones, in order. */
  function UnmatchedPaths(results: seq<ShowImportResult>): seq<string> {
    if results == [] then [] else UnmatchedPaths(results[..|results| - 1]) + results[|results| - 1].unmatchedPaths
  }

  function RepeatedPaths(results: seq<ShowImportResult>): seq<string> {
    if results == [] then [] else RepeatedPaths(results[..|results| - 1]) + results[|results| - 1].alreadyTrackedPaths
  }

  ghost predicate ListsFit(results: seq<ShowImportResult>) {
    forall i :: 0 <= i < |results| ==>
      |results[i].unmatchedPaths| == results[i].episodesUnmatched && |results[i].alreadyTrackedPaths| == results[i].episodesAlreadyTracked
  }

  lemma {:induction false} SumsAre(results: seq<ShowImportResult>)
    requires ListsFit(results)
    ensures UnmatchedSum(results) == |UnmatchedPaths(results)| && AlreadySum(results) == |RepeatedPaths(results)|
  {
    if results != [] {
      SumsAre(results[..|results| - 1]);
    }
  }

  /** The counters of a run, by the results it lists. */
  ghost predicate CountersAre(r: PathImportResult) {
    var results := r.showResults;
    && r.showsCreated == |With(results, Created, |results|)|
    && r.showsFound == |With(results, Found, |results|)|
    && r.showsNotFound == |With(results, NotFound, |results|)|
    && r.episodesUnmatched == |UnmatchedPaths(results)| && r.episodesAlreadyTracked == |RepeatedPaths(results)|
  }

  lemma {:induction false} PathsWhereLength(entries: seq<Entry>, chosen: set<nat>, k: nat)
    requires k <= |entries|
    ensures |PathsWhere(entries, chosen, k)| == |set i | 0 <= i < k && i in chosen|
  {
    if k > 0 {
      PathsWhereLength(entries, chosen, k - 1);
      assert (set i | 0 <= i < k && i in chosen)
          == (set i | 0 <= i < k - 1 && i in chosen) + if k - 1 in chosen then {k - 1} else {};
    } else {
      assert (set i | 0 <= i < 0 && i in chosen) == {};
    }
  }

  lemma ChosenLength(entries: seq<Entry>, chosen: set<nat>)
    requires forall i :: i in chosen ==> i < |entries|
    ensures |PathsWhere(entries, chosen, |entries|)| == |chosen|
  {
    PathsWhereLength(entries, chosen, |entries|);
    assert (set i | 0 <= i < |entries| && i in chosen) == chosen;
  }

  lemma ReportFits(env: ImportEnv, mode: Mode, w: Work, claimed: set<nat>, tracked: set<nat>, r: ShowImportResult)
    requires Reported(env, mode, w, claimed, tracked, r)
    ensures |r.unmatchedPaths| == r.episodesUnmatched && |r.alreadyTrackedPaths| == r.episodesAlreadyTracked
  {
    hide PathsWhere, Repeats;
    ChosenLength(w.entries, Unnumbered(w.entries, |w.entries|));
    if w.show.Saved? {
      var matches := MatchesOf(env, w.show.id, w.entries);
      ChosenLength(w.entries, set i | 0 <= i < |matches| && matches[i].None?);
      ChosenLength(w.entries, set i | 0 <= i < |matches| && Repeats(matches, claimed, i));
    }
  }

  lemma {:induction false} ResultsFit(env: ImportEnv, mode: Mode, works: seq<Work>, tracked: set<nat>, k: nat)
    requires k <= |works|
    ensures ListsFit(ResultsBy(env, mode, works, tracked, k))
  {
    hide ResultFor, ClaimedBy, Reported;
    if k > 0 {
      ResultsFit(env, mode, works, tracked, k - 1);
      var claimed := ClaimedBy(env, mode, works, k - 1);
      ResultMeans(env, mode, works[k - 1], claimed, tracked);
      ReportFits(env, mode, works[k - 1], claimed, tracked, ResultFor(env, mode, works[k - 1], claimed, tracked));
    }
  }

  lemma {:induction false} RunFits(mode: Mode, dryRun: bool, dirs: seq<Directory>, store: Store, d: nat)
    requires d <= |dirs|
    ensures ListsFit(RunResults(mode, dryRun, dirs, store, d))
  {
    hide ResultsBy, StoreAt, TrackedIds;
    if d > 0 {
      RunFits(mode, dryRun, dirs, store, d - 1);
      ResultsFit(dirs[d - 1].env, mode, dirs[d - 1].works, TrackedIds(StoreAt(mode, dryRun, dirs, store, d - 1).episodes), |dirs[d - 1].works|);
    }
  }

  lemma CountersMean(r: PathImportResult, shows: nat)
    requires Totalled(r, shows, r.showResults) && ListsFit(r.showResults)
    ensures CountersAre(r)
  {
    ActionsAre(r.showResults, Created);
    ActionsAre(r.showResults, Found);
    ActionsAre(r.showResults, NotFound);
    SumsAre(r.showResults);
  }

  method AddResults(r0: PathImportResult, results: seq<ShowImportResult>) returns (r: PathImportResult)
    requires Totalled(r0, r0.showsProcessed, r0.showResults)
    ensures Totalled(r, r0.showsProcessed, r0.showResults + results)
  {
    r := r0;
    for i := 0 to |results|
      invariant Totalled(r, r0.showsProcessed, r0.showResults + results[..i])
    {
      var s := results[i];
      ghost var before := r.showResults;
      r := r.(showResults := r.showResults + [s]);
      assert r.showResults[..|r.showResults| - 1] == before;
      match s.action {
        case Created => r := r.(showsCreated := r.showsCreated + 1);
        case Found => r := r.(showsFound := r.showsFound + 1);
        case NotFound => r := r.(showsNotFound := r.showsNotFound + 1);
      }
      r := r.(episodesTracked := r.episodesTracked + s.episodesTracked,
              episodesUnmatched := r.episodesUnmatched + s.episodesUnmatched,
              episodesAlreadyTracked := r.episodesAlreadyTracked + s.episodesAlreadyTracked);
      assert r0.showResults + results[..i + 1] == (r0.showResults + results[..i]) + [s];
    }
    assert results[..|results|] == results;
  }

  lemma StaysValid(env: ImportEnv, mode: Mode, dryRun: bool, works: seq<Work>, store: Store, other: ImportEnv)
    requires ValidEnv(env, store, dryRun) && ValidEnv(other, store, dryRun)
    requires !dryRun ==> NoneUnsaved(works)
    ensures ValidEnv(other, StoreBy(env, mode, dryRun, works, store, |works|), dryRun)
  {
    if dryRun || mode == ShowsOnly {
      StoreByUnchanged(env, mode, dryRun, works, store, |works|);
    } else {
      DirectoryTracks(env, mode, works, store, |works|);
    }
  }

  class PathImportOrchestrator {
    /** The session's view and what it has committed. */
    var store: Store
    var saved: Store
    const dryRun: bool
    const mode: Mode

    constructor (store: Store, dryRun: bool, mode: Mode)
      ensures this.store == saved == store && this.dryRun == dryRun && this.mode == mode
    {
      this.store, saved := store, store;
      this.dryRun, this.mode := dryRun, mode;
    }

    method TrackEntry(show: nat, e: Entry, env: ImportEnv, claimed: set<nat>) returns (outcome: Outcome, claimed': set<nat>)
      requires ValidEnv(env, store, dryRun)
      modifies this`store
      ensures var ep := env.matchEntry(show, e);
              && outcome == EntryOutcome(ep, claimed, TrackedIds(old(store).episodes))
              && claimed' == (if ep.Some? then claimed + {ep.value} else claimed)
              && store == (if outcome == Tracked && !dryRun
                           then WithTracked(old(store), ep.value, e.rawPath, env.raceLost(e)) else old(store))
    {
      claimed' := claimed;
      var ep := env.matchEntry(show, e);
      if ep.None? {
        return Unmatched, claimed;
      }
      if ep.value in claimed {
        assert claimed + {ep.value} == claimed;
        return AlreadyTrackedHere, claimed;
      }
      claimed' := claimed + {ep.value};
      var newlyTracked := !store.episodes[ep.value].tracked;
      if !dryRun {
        if newlyTracked {
          store := WithTracked(store, ep.value, e.rawPath, env.raceLost(e));
        } else {
          assert store.episodes == store.episodes[ep.value := store.episodes[ep.value].(tracked := true)];
          store := store.(episodes := store.episodes[ep.value := store.episodes[ep.value].(tracked := true)]);
        }
      }
      outcome := if newlyTracked then Tracked else TrackedPreviously;
    }

    method EstimateDryRun(entries: seq<Entry>, empty: ShowImportResult) returns (result: ShowImportResult)
      ensures result == Estimate(empty, entries, |entries|)
    {
      result := empty;
      for i := 0 to |entries|
        invariant result == Estimate(empty, entries, i)
      {
        result := if entries[i].episode.Some? then result.(episodesTracked := result.episodesTracked + 1)
          else result.(episodesUnmatched := result.episodesUnmatched + 1,
                       unmatchedPaths := result.unmatchedPaths + [entries[i].rawPath]);
      }
    }

    /** The loop over the entries of an existing show's group. */
    method WalkEntries(w: Work, env: ImportEnv, claimed: set<nat>) returns (result: ShowImportResult, claimed': set<nat>)
      requires ValidEnv(env, store, dryRun) && w.show.Saved?
      modifies this`store
      ensures Walked(env, dryRun, w, claimed, old(store), claimed', store, result, |w.entries|)
    {
      claimed', result := claimed, EmptyResult(w.showDir, w.action);
      ghost var store0 := store;
      for i := 0 to |w.entries|
        invariant Walked(env, dryRun, w, claimed, store0, claimed', store, result, i)
        invariant ValidEnv(env, store, dryRun)
      {
        ghost var claimed1, store1, result1 := claimed', store, result;
        var outcome;
        outcome, claimed' := TrackEntry(w.show.id, w.entries[i], env, claimed');
        result := Tallied(result, outcome, w.entries[i]);
        WalkStep(env, dryRun, w, claimed, store0, claimed1, store1, result1, i, outcome, claimed', store, result);
      }
    }

    method ProcessShowEntries(w: Work, env: ImportEnv, claimed: set<nat>) returns (result: ShowImportResult, claimed': set<nat>)
      requires ValidEnv(env, store, dryRun) && store == saved && (w.show.Unsaved? ==> dryRun)
      modifies this
      ensures result == ResultFor(env, mode, w, claimed, TrackedIds(old(store).episodes))
      // New episodes, repeated ones and files without an episode, each counted and listed.
      ensures Reported(env, mode, w, claimed, TrackedIds(old(store).episodes), result)
      ensures claimed' == ClaimedAfter(env, mode, w, claimed)
      ensures store == saved == WorkStore(env, mode, dryRun, w, claimed, old(store))
    {
      hide Reported, Estimate;
      ResultMeans(env, mode, w, claimed, TrackedIds(store.episodes));
      claimed' := claimed;
      result := EmptyResult(w.showDir, w.action);
      if w.show.NoShow? {
        return result.(episodesUnmatched := |w.entries|, unmatchedPaths := RawPaths(w.entries)), claimed;
      }
      if mode == ShowsOnly {
        return;
      }
      if w.show.Unsaved? {
        result := EstimateDryRun(w.entries, result);
        return;
      }
      result, claimed' := WalkEntries(w, env, claimed);
      if !dryRun {
        saved := store;
      }
    }

    method ImportGroup(env: ImportEnv, ghost works: seq<Work>, ghost store0: Store, w: Work, k: nat,
        claimed: set<nat>, results: seq<ShowImportResult>)
      returns (results': seq<ShowImportResult>, claimed': set<nat>)
      requires k < |works| && works[k] == w && ValidEnv(env, store0, dryRun)
      requires !dryRun ==> NoneUnsaved(works)
      requires Imported(env, mode, dryRun, works, store0, k, claimed, results, store) && store == saved
      modifies this
      ensures Imported(env, mode, dryRun, works, store0, k + 1, claimed', results', store) && store == saved
    {
      ResultAsPredicted(env, mode, dryRun, works, store0, k);
      if env.rollsBack(k) {
        store := saved;
      }
      ghost var before := store;
      var result;
      result, claimed' := ProcessShowEntries(w, env, claimed);
      results' := results + [result];
      ImportedStep(env, mode, dryRun, works, store0, k, claimed, results, before, result);
    }

    /** One directory: its results depend on the mode and on what was tracked before, not on whether the run is dry. */
    method ImportShow(showDir: string, entries: seq<Entry>, env: ImportEnv) returns (results: seq<ShowImportResult>)
      requires ValidEnv(env, store, dryRun) && store == saved
      modifies this
      ensures var works := WorksFor(env, mode, showDir, entries);
              && results == ResultsBy(env, mode, works, TrackedIds(old(store).episodes), |works|)
              && store == saved == StoreBy(env, mode, dryRun, works, old(store), |works|)
    {
      hide StoreBy, ResultsBy, ClaimedBy, TrackedIds, ValidEnv, NoneUnsaved;
      ghost var store0, works := store, WorksFor(env, mode, showDir, entries);
      ImportedNone(env, mode, dryRun, works, store);
      if !dryRun {
        Resolves(env, store);
        WorksResolved(env, mode, showDir, entries);
      }
      var (primary, action) := env.resolve(0, showDir);
      var claimed;
      if primary.NoShow? || mode == EpisodesOnly {
        results, claimed := ImportGroup(env, works, store0, Work(showDir, primary, action, entries), 0, {}, []);
        return;
      }
      var matched, mismatched := SplitEntries(env, primary, entries);
      results, claimed := ImportGroup(env, works, store0, Work(showDir, primary, action, matched), 0, {}, []);
      for i := 0 to |mismatched|
        invariant Imported(env, mode, dryRun, works, store0, i + 1, claimed, results, store) && store == saved
      {
        results, claimed := ImportGroup(env, works, store0, SplitWork(env, i + 1, mismatched[i]), i + 1, claimed, results);
      }
    }

    method Run(entries: seq<Entry>, envs: nat -> ImportEnv) returns (r: PathImportResult)
      requires (forall d :: ValidEnv(envs(d), store, dryRun)) && store == saved
      modifies this
      ensures var dirs := DirectoriesFor(envs, mode, Directories(entries));
              && Totalled(r, |dirs|, RunResults(mode, dryRun, dirs, old(store), |dirs|))
              && store == saved == StoreAt(mode, dryRun, dirs, old(store), |dirs|)
      // The counters are the numbers of shows by outcome, and the lengths of the path lists.
      ensures CountersAre(r)
    {
      hide CountersAre, StoreBy, ResultsBy, TrackedIds, ValidEnv, WorksFor;
      var grouped := GroupByShow(entries);
      ghost var dirs, store0 := DirectoriesFor(envs, mode, grouped), store;
      r := PathImportResult(|grouped|, 0, 0, 0, 0, 0, 0, []);
      for d := 0 to |grouped|
        invariant Totalled(r, |dirs|, RunResults(mode, dryRun, dirs, store0, d))
        invariant store == saved == StoreAt(mode, dryRun, dirs, store0, d)
        invariant forall d' :: ValidEnv(envs(d'), store, dryRun)
      {
        ghost var before := store;
        if !dryRun {
          Resolves(envs(d), store);
          WorksResolved(envs(d), mode, grouped[d].key, grouped[d].entries);
        }
        forall d' ensures ValidEnv(envs(d'), StoreBy(envs(d), mode, dryRun, dirs[d].works, before, |dirs[d].works|), dryRun) {
          StaysValid(envs(d), mode, dryRun, dirs[d].works, before, envs(d'));
        }
        var results := ImportShow(grouped[d].key, grouped[d].entries, envs(d));
        r := AddResults(r, results);
      }
      RunFits(mode, dryRun, dirs, store0, |dirs|);
      CountersMean(r, |dirs|);
    }
  }
}
