/** What the counters of an import mean: conservation over groups, directories and whole runs. */
module ImportTotals {
  import opened Common
  import opened Import
  import opened ImportRun

  // ---- One group ----

  /** Each entry of a group is counted once, or was tracked before; the lists are as long as the counters. */
  lemma GroupAccounts(env: ImportEnv, mode: Mode, w: Work, claimed: set<nat>, tracked: set<nat>)
    requires w.show.NoShow? || (w.show.Saved? && mode != ShowsOnly)
    ensures var r := ResultFor(env, mode, w, claimed, tracked);
            var before := if w.show.NoShow? then 0 else Count(OutcomesFor(env, w, claimed, tracked), TrackedPreviously, |w.entries|);
            && r.episodesTracked + r.episodesAlreadyTracked + r.episodesUnmatched + before == |w.entries|
            && |r.unmatchedPaths| == r.episodesUnmatched
            && |r.alreadyTrackedPaths| == r.episodesAlreadyTracked
  {
    if w.show.Saved? {
      var os := OutcomesFor(env, w, claimed, tracked);
      FourOutcomesAddUp(os, |w.entries|);
      ListsMatchCounters(w.entries, os, Unmatched, |w.entries|);
      ListsMatchCounters(w.entries, os, AlreadyTrackedHere, |w.entries|);
    }
  }

  /** The counter of a group is the number of episodes it claims that no one tracked or claimed before. */
  lemma GroupTracks(env: ImportEnv, mode: Mode, w: Work, claimed: set<nat>, tracked: set<nat>)
    requires !w.show.Unsaved?
    ensures ResultFor(env, mode, w, claimed, tracked).episodesTracked == |ClaimedAfter(env, mode, w, claimed) - claimed - tracked|
  {
    if w.show.Saved? && mode != ShowsOnly {
      var matches := MatchesOf(env, w.show.id, w.entries);
      TrackedCountsEpisodes(matches, claimed, tracked, |w.entries|);
      assert claimed + Seen(matches, |w.entries|) - claimed - tracked == Seen(matches, |w.entries|) - (claimed + tracked);
    } else {
      assert claimed - claimed - tracked == {};
    }
  }

  /** The file rows a group tries to insert; what was tracked before its directory decides. */
  function GroupInserts(env: ImportEnv, mode: Mode, w: Work, claimed: set<nat>, tracked: set<nat>): seq<Insert> {
    if mode == ShowsOnly || !w.show.Saved? then []
    else InsertsOf(w.entries, MatchesOf(env, w.show.id, w.entries), OutcomesFor(env, w, claimed, tracked), env.raceLost, |w.entries|)
  }

  lemma GroupFiles(env: ImportEnv, mode: Mode, w: Work, claimed: set<nat>, store: Store)
    requires !w.show.Unsaved?
    ensures WorkStore(env, mode, false, w, claimed, store).files
            == Inserted(store.files, GroupInserts(env, mode, w, claimed, TrackedIds(store.episodes)))
  {
    if w.show.Saved? && mode != ShowsOnly {
      FilesAfter(store, w.entries, MatchesOf(env, w.show.id, w.entries), OutcomesFor(env, w, claimed, TrackedIds(store.episodes)),
                 env.raceLost, |w.entries|);
    }
  }

  lemma GroupInsertsCount(env: ImportEnv, mode: Mode, w: Work, claimed: set<nat>, tracked: set<nat>)
    requires !w.show.Unsaved?
    ensures |GroupInserts(env, mode, w, claimed, tracked)| == ResultFor(env, mode, w, claimed, tracked).episodesTracked
  {
    if w.show.Saved? && mode != ShowsOnly {
      FilesAfter(Store(map[], map[]), w.entries, MatchesOf(env, w.show.id, w.entries), OutcomesFor(env, w, claimed, tracked),
                 env.raceLost, |w.entries|);
    }
  }

  // ---- Chains ----

  lemma {:induction false} SetsChain(sets: seq<set<nat>>, made: seq<nat>, less: set<nat>)
    requires |sets| == |made| + 1
    requires forall i :: 0 <= i < |made| ==> sets[i] <= sets[i + 1] && made[i] == |sets[i + 1] - sets[i] - less|
    ensures |sets[|made|] - less| == |sets[0] - less| + Sum(made)
  {
    if made != [] {
      var n := |made| - 1;
      SetsChain(sets[..n + 1], made[..n], less);
      assert sets[n + 1] - less == (sets[n] - less) + (sets[n + 1] - sets[n] - less);
    }
  }

  lemma {:induction false} SumsTight(low: seq<nat>, high: seq<nat>)
    requires |low| == |high| && forall i :: 0 <= i < |low| ==> low[i] <= high[i]
    ensures Sum(low) <= Sum(high)
    ensures Sum(low) == Sum(high) <==> low == high
  {
    if low != [] {
      var n := |low| - 1;
      SumsTight(low[..n], high[..n]);
      assert low == low[..n] + [low[n]] && high == high[..n] + [high[n]];
    }
  }

  // ---- One directory ----

  /** The tracked episodes that each group of a directory reports. */
  function GroupsMade(env: ImportEnv, mode: Mode, works: seq<Work>, tracked: set<nat>): (made: seq<nat>)
    ensures |made| == |works|
  {
    seq(|works|, i requires 0 <= i < |works| => ResultFor(env, mode, works[i], ClaimedBy(env, mode, works, i), tracked).episodesTracked)
  }

  function DirectoryTotal(env: ImportEnv, mode: Mode, works: seq<Work>, tracked: set<nat>): nat {
    Sum(GroupsMade(env, mode, works, tracked))
  }

  lemma {:induction false} TrackedSumIs(results: seq<ShowImportResult>, made: seq<nat>)
    requires |results| == |made| && forall i :: 0 <= i < |made| ==> results[i].episodesTracked == made[i]
    ensures TrackedSum(results) == Sum(made)
  {
    if made != [] {
      TrackedSumIs(results[..|made| - 1], made[..|made| - 1]);
    }
  }

  lemma {:induction false} ResultsAt(env: ImportEnv, mode: Mode, works: seq<Work>, tracked: set<nat>, k: nat)
    requires k <= |works|
    ensures var results := ResultsBy(env, mode, works, tracked, k);
            && |results| == k
            && forall i :: 0 <= i < k ==> results[i] == ResultFor(env, mode, works[i], ClaimedBy(env, mode, works, i), tracked)
  {
    hide ResultFor, ClaimedBy;
    if k > 0 {
      ResultsAt(env, mode, works, tracked, k - 1);
    }
  }

  lemma DirectoryTotalIs(env: ImportEnv, mode: Mode, works: seq<Work>, tracked: set<nat>)
    ensures TrackedSum(ResultsBy(env, mode, works, tracked, |works|)) == DirectoryTotal(env, mode, works, tracked)
  {
    ResultsAt(env, mode, works, tracked, |works|);
    TrackedSumIs(ResultsBy(env, mode, works, tracked, |works|), GroupsMade(env, mode, works, tracked));
  }

  lemma ClaimsGrow(env: ImportEnv, mode: Mode, w: Work, claimed: set<nat>)
    ensures claimed <= ClaimedAfter(env, mode, w, claimed)
  {
  }

  /** What a directory has claimed before each of its groups, and in the end. */
  function ClaimsAlong(env: ImportEnv, mode: Mode, works: seq<Work>): (sets: seq<set<nat>>)
    ensures |sets| == |works| + 1 && sets[0] == {} && sets[|works|] == ClaimedBy(env, mode, works, |works|)
  {
    seq(|works| + 1, k requires 0 <= k <= |works| => ClaimedBy(env, mode, works, k))
  }

  lemma ClaimsStep(env: ImportEnv, mode: Mode, works: seq<Work>, tracked: set<nat>, i: nat)
    requires NoneUnsaved(works) && i < |works|
    ensures var claims := ClaimsAlong(env, mode, works);
            claims[i] <= claims[i + 1] && GroupsMade(env, mode, works, tracked)[i] == |claims[i + 1] - claims[i] - tracked|
  {
    hide ResultFor, ClaimedAfter;
    GroupTracks(env, mode, works[i], ClaimedBy(env, mode, works, i), tracked);
    ClaimsGrow(env, mode, works[i], ClaimedBy(env, mode, works, i));
  }

  /** Split into its groups, a directory tracks exactly the episodes it claims and that were not tracked before. */
  lemma DirectoryCounts(env: ImportEnv, mode: Mode, works: seq<Work>, tracked: set<nat>)
    requires NoneUnsaved(works)
    ensures DirectoryTotal(env, mode, works, tracked) == |ClaimedBy(env, mode, works, |works|) - tracked|
  {
    hide GroupsMade, ClaimsAlong, ClaimedBy;
    forall i | 0 <= i < |works| {
      ClaimsStep(env, mode, works, tracked, i);
    }
    SetsChain(ClaimsAlong(env, mode, works), GroupsMade(env, mode, works, tracked), tracked);
    assert {} - tracked == {};
  }

  /** The file rows the first `k` groups of a directory try to insert. */
  function DirectoryInserts(env: ImportEnv, mode: Mode, works: seq<Work>, tracked: set<nat>, k: nat): seq<Insert>
    requires k <= |works|
  {
    if k == 0 then []
    else DirectoryInserts(env, mode, works, tracked, k - 1) + GroupInserts(env, mode, works[k - 1], ClaimedBy(env, mode, works, k - 1), tracked)
  }

  /** A group sees what its directory has tracked so far, yet its inserts are those the first store predicts. */
  lemma InsertsAsPredicted(env: ImportEnv, mode: Mode, works: seq<Work>, store: Store, k: nat)
    requires ValidEnv(env, store, false) && k < |works| && NoneUnsaved(works) && mode != ShowsOnly
    ensures var claimed, now := ClaimedBy(env, mode, works, k), StoreBy(env, mode, false, works, store, k);
            GroupInserts(env, mode, works[k], claimed, TrackedIds(now.episodes))
            == GroupInserts(env, mode, works[k], claimed, TrackedIds(store.episodes))
  {
    DirectoryTracks(env, mode, works, store, k);
    if works[k].show.Saved? {
      ClaimsHideTracking(MatchesOf(env, works[k].show.id, works[k].entries), ClaimedBy(env, mode, works, k), TrackedIds(store.episodes));
    }
  }

  lemma DirectoryFilesStep(env: ImportEnv, mode: Mode, works: seq<Work>, store: Store, k: nat)
    requires ValidEnv(env, store, false) && k < |works| && NoneUnsaved(works) && mode != ShowsOnly
    ensures StoreBy(env, mode, false, works, store, k + 1).files
            == Inserted(StoreBy(env, mode, false, works, store, k).files,
                        GroupInserts(env, mode, works[k], ClaimedBy(env, mode, works, k), TrackedIds(store.episodes)))
  {
    hide GroupInserts, Inserted, WorkStore, TrackedIds, ValidEnv, ClaimedBy;
    GroupFiles(env, mode, works[k], ClaimedBy(env, mode, works, k), StoreBy(env, mode, false, works, store, k));
    InsertsAsPredicted(env, mode, works, store, k);
  }

  lemma NoFiles(env: ImportEnv, mode: Mode, works: seq<Work>, store: Store)
    ensures StoreBy(env, mode, false, works, store, 0) == store && Inserted(store.files, []) == store.files
  {
  }

  lemma {:induction false} DirectoryFiles(env: ImportEnv, mode: Mode, works: seq<Work>, store: Store, k: nat)
    requires ValidEnv(env, store, false) && k <= |works| && NoneUnsaved(works) && mode != ShowsOnly
    ensures StoreBy(env, mode, false, works, store, k).files
            == Inserted(store.files, DirectoryInserts(env, mode, works, TrackedIds(store.episodes), k))
  {
    hide GroupInserts, Inserted, StoreBy, TrackedIds, ValidEnv, ClaimedBy;
    if k == 0 {
      NoFiles(env, mode, works, store);
    } else {
      DirectoryFiles(env, mode, works, store, k - 1);
      DirectoryFilesStep(env, mode, works, store, k - 1);
      InsertedConcat(store.files, DirectoryInserts(env, mode, works, TrackedIds(store.episodes), k - 1),
                     GroupInserts(env, mode, works[k - 1], ClaimedBy(env, mode, works, k - 1), TrackedIds(store.episodes)));
    }
  }

  lemma MadeByGroup(env: ImportEnv, mode: Mode, works: seq<Work>, tracked: set<nat>, k: nat)
    requires k < |works| && NoneUnsaved(works)
    ensures |GroupInserts(env, mode, works[k], ClaimedBy(env, mode, works, k), tracked)| == GroupsMade(env, mode, works, tracked)[k]
  {
    hide GroupInserts, ResultFor, ClaimedBy;
    GroupInsertsCount(env, mode, works[k], ClaimedBy(env, mode, works, k), tracked);
  }

  lemma {:induction false} DirectoryInsertsCount(env: ImportEnv, mode: Mode, works: seq<Work>, tracked: set<nat>, k: nat)
    requires k <= |works| && NoneUnsaved(works)
    ensures |DirectoryInserts(env, mode, works, tracked, k)| == Sum(GroupsMade(env, mode, works, tracked)[..k])
  {
    hide GroupInserts, GroupsMade, ClaimedBy;
    var made := GroupsMade(env, mode, works, tracked);
    if k > 0 {
      DirectoryInsertsCount(env, mode, works, tracked, k - 1);
      MadeByGroup(env, mode, works, tracked, k - 1);
      assert made[..k][..k - 1] == made[..k - 1];
    }
  }

  // ---- The whole run ----

  lemma {:induction false} TrackedSumAppend(a: seq<ShowImportResult>, b: seq<ShowImportResult>)
    ensures TrackedSum(a + b) == TrackedSum(a) + TrackedSum(b)
  {
    if b == [] {
      assert a + b == a;
    } else {
      TrackedSumAppend(a, b[..|b| - 1]);
      assert (a + b)[..|a + b| - 1] == a + b[..|b| - 1];
    }
  }

  /** The tracked episodes that each directory of a run reports. */
  ghost function DirectoriesMade(mode: Mode, dryRun: bool, dirs: seq<Directory>, store: Store): (made: seq<nat>)
    ensures |made| == |dirs|
  {
    seq(|dirs|, d requires 0 <= d < |dirs| =>
      DirectoryTotal(dirs[d].env, mode, dirs[d].works, TrackedIds(StoreAt(mode, dryRun, dirs, store, d).episodes)))
  }

  ghost function RunTotal(mode: Mode, dryRun: bool, dirs: seq<Directory>, store: Store): nat {
    Sum(DirectoriesMade(mode, dryRun, dirs, store))
  }

  lemma {:induction false} PrefixRunTotal(mode: Mode, dryRun: bool, dirs: seq<Directory>, store: Store, d: nat)
    requires d <= |dirs|
    ensures TrackedSum(RunResults(mode, dryRun, dirs, store, d)) == Sum(DirectoriesMade(mode, dryRun, dirs, store)[..d])
  {
    hide DirectoryTotal, StoreBy, StoreAt, ResultsBy, TrackedIds;
    if d > 0 {
      PrefixRunTotal(mode, dryRun, dirs, store, d - 1);
      var made := DirectoriesMade(mode, dryRun, dirs, store);
      assert made[..d][..d - 1] == made[..d - 1];
      var dir, tracked := dirs[d - 1], TrackedIds(StoreAt(mode, dryRun, dirs, store, d - 1).episodes);
      DirectoryTotalIs(dir.env, mode, dir.works, tracked);
      TrackedSumAppend(RunResults(mode, dryRun, dirs, store, d - 1), ResultsBy(dir.env, mode, dir.works, tracked, |dir.works|));
    }
  }

  lemma RunTotalIs(mode: Mode, dryRun: bool, dirs: seq<Directory>, store: Store)
    ensures TrackedSum(RunResults(mode, dryRun, dirs, store, |dirs|)) == RunTotal(mode, dryRun, dirs, store)
  {
    PrefixRunTotal(mode, dryRun, dirs, store, |dirs|);
    assert DirectoriesMade(mode, dryRun, dirs, store)[..|dirs|] == DirectoriesMade(mode, dryRun, dirs, store);
  }

  ghost predicate AllResolved(dirs: seq<Directory>, store: Store) {
    forall d :: 0 <= d < |dirs| ==> NoneUnsaved(dirs[d].works) && ValidEnv(dirs[d].env, store, false)
  }

  /** Over a run, exactly the episodes turn tracked that a directory claims; an episode tracked before keeps its row. */
  lemma {:induction false} RunTracks(mode: Mode, dirs: seq<Directory>, store: Store, d: nat)
    requires d <= |dirs| && AllResolved(dirs, store) && mode != ShowsOnly
    ensures var after := StoreAt(mode, false, dirs, store, d).episodes;
            && after.Keys == store.episodes.Keys
            && TrackedIds(after) == TrackedIds(store.episodes) + ClaimedBefore(mode, dirs, d)
            && forall id :: id in TrackedIds(store.episodes) ==> after[id] == store.episodes[id]
  {
    if d > 0 {
      RunTracks(mode, dirs, store, d - 1);
      var before := StoreAt(mode, false, dirs, store, d - 1);
      DirectoryTracks(dirs[d - 1].env, mode, dirs[d - 1].works, before, |dirs[d - 1].works|);
    }
  }

  /** What a directory claims, and what those before the `d`-th claim. */
  function Claims(mode: Mode, dir: Directory): set<nat> {
    ClaimedBy(dir.env, mode, dir.works, |dir.works|)
  }

  function ClaimedBefore(mode: Mode, dirs: seq<Directory>, d: nat): set<nat>
    requires d <= |dirs|
  {
    if d == 0 then {} else ClaimedBefore(mode, dirs, d - 1) + Claims(mode, dirs[d - 1])
  }

  ghost function TrackedAt(mode: Mode, dirs: seq<Directory>, store: Store, d: nat): set<nat>
    requires d <= |dirs|
  {
    TrackedIds(StoreAt(mode, false, dirs, store, d).episodes)
  }

  ghost function TrackedAlong(mode: Mode, dirs: seq<Directory>, store: Store): (sets: seq<set<nat>>)
    ensures |sets| == |dirs| + 1 && sets[0] == TrackedIds(store.episodes) && sets[|dirs|] == TrackedAt(mode, dirs, store, |dirs|)
  {
    seq(|dirs| + 1, d requires 0 <= d <= |dirs| => TrackedAt(mode, dirs, store, d))
  }

  lemma TrackedAlongAt(mode: Mode, dirs: seq<Directory>, store: Store, d: nat)
    requires d <= |dirs| && AllResolved(dirs, store) && mode != ShowsOnly
    ensures TrackedAlong(mode, dirs, store)[d] == TrackedAt(mode, dirs, store, d)
            == TrackedIds(store.episodes) + ClaimedBefore(mode, dirs, d)
  {
    RunTracks(mode, dirs, store, d);
  }

  lemma MadeAt(mode: Mode, dirs: seq<Directory>, store: Store, d: nat)
    requires d < |dirs| && AllResolved(dirs, store)
    ensures DirectoriesMade(mode, false, dirs, store)[d] == |Claims(mode, dirs[d]) - TrackedAt(mode, dirs, store, d)|
  {
    hide StoreAt, TrackedIds;
    DirectoryCounts(dirs[d].env, mode, dirs[d].works, TrackedAt(mode, dirs, store, d));
  }

  lemma NewlyTracked(tracked: set<nat>, before: set<nat>, claims: set<nat>)
    ensures tracked + (before + claims) - (tracked + before) - tracked == claims - (tracked + before)
  {
  }

  lemma RunCountsAt(mode: Mode, dirs: seq<Directory>, store: Store, d: nat)
    requires d < |dirs| && AllResolved(dirs, store) && mode != ShowsOnly
    ensures var sets := TrackedAlong(mode, dirs, store);
            && sets[d] <= sets[d + 1]
            && DirectoriesMade(mode, false, dirs, store)[d] == |sets[d + 1] - sets[d] - TrackedIds(store.episodes)|
  {
    hide TrackedAlong, TrackedAt, TrackedIds, DirectoriesMade, AllResolved, Claims;
    TrackedAlongAt(mode, dirs, store, d);
    TrackedAlongAt(mode, dirs, store, d + 1);
    MadeAt(mode, dirs, store, d);
    NewlyTracked(TrackedIds(store.episodes), ClaimedBefore(mode, dirs, d), Claims(mode, dirs[d]));
  }

  /** The total is the number of episodes that turn tracked over the run. */
  lemma RunCounts(mode: Mode, dirs: seq<Directory>, store: Store)
    requires AllResolved(dirs, store) && mode != ShowsOnly
    ensures RunTotal(mode, false, dirs, store) == |TrackedAt(mode, dirs, store, |dirs|) - TrackedIds(store.episodes)|
  {
    hide TrackedAt, TrackedIds, TrackedAlong, DirectoriesMade, AllResolved;
    forall d | 0 <= d < |dirs| {
      RunCountsAt(mode, dirs, store, d);
    }
    SetsChain(TrackedAlong(mode, dirs, store), DirectoriesMade(mode, false, dirs, store), TrackedIds(store.episodes));
    assert TrackedIds(store.episodes) - TrackedIds(store.episodes) == {};
  }

  lemma StaysResolved(mode: Mode, dirs: seq<Directory>, store: Store, d: nat)
    requires d < |dirs| && AllResolved(dirs, store) && mode != ShowsOnly
    ensures NoneUnsaved(dirs[d].works) && ValidEnv(dirs[d].env, StoreAt(mode, false, dirs, store, d), false)
  {
    RunTracks(mode, dirs, store, d);
  }

  /** The file rows directory `d` tries to insert: what was tracked before the run and what earlier directories claim decides. */
  function InsertsAt(mode: Mode, dirs: seq<Directory>, tracked: set<nat>, d: nat): seq<Insert>
    requires d < |dirs|
  {
    DirectoryInserts(dirs[d].env, mode, dirs[d].works, tracked + ClaimedBefore(mode, dirs, d), |dirs[d].works|)
  }

  function RunInserts(mode: Mode, dirs: seq<Directory>, tracked: set<nat>, d: nat): seq<Insert>
    requires d <= |dirs|
  {
    if d == 0 then [] else RunInserts(mode, dirs, tracked, d - 1) + InsertsAt(mode, dirs, tracked, d - 1)
  }

  lemma RunFilesStep(mode: Mode, dirs: seq<Directory>, store: Store, d: nat)
    requires d < |dirs| && AllResolved(dirs, store) && mode != ShowsOnly
    ensures StoreAt(mode, false, dirs, store, d + 1).files
            == Inserted(StoreAt(mode, false, dirs, store, d).files, InsertsAt(mode, dirs, TrackedIds(store.episodes), d))
  {
    hide Inserted, DirectoryInserts, StoreBy, TrackedIds, ValidEnv, NoneUnsaved, AllResolved, ClaimedBefore;
    StaysResolved(mode, dirs, store, d);
    TrackedAlongAt(mode, dirs, store, d);
    DirectoryFiles(dirs[d].env, mode, dirs[d].works, StoreAt(mode, false, dirs, store, d), |dirs[d].works|);
  }

  lemma InsertsCountAt(mode: Mode, dirs: seq<Directory>, store: Store, d: nat)
    requires d < |dirs| && AllResolved(dirs, store) && mode != ShowsOnly
    ensures |InsertsAt(mode, dirs, TrackedIds(store.episodes), d)| == DirectoriesMade(mode, false, dirs, store)[d]
  {
    hide DirectoryInserts, StoreAt, TrackedIds, ClaimedBefore, GroupsMade;
    var dir, tracked := dirs[d], TrackedIds(StoreAt(mode, false, dirs, store, d).episodes);
    TrackedAlongAt(mode, dirs, store, d);
    DirectoryInsertsCount(dir.env, mode, dir.works, tracked, |dir.works|);
    var groups := GroupsMade(dir.env, mode, dir.works, tracked);
    assert groups[..|dir.works|] == groups;
  }

  lemma NoRunFiles(mode: Mode, dirs: seq<Directory>, store: Store)
    ensures StoreAt(mode, false, dirs, store, 0) == store && Inserted(store.files, []) == store.files
  {
  }

  lemma {:induction false} RunFiles(mode: Mode, dirs: seq<Directory>, store: Store, d: nat)
    requires d <= |dirs| && AllResolved(dirs, store) && mode != ShowsOnly
    ensures StoreAt(mode, false, dirs, store, d).files == Inserted(store.files, RunInserts(mode, dirs, TrackedIds(store.episodes), d))
  {
    hide Inserted, InsertsAt, StoreAt, TrackedIds, AllResolved;
    if d == 0 {
      NoRunFiles(mode, dirs, store);
    } else {
      RunFiles(mode, dirs, store, d - 1);
      RunFilesStep(mode, dirs, store, d - 1);
      InsertedConcat(store.files, RunInserts(mode, dirs, TrackedIds(store.episodes), d - 1),
                     InsertsAt(mode, dirs, TrackedIds(store.episodes), d - 1));
    }
  }

  lemma {:induction false} RunInsertsCount(mode: Mode, dirs: seq<Directory>, store: Store, d: nat)
    requires d <= |dirs| && AllResolved(dirs, store) && mode != ShowsOnly
    ensures |RunInserts(mode, dirs, TrackedIds(store.episodes), d)| == Sum(DirectoriesMade(mode, false, dirs, store)[..d])
  {
    hide InsertsAt, DirectoriesMade, TrackedIds, AllResolved;
    var made := DirectoriesMade(mode, false, dirs, store);
    if d > 0 {
      RunInsertsCount(mode, dirs, store, d - 1);
      InsertsCountAt(mode, dirs, store, d - 1);
      assert made[..d][..d - 1] == made[..d - 1];
    }
  }

  /**
   The total is the number of new file rows exactly when no insert is lost, no tracked path was in the table
   before the run, and no path is tracked twice; it is never less.
   */
  lemma RunRows(mode: Mode, dirs: seq<Directory>, store: Store)
    requires AllResolved(dirs, store) && mode != ShowsOnly
    ensures var files, made := StoreAt(mode, false, dirs, store, |dirs|).files, RunTotal(mode, false, dirs, store);
            && |files| <= |store.files| + made
            && (|files| == |store.files| + made <==> AllNew(store.files, RunInserts(mode, dirs, TrackedIds(store.episodes), |dirs|)))
            && forall path :: path in store.files ==> path in files && files[path] == store.files[path]
  {
    hide StoreAt, RunInserts, TrackedIds, AllResolved, DirectoriesMade, Inserted, AllNew;
    var inserts := RunInserts(mode, dirs, TrackedIds(store.episodes), |dirs|);
    RunFiles(mode, dirs, store, |dirs|);
    RunInsertsCount(mode, dirs, store, |dirs|);
    assert DirectoriesMade(mode, false, dirs, store)[..|dirs|] == DirectoriesMade(mode, false, dirs, store);
    InsertedExactly(store.files, inserts);
    InsertedOrigin(store.files, inserts);
  }

  // ---- Every entry lands in exactly one group ----

  function WorkSizes(works: seq<Work>): (sizes: seq<nat>)
    ensures |sizes| == |works| && forall i :: 0 <= i < |works| ==> sizes[i] == |works[i].entries|
  {
    seq(|works|, i requires 0 <= i < |works| => |works[i].entries|)
  }

  lemma {:induction false} SumCons(x: nat, s: seq<nat>)
    ensures Sum([x] + s) == x + Sum(s)
  {
    if s == [] {
      assert [x] + s == [x] && [x][..0] == [];
    } else {
      SumCons(x, s[..|s| - 1]);
      assert ([x] + s)[..|s|] == [x] + s[..|s| - 1];
    }
  }

  /** The groups of a directory hold all of its entries once. */
  lemma WorksPartition(env: ImportEnv, mode: Mode, showDir: string, entries: seq<Entry>)
    ensures Sum(WorkSizes(WorksFor(env, mode, showDir, entries))) == |entries|
  {
    hide GroupsOf, InOrderMet, Grouped, Kept, WithKey;
    var (primary, action) := env.resolve(0, showDir);
    var sizes := WorkSizes(WorksFor(env, mode, showDir, entries));
    if primary.NoShow? || mode == EpisodesOnly {
      assert sizes == [|entries|] + [];
      SumCons(|entries|, []);
    } else {
      var groups := Grouped(entries, NameOf(env, primary), env.normalize);
      SplitPartition(env, primary, entries);
      assert sizes == [|Kept(env, primary, entries)|] + Sizes(groups);
      SumCons(|Kept(env, primary, entries)|, Sizes(groups));
    }
  }

  /** The groups of all directories together hold every entry of the run once. */
  lemma RunPartition(envs: nat -> ImportEnv, mode: Mode, entries: seq<Entry>)
    ensures var dirs := DirectoriesFor(envs, mode, Directories(entries));
            Sum(seq(|dirs|, d requires 0 <= d < |dirs| => Sum(WorkSizes(dirs[d].works)))) == |entries|
  {
    hide GroupsOf, InOrderMet, Grouped;
    var groups := Directories(entries);
    var dirs := DirectoriesFor(envs, mode, groups);
    DirectoriesPartition(entries);
    forall d | 0 <= d < |dirs| ensures Sum(WorkSizes(dirs[d].works)) == Sizes(groups)[d] {
      WorksPartition(envs(d), mode, groups[d].key, groups[d].entries);
    }
    assert seq(|dirs|, d requires 0 <= d < |dirs| => Sum(WorkSizes(dirs[d].works))) == Sizes(groups);
  }

  // ---- Does the dry run predict the real one? ----

  /** For one directory, always: both imports return the same results. */
  method DryThenReal(store: Store, mode: Mode, showDir: string, entries: seq<Entry>, env: ImportEnv)
      returns (dry: seq<ShowImportResult>, actual: seq<ShowImportResult>)
    requires ValidEnv(env, store, false)
    ensures dry == actual
    ensures TrackedSum(actual) == |Claims(mode, Directory(env, WorksFor(env, mode, showDir, entries))) - TrackedIds(store.episodes)|
  {
    var preview := new PathImportOrchestrator(store, true, mode);
    dry := preview.ImportShow(showDir, entries, env);
    var orchestrator := new PathImportOrchestrator(store, false, mode);
    actual := orchestrator.ImportShow(showDir, entries, env);
    ghost var works := WorksFor(env, mode, showDir, entries);
    WorksResolved(env, mode, showDir, entries);
    DirectoryCounts(env, mode, works, TrackedIds(store.episodes));
    DirectoryTotalIs(env, mode, works, TrackedIds(store.episodes));
  }

  /** Two directories claim the same episode only if it was tracked before the run. */
  ghost predicate OverlapsOnlyTracked(mode: Mode, dirs: seq<Directory>, tracked: set<nat>) {
    forall i, j :: 0 <= i < j < |dirs| ==> Claims(mode, dirs[i]) * Claims(mode, dirs[j]) <= tracked
  }

  lemma {:induction false} ClaimedBeforeIs(mode: Mode, dirs: seq<Directory>, d: nat)
    requires d <= |dirs|
    ensures forall id :: id in ClaimedBefore(mode, dirs, d) <==> exists i :: 0 <= i < d && id in Claims(mode, dirs[i])
  {
    if d > 0 {
      ClaimedBeforeIs(mode, dirs, d - 1);
    }
  }

  lemma {:induction false} DryStore(mode: Mode, dirs: seq<Directory>, store: Store, d: nat)
    requires d <= |dirs|
    ensures StoreAt(mode, true, dirs, store, d) == store
  {
    if d > 0 {
      DryStore(mode, dirs, store, d - 1);
      StoreByUnchanged(dirs[d - 1].env, mode, true, dirs[d - 1].works, store, |dirs[d - 1].works|);
    }
  }

  /** What directory `d` reports in a dry run and in a real one. */
  lemma TotalsAt(mode: Mode, dirs: seq<Directory>, store: Store, d: nat)
    requires d < |dirs| && AllResolved(dirs, store) && mode != ShowsOnly
    ensures var claims, tracked := Claims(mode, dirs[d]), TrackedIds(store.episodes);
            && DirectoriesMade(mode, true, dirs, store)[d] == |claims - tracked|
            && DirectoriesMade(mode, false, dirs, store)[d] == |claims - (tracked + ClaimedBefore(mode, dirs, d))|
  {
    DryStore(mode, dirs, store, d);
    RunTracks(mode, dirs, store, d);
    DirectoryCounts(dirs[d].env, mode, dirs[d].works, TrackedIds(store.episodes));
    DirectoryCounts(dirs[d].env, mode, dirs[d].works, TrackedAt(mode, dirs, store, d));
  }

  /** For a whole run the dry total is never too low, and exact only if no two directories claim the same untracked episode. */
  lemma DryTotalExactly(mode: Mode, dirs: seq<Directory>, store: Store)
    requires AllResolved(dirs, store) && mode != ShowsOnly
    ensures RunTotal(mode, false, dirs, store) <= RunTotal(mode, true, dirs, store)
    ensures RunTotal(mode, false, dirs, store) == RunTotal(mode, true, dirs, store)
            <==> OverlapsOnlyTracked(mode, dirs, TrackedIds(store.episodes))
  {
    var dry, actual := DirectoriesMade(mode, true, dirs, store), DirectoriesMade(mode, false, dirs, store);
    var tracked := TrackedIds(store.episodes);
    forall d | 0 <= d < |dirs|
      ensures actual[d] <= dry[d] && (actual[d] == dry[d] <==> Claims(mode, dirs[d]) * ClaimedBefore(mode, dirs, d) <= tracked)
    {
      TotalsAt(mode, dirs, store, d);
      LostOverlap(Claims(mode, dirs[d]), tracked, ClaimedBefore(mode, dirs, d));
    }
    SumsTight(actual, dry);
    OverlapsEarlier(mode, dirs, tracked);
  }

  // ---- Inputs on which the totals come apart ----

  /** A directory of one file that its only show matches to episode 7. */
  function OneFile(path: string, lost: bool): Directory {
    var env := ImportEnv((at, name) => (Saved(1), Found), at => false, (show, e) => Some(7), e => lost,
                         e => ParseRaises, (name, show) => true, name => name);
    Directory(env, [Work("Show", Saved(1), Found, [Entry(1, path, "Show", Some(1), false)])])
  }

  /** Episode 7 is not tracked yet. */
  function Untracked(files: map<string, nat>): Store {
    Store(map[7 := Episode(false, None, false)], files)
  }

  lemma OneFileFacts(path: string, lost: bool, files: map<string, nat>)
    ensures Claims(Full, OneFile(path, lost)) == {7} && TrackedIds(Untracked(files).episodes) == {}
    ensures NoneUnsaved(OneFile(path, lost).works) && ValidEnv(OneFile(path, lost).env, Untracked(files), false)
  {
    var dir := OneFile(path, lost);
    var w := dir.works[0];
    var matches := MatchesOf(dir.env, 1, w.entries);
    assert matches == [Some(7)];
    assert Seen([Some(7)], 1) == {7} by {
      assert [Some(7)][0].value == 7;
    }
    assert ClaimedBy(dir.env, Full, dir.works, 1) == ClaimedAfter(dir.env, Full, w, {}) == {} + Seen(matches, 1);
  }

  /** Two directories with the same untracked episode: the dry run counts it twice, the real one once. */
  lemma DryRunOvercounts(a: string, b: string, files: map<string, nat>)
    ensures var dirs, store := [OneFile(a, false), OneFile(b, false)], Untracked(files);
            && AllResolved(dirs, store)
            && RunTotal(Full, true, dirs, store) == 2 && RunTotal(Full, false, dirs, store) == 1
  {
    hide OneFile, Untracked, TrackedIds, Claims;
    var dirs, store := [OneFile(a, false), OneFile(b, false)], Untracked(files);
    OneFileFacts(a, false, files);
    OneFileFacts(b, false, files);
    TotalsAt(Full, dirs, store, 0);
    TotalsAt(Full, dirs, store, 1);
    assert ClaimedBefore(Full, dirs, 0) == {} && ClaimedBefore(Full, dirs, 1) == {} + Claims(Full, dirs[0]) == {7};
    assert DirectoriesMade(Full, true, dirs, store) == [1, 1];
    assert DirectoriesMade(Full, false, dirs, store) == [1, 0];
    assert Sum([1, 1]) == 2 && Sum([1, 0]) == 1;
  }

  /** A tracked episode whose path is known, or whose insert another request wins: the run counts it and makes no file row. */
  lemma CountedWithoutRow(path: string, lost: bool, files: map<string, nat>)
    requires lost || path in files
    ensures var dirs, store := [OneFile(path, lost)], Untracked(files);
            && AllResolved(dirs, store)
            && RunTotal(Full, false, dirs, store) == 1 && StoreAt(Full, false, dirs, store, 1).files == files
  {
    var dirs, store := [OneFile(path, lost)], Untracked(files);
    OneFileFacts(path, lost, files);
    RowOfOneFile(path, lost, files);
    OneFileCounts(path, lost, files);
  }

  lemma OneFileCounts(path: string, lost: bool, files: map<string, nat>)
    ensures RunTotal(Full, false, [OneFile(path, lost)], Untracked(files)) == 1
  {
    hide OneFile, Untracked, TrackedIds, Claims;
    var dirs, store := [OneFile(path, lost)], Untracked(files);
    OneFileFacts(path, lost, files);
    TotalsAt(Full, dirs, store, 0);
    assert ClaimedBefore(Full, dirs, 0) == {} && {7} - ({} + {}) == {7};
    assert DirectoriesMade(Full, false, dirs, store) == [1] && Sum([1]) == 1;
  }

  lemma RowOfOneFile(path: string, lost: bool, files: map<string, nat>)
    requires lost || path in files
    ensures StoreAt(Full, false, [OneFile(path, lost)], Untracked(files), 1).files == files
  {
    var dir, dirs, store := OneFile(path, lost), [OneFile(path, lost)], Untracked(files);
    assert StoreAt(Full, false, dirs, store, 0) == store;
    assert StoreBy(dir.env, Full, false, dir.works, store, 0) == store;
    assert StoreAt(Full, false, dirs, store, 1) == StoreBy(dir.env, Full, false, dir.works, store, 1)
                                                == WorkStore(dir.env, Full, false, dir.works[0], {}, store);
    var w := dir.works[0];
    var matches, os := MatchesOf(dir.env, 1, w.entries), OutcomesFor(dir.env, w, {}, TrackedIds(store.episodes));
    assert StoreAfter(store, w.entries, matches, os, dir.env.raceLost, 0) == store;
    assert w.entries[0].rawPath == path && dir.env.raceLost(w.entries[0]) == lost;
  }

  lemma LostOverlap(claims: set<nat>, tracked: set<nat>, before: set<nat>)
    ensures |claims - (tracked + before)| <= |claims - tracked|
    ensures |claims - (tracked + before)| == |claims - tracked| <==> claims * before <= tracked
  {
    var lost := claims * before - tracked;
    assert claims - tracked == (claims - (tracked + before)) + lost;
    assert lost == {} <==> claims * before <= tracked;
  }

  lemma OverlapsEarlier(mode: Mode, dirs: seq<Directory>, tracked: set<nat>)
    ensures OverlapsOnlyTracked(mode, dirs, tracked)
            <==> forall d :: 0 <= d < |dirs| ==> Claims(mode, dirs[d]) * ClaimedBefore(mode, dirs, d) <= tracked
  {
    forall d | 0 <= d < |dirs|
      ensures Claims(mode, dirs[d]) * ClaimedBefore(mode, dirs, d) <= tracked
              <==> forall i :: 0 <= i < d ==> Claims(mode, dirs[i]) * Claims(mode, dirs[d]) <= tracked
    {
      OverlapsEarlierAt(mode, dirs, tracked, d);
    }
  }

  lemma OverlapsEarlierAt(mode: Mode, dirs: seq<Directory>, tracked: set<nat>, d: nat)
    requires d < |dirs|
    ensures Claims(mode, dirs[d]) * ClaimedBefore(mode, dirs, d) <= tracked
            <==> forall i :: 0 <= i < d ==> Claims(mode, dirs[i]) * Claims(mode, dirs[d]) <= tracked
  {
    ClaimedBeforeIs(mode, dirs, d);
    var last := Claims(mode, dirs[d]);
    if forall i :: 0 <= i < d ==> Claims(mode, dirs[i]) * last <= tracked {
      forall id | id in last && id in ClaimedBefore(mode, dirs, d) ensures id in tracked {
        var i :| 0 <= i < d && id in Claims(mode, dirs[i]);
        assert id in Claims(mode, dirs[i]) * last;
      }
    }
    if last * ClaimedBefore(mode, dirs, d) <= tracked {
      forall i | 0 <= i < d ensures Claims(mode, dirs[i]) * last <= tracked {
        assert Claims(mode, dirs[i]) * last <= last * ClaimedBefore(mode, dirs, d);
      }
    }
  }
}
