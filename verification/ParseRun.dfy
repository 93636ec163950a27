/** The parse run: each selected file is decided in turn, and one commit ends the run. */
module ParseRun {
  import opened Common
  import opened Files
  import opened Parse

  datatype RunEnv = RunEnv(
    files: seq<nat>,             // the selected rows, in the order the database returns them
    file: nat -> FileEnv,        // by position
    progressRaises: nat -> bool,
    commitRaises: bool)

  datatype ParseResult = ParseResult(processed: nat, matched: nat, unmatched: nat, failed: nat)

  /** What the run knows besides its files: the shows refreshed before it are not refreshed again. */
  datatype RunArgs = RunArgs(llmActive: bool, hasRefresher: bool, refreshed: set<nat>)

  datatype RunEnd = Returned(result: ParseResult) | Raised

  predicate Selected(r: Row) {
    r.status == Downloaded || r.status == Unmatched
  }

  ghost predicate ValidEnv(env: RunEnv, table: Table) {
    && Distinct(env.files)
    && forall id :: id in env.files <==> id in table && Selected(table[id])
  }

  /** The shows refreshed before file `k`. */
  function RefreshedAt(env: RunEnv, args: RunArgs, k: nat): set<nat> {
    if k == 0 then args.refreshed
    else ParsingRefreshes(env.file(k - 1), args.llmActive, args.hasRefresher, RefreshedAt(env, args, k - 1))
  }

  function StageAt(env: RunEnv, table: Table, args: RunArgs, k: nat): Stage
    requires k < |env.files| && env.files[k] in table
  {
    Parsing(env.file(k), table[env.files[k]], args.llmActive, args.hasRefresher, RefreshedAt(env, args, k))
  }

  /** The outcomes of the first `k` files and the table they leave. */
  ghost predicate ParsedUpTo(env: RunEnv, table0: Table, table: Table, outcomes: seq<ParseOutcome>, args: RunArgs)
    requires ValidEnv(env, table0)
  {
    var k := |outcomes|;
    && k <= |env.files| && table.Keys == table0.Keys
    && (forall i :: 0 <= i < k ==>
          && StageAt(env, table0, args, i).decided == Gives(outcomes[i])
          && table[env.files[i]] == StageAt(env, table0, args, i).row)
    && (forall id :: id in table0 && id !in env.files[..k] ==> table[id] == table0[id])
  }

  /** Where a run stands: a dry one has changed nothing. */
  ghost predicate InRun(env: RunEnv, dryRun: bool, args: RunArgs, table0: Table, table: Table, refreshed: set<nat>, outcomes: seq<ParseOutcome>)
    requires ValidEnv(env, table0)
  {
    if dryRun then table == table0 && forall i :: 0 <= i < |outcomes| ==> outcomes[i] == Preview(env.file(i), args.llmActive)
    else ParsedUpTo(env, table0, table, outcomes, args) && refreshed == RefreshedAt(env, args, |outcomes|)
  }

  lemma UnparsedRow(env: RunEnv, table0: Table, table: Table, outcomes: seq<ParseOutcome>, args: RunArgs)
    requires ValidEnv(env, table0) && ParsedUpTo(env, table0, table, outcomes, args) && |outcomes| < |env.files|
    ensures var id := env.files[|outcomes|]; id in table0 && id in table && table[id] == table0[id]
  {
    hide StageAt, Selected;
    assert env.files[|outcomes|] in env.files && env.files[|outcomes|] !in env.files[..|outcomes|];
  }

  lemma ParsedStep(env: RunEnv, table0: Table, table: Table, outcomes: seq<ParseOutcome>, args: RunArgs, row: Row, outcome: ParseOutcome)
    requires ValidEnv(env, table0) && ParsedUpTo(env, table0, table, outcomes, args) && |outcomes| < |env.files|
    requires StageAt(env, table0, args, |outcomes|) == Stage(row, Gives(outcome))
    ensures table[env.files[|outcomes|]] == table0[env.files[|outcomes|]]
    ensures ParsedUpTo(env, table0, table[env.files[|outcomes|] := row], outcomes + [outcome], args)
  {
    hide Parsing, RefreshedAt, Selected;
  }

  /** A completed real run leaves each selected file's row in agreement with its outcome, and no other row changed. */
  lemma CompletedRun(env: RunEnv, table0: Table, table: Table, outcomes: seq<ParseOutcome>, args: RunArgs)
    requires ValidEnv(env, table0) && ParsedUpTo(env, table0, table, outcomes, args) && |outcomes| == |env.files|
    ensures forall i :: 0 <= i < |outcomes| ==> RowAgrees(env.file(i), table0[env.files[i]], table[env.files[i]], outcomes[i])
    ensures forall i :: 0 <= i < |outcomes| && (outcomes[i].MatchedOutcome? || outcomes[i].UnmatchedOutcome?) ==>
      Explained(env.file(i), args.llmActive, args.hasRefresher, RefreshedAt(env, args, i), table0[env.files[i]], table[env.files[i]], outcomes[i])
    ensures forall id :: id in table0 && table0[id].status in {Downloaded, Unmatched} ==> id in env.files
    ensures forall id :: id in table0 && table0[id].status !in {Downloaded, Unmatched} ==> table[id] == table0[id]
  {
    hide Parsing, RowAgrees, Explained, RefreshedAt;
    forall i | 0 <= i < |outcomes|
      ensures RowAgrees(env.file(i), table0[env.files[i]], table[env.files[i]], outcomes[i])
      ensures outcomes[i].MatchedOutcome? || outcomes[i].UnmatchedOutcome? ==>
        Explained(env.file(i), args.llmActive, args.hasRefresher, RefreshedAt(env, args, i), table0[env.files[i]], table[env.files[i]], outcomes[i])
    {
      DecisionExplained(env.file(i), table0[env.files[i]], args.llmActive, args.hasRefresher, RefreshedAt(env, args, i));
      OutcomeAgrees(env.file(i), table0[env.files[i]], args.llmActive, args.hasRefresher, RefreshedAt(env, args, i));
      assert StageAt(env, table0, args, i).decided == Gives(outcomes[i]);
    }
  }

  function CountOf(outcomes: seq<ParseOutcome>, o: ParseOutcome): nat {
    if outcomes == [] then 0
    else CountOf(outcomes[..|outcomes| - 1], o) + (if outcomes[|outcomes| - 1] == o then 1 else 0)
  }

  function Get(counts: map<ParseOutcome, nat>, o: ParseOutcome): nat {
    if o in counts then counts[o] else 0
  }

  ghost predicate Counts(counts: map<ParseOutcome, nat>, outcomes: seq<ParseOutcome>) {
    forall o :: Get(counts, o) == CountOf(outcomes, o)
  }

  method AddCount(counts: map<ParseOutcome, nat>, ghost outcomes: seq<ParseOutcome>, o: ParseOutcome) returns (added: map<ParseOutcome, nat>)
    requires Counts(counts, outcomes)
    ensures Counts(added, outcomes + [o])
  {
    added := counts[o := Get(counts, o) + 1];
    assert (outcomes + [o])[..|outcomes|] == outcomes;
  }

  function ResultOf(outcomes: seq<ParseOutcome>): ParseResult {
    var matched := CountOf(outcomes, MatchedOutcome) + CountOf(outcomes, MatchedThenFailed);
    var unmatched := CountOf(outcomes, UnmatchedOutcome) + CountOf(outcomes, UnmatchedThenFailed);
    var failed := CountOf(outcomes, Failed) + CountOf(outcomes, MatchedThenFailed) + CountOf(outcomes, UnmatchedThenFailed);
    ParseResult(|outcomes|, matched, unmatched, failed)
  }

  /** Every file is counted once, and once more if it failed after its decision. */
  lemma {:induction false} EveryFileCounted(outcomes: seq<ParseOutcome>)
    ensures var r := ResultOf(outcomes);
            r.matched + r.unmatched + r.failed
            == r.processed + CountOf(outcomes, MatchedThenFailed) + CountOf(outcomes, UnmatchedThenFailed)
  {
    if outcomes != [] {
      EveryFileCounted(outcomes[..|outcomes| - 1]);
    }
  }

  function Ids(shows: seq<Show>): (ids: seq<nat>)
    ensures |ids| == |shows| && forall i :: 0 <= i < |ids| ==> ids[i] == shows[i].id
  {
    seq(|shows|, i requires 0 <= i < |shows| => shows[i].id)
  }

  /** The files with an outcome among these. */
  function Ended(outcomes: seq<ParseOutcome>, among: set<ParseOutcome>, k: nat): set<nat>
    requires k <= |outcomes|
  {
    set i | 0 <= i < k && outcomes[i] in among
  }

  lemma EndedStep(outcomes: seq<ParseOutcome>, among: set<ParseOutcome>)
    ensures outcomes == [] ==> Ended(outcomes, among, |outcomes|) == {}
    ensures outcomes != [] ==>
      var n := |outcomes|; |Ended(outcomes, among, n)| == |Ended(outcomes[..n - 1], among, n - 1)| + if outcomes[n - 1] in among then 1 else 0
  {
    if outcomes != [] {
      var n := |outcomes|;
      assert Ended(outcomes, among, n) == Ended(outcomes[..n - 1], among, n - 1) + if outcomes[n - 1] in among then {n - 1} else {};
    }
  }

  lemma {:induction false} CountsTwo(outcomes: seq<ParseOutcome>, a: ParseOutcome, b: ParseOutcome)
    requires a != b
    ensures |Ended(outcomes, {a, b}, |outcomes|)| == CountOf(outcomes, a) + CountOf(outcomes, b)
  {
    hide Ended;
    EndedStep(outcomes, {a, b});
    if outcomes != [] {
      CountsTwo(outcomes[..|outcomes| - 1], a, b);
    }
  }

  lemma {:induction false} CountsThree(outcomes: seq<ParseOutcome>, a: ParseOutcome, b: ParseOutcome, c: ParseOutcome)
    requires a != b && a != c && b != c
    ensures |Ended(outcomes, {a, b, c}, |outcomes|)| == CountOf(outcomes, a) + CountOf(outcomes, b) + CountOf(outcomes, c)
  {
    hide Ended;
    EndedStep(outcomes, {a, b, c});
    if outcomes != [] {
      CountsThree(outcomes[..|outcomes| - 1], a, b, c);
    }
  }

  /** The counters of a run: a file that fails after its decision is in two of them. */
  ghost predicate CountersAre(r: ParseResult, outcomes: seq<ParseOutcome>) {
    && r.processed == |outcomes|
    && r.matched == |Ended(outcomes, {MatchedOutcome, MatchedThenFailed}, |outcomes|)|
    && r.unmatched == |Ended(outcomes, {UnmatchedOutcome, UnmatchedThenFailed}, |outcomes|)|
    && r.failed == |Ended(outcomes, {ParseOutcome.Failed, MatchedThenFailed, UnmatchedThenFailed}, |outcomes|)|
  }

  lemma CountersMean(outcomes: seq<ParseOutcome>)
    ensures CountersAre(ResultOf(outcomes), outcomes)
  {
    CountsTwo(outcomes, MatchedOutcome, MatchedThenFailed);
    CountsTwo(outcomes, UnmatchedOutcome, UnmatchedThenFailed);
    CountsThree(outcomes, ParseOutcome.Failed, MatchedThenFailed, UnmatchedThenFailed);
  }

  /** A miss leaves the row as it is. */
  lemma MissKeepsRow(env: FileEnv, show: Show, attempt: nat, season: Option<int>, episode: Option<int>, llmActive: bool, remap: bool)
    ensures var found := ResolveMatched(env, show, attempt, season, episode, llmActive, remap);
            found.Gives? && found.value.ep.None? ==> forall r :: Renumbered(r, found.value) == r
  {
  }

  class ParseOrchestrator {
    var table: Table
    var committed: Table
    var refreshedShowIds: set<nat>
    /** Every call to the refresher, in order. */
    ghost var refreshes: seq<Show>
    const hasRefresher: bool

    constructor (table: Table, hasRefresher: bool)
      ensures this.table == committed == table && this.hasRefresher == hasRefresher
      ensures refreshedShowIds == {} && refreshes == [] && RefreshedOnce()
    {
      this.table, committed := table, table;
      refreshedShowIds, refreshes := {}, [];
      this.hasRefresher := hasRefresher;
    }

    /** No show is refreshed twice, and no movie at all. */
    ghost predicate RefreshedOnce()
      reads this`refreshes, this`refreshedShowIds
    {
      && Distinct(Ids(refreshes))
      && (forall i :: 0 <= i < |refreshes| ==> !refreshes[i].isMovie && refreshes[i].id in refreshedShowIds)
    }

    method ResolveMatchedEpisode(id: nat, env: FileEnv, show: Show, attempt: nat, season: Option<int>, episode: Option<int>,
        llmActive: bool, remap: bool)
      returns (found: Answer<Lookup>)
      requires id in table
      modifies this`table
      ensures found == ResolveMatched(env, show, attempt, season, episode, llmActive, remap)
      ensures table == old(table)[id := if found.Gives? then Renumbered(old(table)[id], found.value) else old(table)[id]]
    {
      assert table == table[id := table[id]];
      if env.raises(LookUp(attempt)) {
        return Raises;
      }
      var eps, result := EpisodesAt(env, attempt), Lookup(None, season, episode, false);
      if remap && season.Some? && episode.Some? {
        var hit := ResolveWithSeason(ShowAt(env, show, attempt), eps, season.value, episode.value);
        if hit.Some? {
          result := hit.value;
          table := table[id := Renumbered(table[id], result)];
        }
      } else {
        result := result.(ep := ResolveEpisode(eps, season, episode));
      }
      if result.ep.None? && llmActive {
        if env.raises(AskLlm(attempt)) {
          return Raises;
        }
        var guess := env.guess(attempt);
        if guess.ep.Some? && (!remap || season == Some(guess.ep.value.season)) {
          result := Lookup(guess.ep, Merged(guess.season, season), Merged(guess.episode, episode), true);
          table := table[id := Renumbered(table[id], result)];
        }
      }
      return Gives(result);
    }

    method RefreshForMiss(env: FileEnv, show: Show) returns (retry: Answer<bool>)
      requires RefreshedOnce()
      modifies this`refreshedShowIds, this`refreshes
      ensures RefreshedOnce()
      ensures var allowed := MayRefresh(show, hasRefresher, old(refreshedShowIds));
              && refreshedShowIds == (if allowed then old(refreshedShowIds) + {show.id} else old(refreshedShowIds))
              && refreshes == (if allowed then old(refreshes) + [show] else old(refreshes))
              && retry == if !allowed then Gives(false) else if env.raises(Refresh) then Raises else Gives(env.added.Some?)
    {
      if !hasRefresher || show.isMovie || show.id in refreshedShowIds {
        return Gives(false);
      }
      refreshedShowIds := refreshedShowIds + {show.id};
      refreshes := refreshes + [show];
      if env.raises(Refresh) {
        return Raises;
      }
      return Gives(env.added.Some?);
    }

    method ResolveWithRefresh(id: nat, env: FileEnv, show: Show, season: Option<int>, episode: Option<int>, llmActive: bool, remap: bool)
      returns (found: Answer<Lookup>)
      requires id in table && RefreshedOnce()
      modifies this`table, this`refreshedShowIds, this`refreshes
      ensures RefreshedOnce()
      ensures found == Resolution(env, show, season, episode, llmActive, remap, hasRefresher, old(refreshedShowIds))
      ensures refreshedShowIds == RefreshedAfter(env, show, season, episode, llmActive, remap, hasRefresher, old(refreshedShowIds))
      ensures table == old(table)[id := if found.Gives? then Renumbered(old(table)[id], found.value) else old(table)[id]]
    {
      hide ResolveMatched, Renumbered;
      found := ResolveMatchedEpisode(id, env, show, 0, season, episode, llmActive, remap);
      if found.Raises? || found.value.ep.Some? {
        return;
      }
      MissKeepsRow(env, show, 0, season, episode, llmActive, remap);
      var retry := RefreshForMiss(env, show);
      if retry.Raises? {
        return Raises;
      }
      if retry.value {
        found := ResolveMatchedEpisode(id, env, show, 1, found.value.season, found.value.episode, llmActive, remap);
      }
    }

    method RecordMatch(id: nat, env: FileEnv, show: Show, found: Lookup, llmActive: bool) returns (decided: Answer<ParseOutcome>)
      requires id in table
      modifies this`table
      ensures var stage := Recorded(env, WithEpisode(old(table)[id], found.ep), show, found, llmActive);
              decided == stage.decided && table == old(table)[id := stage.row]
    {
      var unresolved := found.ep.None? && !show.isMovie;
      table := table[id := WithEpisode(table[id], found.ep)];
      if found.ep.Some? && env.raises(Link) {
        return Raises;
      }
      var r := table[id];
      table := table[id := r.(parsed := r.parsed.(matchedBy := Some(if llmActive then ByLlm else ByHeuristic)),
                              status := if unresolved then Unmatched else Matched,
                              problem := if unresolved then Some(NoEpisode(found.season, found.episode)) else None)];
      if env.raises(Report) {
        return Raises;
      }
      return Gives(if unresolved then UnmatchedOutcome else MatchedOutcome);
    }

    method ApplyMatch(id: nat, env: FileEnv, show: Show, season: Option<int>, episode: Option<int>, llmActive: bool, remap: bool)
      returns (decided: Answer<ParseOutcome>)
      requires id in table && RefreshedOnce()
      modifies this`table, this`refreshedShowIds, this`refreshes
      ensures RefreshedOnce()
      ensures refreshedShowIds == RefreshedAfter(env, show, season, episode, llmActive, remap, hasRefresher, old(refreshedShowIds))
      ensures var stage := Applied(env, old(table)[id], show, season, episode, llmActive, remap, hasRefresher, old(refreshedShowIds));
              decided == stage.decided && table == old(table)[id := stage.row]
      // Which episode the row is linked to, and under which numbers.
      ensures var r := old(table)[id].parsed;
              decided.Gives? && (remap ==> season.Some?) && (r.parsedSeason, r.parsedEpisode) == (season, episode) ==>
                LookedUp(env, show, season, episode, llmActive, remap, hasRefresher, old(refreshedShowIds), table[id], decided.value)
    {
      hide Resolution, RefreshedAfter, Renumbered, Recorded, LookedUp;
      if (remap ==> season.Some?) && (table[id].parsed.parsedSeason, table[id].parsed.parsedEpisode) == (season, episode) {
        AppliedMeans(env, table[id], show, season, episode, llmActive, remap, hasRefresher, refreshedShowIds);
      }
      table := table[id := WithShow(table[id], show)];
      var found := ResolveWithRefresh(id, env, show, season, episode, llmActive, remap);
      if found.Raises? {
        return Raises;
      }
      decided := RecordMatch(id, env, show, found.value, llmActive);
    }

    method Leave(id: nat, problem: Problem) returns (decided: Answer<ParseOutcome>)
      requires id in table
      modifies this`table
      ensures table == old(table)[id := Left(old(table)[id], problem).row] && decided == Gives(UnmatchedOutcome)
    {
      table := table[id := table[id].(status := Unmatched, problem := Some(problem))];
      return Gives(UnmatchedOutcome);
    }

    /** The body of the try block, up to its closing flush. */
    method Decide(id: nat, env: FileEnv, llmActive: bool) returns (decided: Answer<ParseOutcome>)
      requires id in table && RefreshedOnce()
      modifies this`table, this`refreshedShowIds, this`refreshes
      ensures RefreshedOnce() && refreshedShowIds == MiddleRefreshes(env, llmActive, hasRefresher, old(refreshedShowIds))
      ensures var stage := Middle(env, old(table)[id], llmActive, hasRefresher, old(refreshedShowIds));
              decided == stage.decided && table == old(table)[id := stage.row]
    {
      hide Applied, RefreshedAfter;
      var season, episode := SeasonOf(env), EpisodeOf(env);
      table := table[id := table[id].(parsed := table[id].parsed.(parsedSeason := season, parsedEpisode := episode))];
      if llmActive && env.parsed.llmOk && !env.parsed.isMovie && env.parsed.confidence < CONFIDENCE_THRESHOLD {
        decided := Leave(id, LowConfidence);
        return;
      }
      var name, show := Named(env.parsed), None;
      if name.Some? {
        if env.raises(FindShow) {
          return Raises;
        }
        show := env.show;
      }
      var remap := false;
      if show.Some? && season.None? {
        if env.arcLabel.Some? {
          decided := Leave(id, UnmappedArc(env.arcLabel.value));
          return;
        }
        season := env.seasonName;
        if season.Some? {
          table := table[id := table[id].(parsed := table[id].parsed.(parsedSeason := season))];
        }
        remap := season.Some?;
      }
      if show.Some? {
        decided := ApplyMatch(id, env, show.value, season, episode, llmActive, remap);
      } else {
        decided := Leave(id, NoShow(name));
      }
    }

    method ParseOne(id: nat, env: FileEnv, dryRun: bool, llmActive: bool) returns (ended: Answer<ParseOutcome>)
      requires id in table && RefreshedOnce()
      modifies this`table, this`refreshedShowIds, this`refreshes
      ensures RefreshedOnce() && id in table
      ensures dryRun ==> ended == Gives(Preview(env, llmActive)) && table == old(table) && refreshedShowIds == old(refreshedShowIds)
      ensures !dryRun ==> refreshedShowIds == ParsingRefreshes(env, llmActive, hasRefresher, old(refreshedShowIds))
      // What the row says, which files fail, and which shows are refreshed.
      ensures !dryRun && (ended == Gives(MatchedOutcome) || ended == Gives(UnmatchedOutcome)) ==>
        Explained(env, llmActive, hasRefresher, old(refreshedShowIds), old(table)[id], table[id], ended.value)
      ensures !dryRun ==>
        (ended in {Gives(MatchedOutcome), Gives(UnmatchedOutcome)}
         <==> forall c :: Makes(env, llmActive, hasRefresher, old(refreshedShowIds), c) ==> !env.raises(c))
      ensures var stage := Parsing(env, old(table)[id], llmActive, hasRefresher, old(refreshedShowIds));
              !dryRun ==> ended == stage.decided && table == old(table)[id := stage.row]
    {
      hide Explained, Makes;
      if dryRun {
        return Gives(Preview(env, llmActive));
      }
      DecisionExplained(env, table[id], llmActive, hasRefresher, refreshedShowIds);
      FailsExactly(env, table[id], llmActive, hasRefresher, refreshedShowIds);
      assert table == table[id := table[id]];
      var decided := Raises;
      if !env.raises(ParseName) {
        decided := Decide(id, env, llmActive);
        if decided.Gives? && !env.raises(Flush) {
          return decided;
        }
      }
      table := table[id := table[id].(status := Error, problem := Some(ParseFailed))];
      if env.raises(LastFlush) {
        return Raises;
      }
      return Gives(FailedAfter(decided));
    }

    method RunFile(env: RunEnv, k: nat, dryRun: bool, llmActive: bool, ghost args: RunArgs, ghost table0: Table, ghost outcomes: seq<ParseOutcome>)
      returns (ended: Answer<ParseOutcome>)
      requires ValidEnv(env, table0) && RefreshedOnce() && k == |outcomes| < |env.files|
      requires args.llmActive == llmActive && args.hasRefresher == hasRefresher
      requires InRun(env, dryRun, args, table0, table, refreshedShowIds, outcomes)
      modifies this`table, this`refreshedShowIds, this`refreshes
      ensures RefreshedOnce()
      ensures dryRun ==> table == old(table)
      ensures ended.Gives? ==> InRun(env, dryRun, args, table0, table, refreshedShowIds, outcomes + [ended.value])
    {
      hide Preview, ParsingRefreshes, Parsing, RefreshedOnce, Selected, Explained, Makes;
      assert env.files[k] in env.files;
      if !dryRun {
        UnparsedRow(env, table0, table, outcomes, args);
      }
      ended := ParseOne(env.files[k], env.file(k), dryRun, llmActive);
      if ended.Gives? {
        if dryRun {
          assert (outcomes + [ended.value])[..k] == outcomes;
        } else {
          ParsedStep(env, table0, old(table), outcomes, args, table[env.files[k]], ended.value);
        }
      }
    }

    /** A run that returns has decided every selected file; one that raises has committed nothing. */
    method Run(env: RunEnv, dryRun: bool, llmActive: bool) returns (end: RunEnd, ghost outcomes: seq<ParseOutcome>)
      requires ValidEnv(env, table) && table == committed && RefreshedOnce()
      modifies this
      ensures RefreshedOnce()
      ensures dryRun ==> table == old(table)
      ensures end.Raised? ==> committed == old(committed)
      ensures end.Returned? ==>
        && committed == table && |outcomes| == |env.files| && end.result == ResultOf(outcomes) && CountersAre(end.result, outcomes)
        && if dryRun then forall i :: 0 <= i < |outcomes| ==> outcomes[i] == Preview(env.file(i), llmActive)
           else ParsedUpTo(env, old(table), table, outcomes, RunArgs(llmActive, hasRefresher, old(refreshedShowIds)))
    {
      hide Preview, ParsingRefreshes, Parsing, CountersAre, RefreshedOnce;
      var counts: map<ParseOutcome, nat> := map[];
      ghost var table0, args := table, RunArgs(llmActive, hasRefresher, refreshedShowIds);
      outcomes := [];
      for k := 0 to |env.files|
        invariant |outcomes| == k && RefreshedOnce() && committed == table0 && (dryRun ==> table == table0)
        invariant Counts(counts, outcomes) && InRun(env, dryRun, args, table0, table, refreshedShowIds, outcomes)
      {
        if env.progressRaises(k) {
          return Raised, outcomes;
        }
        var ended := RunFile(env, k, dryRun, llmActive, args, table0, outcomes);
        if ended.Raises? {
          return Raised, outcomes;
        }
        counts := AddCount(counts, outcomes, ended.value);
        outcomes := outcomes + [ended.value];
      }
      if !dryRun {
        if env.commitRaises {
          return Raised, outcomes;
        }
        committed := table;
      }
      var matched := Get(counts, MatchedOutcome) + Get(counts, MatchedThenFailed);
      var unmatched := Get(counts, UnmatchedOutcome) + Get(counts, UnmatchedThenFailed);
      var failed := Get(counts, Failed) + Get(counts, MatchedThenFailed) + Get(counts, UnmatchedThenFailed);
      end := Returned(ParseResult(|env.files|, matched, unmatched, failed));
      CountersMean(outcomes);
    }
  }
}
