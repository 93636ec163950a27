/**
 Creating a show: insert it or adopt the winner of a race, then sync its episodes and generate its
 aliases as best-effort steps. The session is what it has committed, what it holds on top of that,
 and whether a failed flush has poisoned its transaction.
 */
module Provisioning {
  import opened Common

  /** What the database knows of one show: the row, its episodes, and its generated aliases. */
  datatype Rows = Rows(show: bool, episodes: set<nat>, aliases: seq<string>)

  /** How an awaited step ends; a database error breaks the transaction. */
  datatype Step = Works | FailsInDb | FailsElsewhere

  /** What a best-effort step reports: None for success, or the error it swallowed; or it raises. */
  datatype Effort = Succeeded | Swallowed(inDb: bool) | RaisedDb

  class Session {
    var committed: Rows
    var pending: Rows
    var poisoned: bool

    constructor (rows: Rows)
      ensures committed == pending == rows && !poisoned
    {
      committed, pending, poisoned := rows, rows, false;
    }

    /** A flush sends pending changes; a failed one leaves a transaction that only a rollback clears. */
    method Flush(step: Step) returns (ok: bool)
      modifies this`poisoned
      ensures ok <==> !old(poisoned) && step.Works?
      ensures poisoned == (old(poisoned) || step.FailsInDb?)
    {
      ok := !poisoned && step.Works?;
      poisoned := poisoned || step.FailsInDb?;
    }

    method Commit(step: Step) returns (ok: bool)
      modifies this
      ensures pending == old(pending)
      ensures ok <==> !old(poisoned) && step.Works?
      ensures committed == if ok then pending else old(committed)
      ensures poisoned == (old(poisoned) || step.FailsInDb?)
    {
      ok := Flush(step);
      if ok {
        committed := pending;
      }
    }

    method Rollback()
      modifies this
      ensures committed == old(committed) == pending && !poisoned
    {
      pending, poisoned := committed, false;
    }

    /** `insert_show_or_existing`: a lost race is rolled back, and then the database holds what the winner committed. */
    method InsertShow(insert: Insert, winner: Rows) returns (inserted: Option<bool>)
      requires !poisoned && (insert.Wins? ==> !pending.show)
      modifies this
      ensures inserted == match insert { case Wins => Some(true) case LosesRace => Some(false) case BreaksElsewhere => None }
      ensures insert.Wins? ==> committed == old(committed) && pending == old(pending).(show := true) && !poisoned
      ensures insert.LosesRace? ==> pending == committed == winner && !poisoned
      ensures insert.BreaksElsewhere? ==> committed == old(committed) && poisoned
    {
      pending := pending.(show := true);
      match insert {
        case Wins =>
          inserted := Some(true);
        case LosesRace =>
          poisoned := true;
          committed := winner;
          Rollback();
          inserted := Some(false);
        case BreaksElsewhere =>
          poisoned := true;
          inserted := None;
      }
    }

    /** `ensure_episode_group_map`: the count may raise; a failed backfill is swallowed and not rolled back. */
    method EnsureEpisodeGroupMap(mapMissing: bool, count: Step, backfill: Step) returns (ok: bool)
      requires !poisoned
      modifies this`poisoned
      ensures ok <==> !mapMissing || count.Works?
      ensures poisoned == (mapMissing && (count.FailsInDb? || (count.Works? && pending.episodes != {} && backfill.FailsInDb?)))
    {
      if !mapMissing {
        return true;
      }
      ok := Flush(count);
      if ok && pending.episodes != {} {
        var _ := Flush(backfill);
      }
    }

    /** `_swallow`: the failure policy shared by both best-effort steps. */
    method Swallow(inDb: bool, reraiseDbErrors: bool, rollbackOnFailure: bool) returns (effort: Effort)
      modifies this
      ensures committed == old(committed)
      ensures effort == if reraiseDbErrors && inDb then RaisedDb else Swallowed(inDb)
      ensures if effort.Swallowed? && rollbackOnFailure then pending == committed && !poisoned
              else pending == old(pending) && poisoned == old(poisoned)
    {
      if reraiseDbErrors && inDb {
        return RaisedDb;
      }
      if rollbackOnFailure {
        Rollback();
      }
      return Swallowed(inDb);
    }

    /** `sync` adds `found` to the episodes; a failing one may have added a part of them. */
    method SyncEpisodesBestEffort(sync: Step, found: set<nat>, reraiseDbErrors: bool, rollbackOnFailure: bool) returns (effort: Effort)
      requires !poisoned
      modifies this
      ensures committed == old(committed)
      ensures effort == EffortOf(sync, reraiseDbErrors)
      ensures if effort.Swallowed? && rollbackOnFailure then pending == committed && !poisoned
              else pending == old(pending).(episodes := old(pending).episodes + found) && poisoned == sync.FailsInDb?
    {
      pending := pending.(episodes := pending.episodes + found);
      poisoned := sync.FailsInDb?;
      if sync.Works? {
        return Succeeded;
      }
      effort := Swallow(sync.FailsInDb?, reraiseDbErrors, rollbackOnFailure);
    }

    /** Generating changes the show only when it succeeds; what follows is a flush. */
    method GenerateAliasesBestEffort(generate: Step, flush: Step, names: seq<string>, reraiseDbErrors: bool, rollbackOnFailure: bool)
      returns (effort: Effort)
      requires !poisoned
      modifies this
      ensures committed == old(committed)
      ensures effort == EffortOf(Then(generate, flush), reraiseDbErrors)
      ensures if effort.Swallowed? && rollbackOnFailure then pending == committed && !poisoned
              else pending == old(pending).(aliases := if generate.Works? then names else old(pending).aliases)
                   && poisoned == Then(generate, flush).FailsInDb?
    {
      if generate.Works? {
        pending := pending.(aliases := names);
      }
      assert pending.aliases == old(pending).aliases ==> pending == old(pending);
      poisoned := Then(generate, flush).FailsInDb?;
      if generate.Works? && flush.Works? {
        return Succeeded;
      }
      effort := Swallow(Then(generate, flush).FailsInDb?, reraiseDbErrors, rollbackOnFailure);
    }
  }

  datatype Insert = Wins | LosesRace | BreaksElsewhere

  /** The step that decides: the second only runs if the first works. */
  function Then(first: Step, second: Step): Step {
    if first.Works? then second else first
  }

  function EffortOf(step: Step, reraiseDbErrors: bool): Effort {
    match step
    case Works => Succeeded
    case FailsInDb => if reraiseDbErrors then RaisedDb else Swallowed(true)
    case FailsElsewhere => Swallowed(false)
  }

  // ---- The three flows ----

  /** The answers one call meets. After a lost race the database holds `winner`. */
  datatype CreateEnv = CreateEnv(
    insert: Insert,
    winner: Rows,
    refind: Step,
    fill: Step,         // the flush of the fields a manual match fills in
    isMovie: bool,
    sync: Step,
    found: set<nat>,
    count: Step,
    mapMissing: bool,
    mapCount: Step,     // the count that ensuring the episode-group map makes for itself
    backfill: Step,     // of the episode-group map
    commit: Step,
    generate: Step,
    flush: Step,
    names: seq<string>)

  datatype Created = NewShow | ExistingShow | RaisedError | NotFound

  predicate AliasesBreak(env: CreateEnv) {
    Then(env.generate, env.flush).FailsInDb?
  }

  /** The episodes synced before the middle commit. */
  function Synced(env: CreateEnv, rows: Rows): Rows {
    if env.isMovie then rows else rows.(episodes := rows.episodes + env.found)
  }

  function WithAliases(env: CreateEnv, rows: Rows): Rows {
    if env.generate.Works? then rows.(aliases := env.names) else rows
  }

  /** The sync does not raise and the middle commit succeeds. */
  predicate ReachesCommit(env: CreateEnv) {
    (env.isMovie || !env.sync.FailsInDb?) && env.commit.Works?
  }

  /** A group-map look-up that raises, or leaves the session poisoned. */
  predicate MapRaises(env: CreateEnv) {
    env.mapMissing && !env.mapCount.Works?
  }

  predicate MapPoisons(env: CreateEnv, rows: Rows) {
    env.mapMissing && env.mapCount.Works? && rows.episodes != {} && env.backfill.FailsInDb?
  }

  /** The import swallows the raising look-up too, so a count that breaks in the database also leaves the session poisoned. */
  predicate MapPoisonsImport(env: CreateEnv, rows: Rows) {
    rows.episodes != {} && env.mapMissing && (env.mapCount.FailsInDb? || (env.mapCount.Works? && env.backfill.FailsInDb?))
  }

  predicate WinnerFound(env: CreateEnv) {
    env.refind.Works? && env.winner.show
  }

  /** `get_or_create_show_from_tmdb`. */
  method GetOrCreate(session: Session, env: CreateEnv) returns (r: Created)
    requires !session.poisoned && session.pending == session.committed
    modifies session
    ensures var rows0 := old(session.committed);
            if rows0.show then
              && session.committed == rows0
              && r == (if MapRaises(env) then RaisedError else ExistingShow)
              && (r.ExistingShow? ==> session.poisoned == MapPoisons(env, rows0))
            else if env.insert.LosesRace? then
              && session.committed == env.winner
              && r == (if WinnerFound(env) && !MapRaises(env) then ExistingShow else RaisedError)
              && (r.ExistingShow? ==> session.poisoned == MapPoisons(env, env.winner))
            else
              // Whatever alias generation does, the show and its synced episodes are committed once the middle commit succeeds,
              && session.committed == (if env.insert.Wins? && ReachesCommit(env) then Synced(env, rows0.(show := true)) else rows0)
              // and then only a database error in alias generation still raises.
              && r == (if env.insert.Wins? && ReachesCommit(env) && !AliasesBreak(env) then NewShow else RaisedError)
              && (r.NewShow? ==> !session.poisoned && session.pending == WithAliases(env, session.committed))
    // A new show is committed with its episodes, whatever happens to its aliases.
    ensures r.NewShow? ==>
      && session.committed.show
      && session.committed.episodes == old(session.committed).episodes + (if env.isMovie then {} else env.found)
      && session.pending.aliases == if env.generate.Works? then env.names else session.committed.aliases
  {
    if session.pending.show {
      var ok := session.EnsureEpisodeGroupMap(env.mapMissing, env.mapCount, env.backfill);
      return if ok then ExistingShow else RaisedError;
    }
    var inserted := session.InsertShow(env.insert, env.winner);
    if inserted.None? {
      return RaisedError;
    }
    if !inserted.value {
      if !env.refind.Works? || !session.pending.show {
        return RaisedError;
      }
      var ok := session.EnsureEpisodeGroupMap(env.mapMissing, env.mapCount, env.backfill);
      return if ok then ExistingShow else RaisedError;
    }
    if !env.isMovie {
      var synced := session.SyncEpisodesBestEffort(env.sync, env.found, true, false);
      if synced.RaisedDb? {
        return RaisedError;
      }
    }
    var saved := session.Commit(env.commit);
    if !saved {
      return RaisedError;
    }
    var _ := session.GenerateAliasesBestEffort(env.generate, env.flush, env.names, false, false);
    // `session.refresh(show)` raises on a poisoned session.
    if session.poisoned {
      return RaisedError;
    }
    return NewShow;
  }

  /** A whole request: `get_session` commits when the call returns and rolls back when it raises. */
  method CreateRequest(session: Session, env: CreateEnv, last: Step) returns (r: Created)
    requires !session.poisoned && session.pending == session.committed
    modifies session
    ensures !session.poisoned
    ensures env.insert.Wins? && !old(session.committed).show && ReachesCommit(env) ==>
      && session.committed.show
      && session.committed.episodes == old(session.committed).episodes + (if env.isMovie then {} else env.found)
      && (r.NewShow? && env.generate.Works? && last.Works? ==> session.committed.aliases == env.names)
  {
    r := GetOrCreate(session, env);
    if r.RaisedError? {
      session.Rollback();
    } else {
      var saved := session.Commit(last);
      if !saved {
        session.Rollback();
        r := RaisedError;
      }
    }
  }

  /** What the manual match commits before generating aliases: for its own show, and for an adopted winner. */
  function Base(env: CreateEnv, rows0: Rows): Rows {
    if env.insert.LosesRace? then env.winner else rows0.(show := true)
  }

  predicate Adopts(env: CreateEnv) {
    env.insert.LosesRace? && WinnerFound(env) && env.fill.Works? && !MapRaises(env) && !MapPoisons(env, env.winner)
  }

  /** `_resolve_show_by_tmdb_id` when no show is found at first. */
  method ResolveShowByTmdbId(session: Session, env: CreateEnv) returns (r: Created)
    requires !session.poisoned && !session.pending.show && session.pending == session.committed
    modifies session
    ensures var base := Base(env, old(session.committed));
            var starts := env.insert.Wins? || Adopts(env);
            && session.committed == (if starts && ReachesCommit(env) then Synced(env, base)
                                     else if env.insert.LosesRace? then env.winner else old(session.committed))
            && r == (if starts && ReachesCommit(env) && !AliasesBreak(env)
                     then (if env.insert.Wins? then NewShow else ExistingShow) else RaisedError)
            && (!r.RaisedError? ==> !session.poisoned)
    ensures !r.RaisedError? ==>
      && session.committed.show
      && session.committed.episodes
         == (if env.insert.LosesRace? then env.winner.episodes else old(session.committed).episodes)
            + (if env.isMovie then {} else env.found)
      && session.pending.aliases == if env.generate.Works? then env.names else session.committed.aliases
  {
    var inserted := session.InsertShow(env.insert, env.winner);
    if inserted.None? {
      return RaisedError;
    }
    if !inserted.value {
      var adopted := AdoptWinner(session, env);
      // A poisoned session breaks the sync's first query, and that error is raised.
      if !adopted || session.poisoned {
        return RaisedError;
      }
    }
    var ok := SyncAndAliasNewShow(session, env);
    return if !ok then RaisedError else if inserted.value then NewShow else ExistingShow;
  }

  /** The `refind` of the manual match: find the winner, fill in its missing fields, and ensure its group map. */
  method AdoptWinner(session: Session, env: CreateEnv) returns (ok: bool)
    requires !session.poisoned && session.pending == session.committed == env.winner
    modifies session`poisoned
    ensures ok <==> WinnerFound(env) && env.fill.Works? && !MapRaises(env)
    ensures ok ==> session.poisoned == MapPoisons(env, env.winner)
  {
    if !env.refind.Works? || !session.pending.show {
      return false;
    }
    var filled := session.Flush(env.fill);
    if !filled {
      return false;
    }
    ok := session.EnsureEpisodeGroupMap(env.mapMissing, env.mapCount, env.backfill);
  }

  /** `_sync_and_alias_new_show`: every database error is raised. */
  method SyncAndAliasNewShow(session: Session, env: CreateEnv) returns (ok: bool)
    requires !session.poisoned
    modifies session
    ensures session.committed == if ReachesCommit(env) then Synced(env, old(session.pending)) else old(session.committed)
    ensures ok <==> ReachesCommit(env) && !AliasesBreak(env)
    ensures ok ==> !session.poisoned
    ensures ok ==> session.pending == WithAliases(env, session.committed)
  {
    if !env.isMovie {
      var synced := session.SyncEpisodesBestEffort(env.sync, env.found, true, false);
      if synced.RaisedDb? {
        return false;
      }
    }
    var saved := session.Commit(env.commit);
    if !saved {
      return false;
    }
    var aliased := session.GenerateAliasesBestEffort(env.generate, env.flush, env.names, true, false);
    return !aliased.RaisedDb?;
  }

  /** `_tmdb_create_show` from the insert on: failures after the commit only cost their own work. */
  method TmdbCreateShow(session: Session, env: CreateEnv) returns (r: Created)
    requires !session.poisoned && session.pending == session.committed
    requires env.insert.Wins? ==> !session.pending.show
    modifies session
    // A new show is committed before the best-effort steps, and no failure mix leaves the session poisoned.
    ensures r.NewShow? <==> env.insert.Wins? && env.commit.Works?
    ensures r.NewShow? ==> session.committed == old(session.committed).(show := true) && !session.poisoned
    // Its episodes and aliases are not committed yet; a failure of the aliases also costs the synced episodes.
    ensures r.NewShow? ==> session.pending == Surviving(env, session.committed)
    ensures !r.NewShow? ==> session.committed == if env.insert.LosesRace? then env.winner else old(session.committed)
    ensures r.ExistingShow? <==> env.insert.LosesRace? && WinnerFound(env) && env.count.Works?
    ensures r.NotFound? <==> env.insert.LosesRace? && env.refind.Works? && !env.winner.show
    // An adopted show can leave the session poisoned, by the failures that are swallowed without a rollback.
    ensures r.ExistingShow? ==> session.poisoned == MapPoisonsImport(env, env.winner)
    ensures r.ExistingShow? ==> session.pending == Filled(env, env.winner)
    ensures r.ExistingShow? && env.winner.episodes == {} && env.sync.Works? ==> session.pending.episodes == env.found
    // The new show has what its sync found, unless a later step fails, and the generated aliases.
    ensures r.NewShow? && env.generate.Works? && env.flush.Works? ==>
      && session.pending.aliases == env.names
      && session.pending.episodes
         == session.committed.episodes + if env.sync.Works? && env.count.Works? then env.found else {}
    ensures r.NewShow? && !(env.generate.Works? && env.flush.Works?) ==> session.pending == session.committed
  {
    var inserted := session.InsertShow(env.insert, env.winner);
    if inserted.None? {
      return RaisedError;
    }
    if !inserted.value {
      if !env.refind.Works? {
        return RaisedError;
      }
      if !session.pending.show {
        return NotFound;
      }
      var ok := SyncEpisodesIfNeeded(session, env);
      return if ok then ExistingShow else RaisedError;
    }
    var saved := session.Commit(env.commit);
    if !saved {
      return RaisedError;
    }
    SyncNewShowEpisodes(session, env);
    var _ := session.GenerateAliasesBestEffort(env.generate, env.flush, env.names, false, true);
    return NewShow;
  }

  /** What of the best-effort steps is left to commit. */
  function Surviving(env: CreateEnv, rows: Rows): Rows {
    if !env.generate.Works? || !env.flush.Works? then rows
    else if env.sync.Works? && env.count.Works? then rows.(episodes := rows.episodes + env.found, aliases := env.names)
    else rows.(aliases := env.names)
  }

  /** The synced episodes survive exactly when the count and the alias generation succeed too. */
  lemma EpisodesSurviveExactly(env: CreateEnv, rows: Rows)
    requires !(env.found <= rows.episodes)
    ensures env.found <= Surviving(env, rows).episodes
            <==> env.sync.Works? && env.count.Works? && env.generate.Works? && env.flush.Works?
  {
    if !(env.sync.Works? && env.count.Works? && env.generate.Works? && env.flush.Works?) {
      assert Surviving(env, rows).episodes == rows.episodes;
    }
  }

  /** The follow-up count is part of the step: its failure also rolls back the synced episodes. */
  method SyncNewShowEpisodes(session: Session, env: CreateEnv)
    requires !session.poisoned && session.pending == session.committed
    modifies session
    ensures session.committed == old(session.committed) && !session.poisoned
    ensures session.pending == if env.sync.Works? && env.count.Works?
                               then session.committed.(episodes := session.committed.episodes + env.found) else session.committed
  {
    var effort := session.SyncEpisodesBestEffort(env.sync, env.found, false, true);
    if effort.Succeeded? {
      var counted := session.Flush(env.count);
      if !counted {
        session.Rollback();
      }
    }
  }

  /** A found show gets episodes only if it has none. */
  function Filled(env: CreateEnv, rows: Rows): Rows {
    if rows.episodes == {} && env.sync.Works? then rows.(episodes := env.found) else rows
  }

  /** `_sync_episodes_if_needed` for a show found in the database; false when the count raises. */
  method SyncEpisodesIfNeeded(session: Session, env: CreateEnv) returns (ok: bool)
    requires !session.poisoned && session.pending == session.committed
    modifies session
    ensures session.committed == old(session.committed)
    ensures ok <==> env.count.Works?
    ensures ok ==> session.poisoned == MapPoisonsImport(env, session.committed)
    ensures ok ==> session.pending == Filled(env, session.committed)
    // A show without episodes gets what the sync finds; one with episodes is left alone.
    ensures ok && session.committed.episodes == {} && env.sync.Works? ==> session.pending.episodes == env.found
    ensures ok && (session.committed.episodes != {} || !env.sync.Works?) ==> session.pending == session.committed
  {
    ok := session.Flush(env.count);
    if !ok {
      return;
    }
    if session.pending.episodes == {} {
      var _ := session.SyncEpisodesBestEffort(env.sync, env.found, false, true);
    } else {
      var _ := session.EnsureEpisodeGroupMap(env.mapMissing, env.mapCount, env.backfill);
    }
  }

  /** Both counts of the found show's step: the first one works, the second breaks in the database and no backfill runs. */
  method SecondCountPoisons() returns (ok: bool, poisoned: bool)
    ensures ok && poisoned
  {
    var rows := Rows(true, {1}, []);
    var session := new Session(rows);
    var env := CreateEnv(Wins, rows, Works, Works, false, Works, {}, Works, true, FailsInDb, Works, Works, Works, Works, []);
    ok := SyncEpisodesIfNeeded(session, env);
    poisoned := session.poisoned;
  }
}
