/**
 Several download workers over one table.

 A claim (SELECT ... FOR UPDATE SKIP LOCKED, mark, commit) is one atomic step; everything else of a
 run interleaves freely. `touches` says whether marking a row that already is DOWNLOADING refreshes
 its `updated_at`: assigning an equal value emits no UPDATE, so in the code it does not.
 */
module Claims {
  import opened Common
  import opened Files
  import opened Staging
  import opened Download
  import opened DownloadRun

  datatype Config = Config(stale: nat, touches: bool)

  datatype Worker =
    | Idle
    | Running(cutoff: int)
    | Holding(cutoff: int, batch: set<nat>, since: int)

  datatype State = State(now: int, table: Table, workers: map<nat, Worker>)

  function Mark(c: Config, r: Row, now: int): Row {
    r.(status := Downloading, updatedAt := if r.status == Downloading && !c.touches then r.updatedAt else now)
  }

  predicate Holds(s: State, w: nat, id: nat) {
    w in s.workers && s.workers[w].Holding? && id in s.workers[w].batch
  }

  // ---- Steps ----

  ghost predicate Tick(s: State, s': State) {
    s'.now >= s.now && s' == s.(now := s'.now)
  }

  ghost predicate Start(c: Config, s: State, s': State, w: nat) {
    w in s.workers && s.workers[w].Idle? && s' == s.(workers := s.workers[w := Running(s.now - c.stale)])
  }

  ghost predicate Claim(c: Config, s: State, s': State, w: nat, batch: set<nat>) {
    && w in s.workers && s.workers[w].Running? && batch != {}
    && (forall id :: id in batch ==> id in s.table && Eligible(s.table[id], s.workers[w].cutoff))
    && s'.now == s.now
    && s'.workers == s.workers[w := Holding(s.workers[w].cutoff, batch, s.now)]
    && s'.table.Keys == s.table.Keys
    && (forall id :: id in s.table ==>
          s'.table[id] == if id in batch then Mark(c, s.table[id], s.now) else s.table[id])
  }

  /** The batch's final statuses are committed; no row of it stays DOWNLOADING. */
  ghost predicate Finish(s: State, s': State, w: nat) {
    && w in s.workers && s.workers[w].Holding?
    && s'.now == s.now && s'.workers == s.workers[w := Running(s.workers[w].cutoff)]
    && s'.table.Keys == s.table.Keys
    && (forall id :: id in s.table ==>
          if id in s.workers[w].batch then s'.table[id].status in {Downloaded, Ignored, Error}
          else s'.table[id] == s.table[id])
  }

  ghost predicate End(s: State, s': State, w: nat) {
    w in s.workers && s.workers[w].Running? && s' == s.(workers := s.workers[w := Idle])
  }

  /** The worker is gone, or could not persist its statuses: its rows stay as they are in the database. */
  ghost predicate Crash(s: State, s': State, w: nat) {
    w in s.workers && s.workers[w].Holding? && s' == s.(workers := s.workers[w := Idle])
  }

  /** Any other stage may insert and change rows, but none touches DOWNLOADING rows or creates them. */
  ghost predicate Other(s: State, s': State) {
    && s'.now == s.now && s'.workers == s.workers && s.table.Keys <= s'.table.Keys
    && (forall id :: id in s.table && s.table[id].status == Downloading ==> s'.table[id] == s.table[id])
    && (forall id :: id in s'.table && s'.table[id].status == Downloading ==>
          id in s.table && s.table[id].status == Downloading)
  }

  datatype Event = Time | Others | Starts(w: nat) | Claims(w: nat, batch: set<nat>) | Finishes(w: nat) | Ends(w: nat) | Crashes(w: nat)

  ghost predicate Step(c: Config, s: State, e: Event, s': State) {
    match e
    case Time => Tick(s, s')
    case Others => Other(s, s')
    case Starts(w) => Start(c, s, s', w)
    case Claims(w, batch) => Claim(c, s, s', w, batch)
    case Finishes(w) => Finish(s, s', w)
    case Ends(w) => End(s, s', w)
    case Crashes(w) => Crash(s, s', w)
  }

  // ---- These steps are what a download run does ----

  /** What a claim writes is the mark that the theorems below speak of. */
  lemma TakenIsMarked(stale: nat, before: Row, r: Row, now: int)
    ensures Taken(before, r, now) <==> r == Mark(Config(stale, false), before, now)
  {
  }

  /** A claim of the orchestrator is a claiming step. */
  lemma BatchIsClaim(stale: nat, env: RunEnv, s: State, w: nat, batch: seq<nat>, table: Table) returns (s': State)
    requires w in s.workers && s.workers[w] == Running(env.cutoff) && s.now == env.now && batch != []
    requires TakesOver(s.table, table, batch, env.now) && forall id :: id in batch ==> id in table && Eligible(s.table[id], env.cutoff)
    ensures s'.table == table && Step(Config(stale, false), s, Claims(w, set id | id in batch), s')
  {
    var ids := set id | id in batch;
    assert batch[0] in ids;
    s' := State(s.now, table, s.workers[w := Holding(env.cutoff, ids, s.now)]);
    forall id | id in batch ensures table[id] == Mark(Config(stale, false), s.table[id], s.now) {
      TakenIsMarked(stale, s.table[id], table[id], env.now);
    }
  }

  /** A batch of the orchestrator finishes when its rows are saved, and otherwise leaves the database as after a crash. */
  lemma BatchIsFinish(c: Config, s: State, w: nat, pending: seq<nat>, paths: seq<Path>, env: BatchEnv, table: Table) returns (e: Event, s': State)
    requires w in s.workers && s.workers[w].Holding? && s.workers[w].batch == (set id | id in pending)
    requires |paths| == |pending| && env.Valid(|pending|) && table.Keys == s.table.Keys
    requires forall id :: id in pending ==> id in s.table && s.table[id].status == Downloading
    requires forall id :: id in table && id !in pending ==> table[id] == s.table[id]
    requires forall i :: 0 <= i < |pending| ==> pending[i] in table && RowReads(env, i, paths[i], s.table[pending[i]], table[pending[i]])
    ensures Step(c, s, e, s') && s'.table == if Saves(env) then table else s.table
    ensures e == if Saves(env) then Finishes(w) else Crashes(w)
  {
    if Saves(env) {
      e, s' := Finishes(w), State(s.now, table, s.workers[w := Running(s.workers[w].cutoff)]);
      forall id | id in s.table && id in s.workers[w].batch ensures table[id].status in {Downloaded, Ignored, Error} {
        var i :| 0 <= i < |pending| && pending[i] == id;
        SavedIsSettled(env, i);
      }
    } else {
      e, s' := Crashes(w), s.(workers := s.workers[w := Idle]);
    }
  }

  /** A saved batch has reached every row. */
  lemma SavedIsSettled(env: BatchEnv, i: nat)
    requires i < |env.transfers| == |env.reportBreaks| == |env.cleanupBreaks| && Saves(env)
    ensures i < SettledBy(env) || Swept(env, i)
  {
  }

  // ---- What is claimed about them ----

  /** No row is in two live batches. */
  ghost predicate Exclusive(s: State) {
    forall v, w, id :: Holds(s, v, id) && Holds(s, w, id) ==> v == w
  }

  /** Every live batch is within the stale age. */
  ghost predicate Timely(c: Config, s: State) {
    forall w :: w in s.workers && s.workers[w].Holding? ==> s.now - s.workers[w].since <= c.stale
  }

  ghost predicate Fresh(s: State) {
    && (forall w :: w in s.workers ==> s.workers[w].Idle?)
    && (forall id :: id in s.table ==> s.table[id].status != Downloading)
  }

  /** The step reclaims no row that a live batch holds. */
  ghost predicate ReclaimsOnlyAbandoned(s: State, e: Event) {
    e.Claims? ==> forall v, id :: id in e.batch && id in s.table && s.table[id].status == Downloading ==> !Holds(s, v, id)
  }

  // ---- Exclusive exactly when no reclaim takes a held row ----

  ghost predicate HeldIsDownloading(s: State) {
    forall w, id :: Holds(s, w, id) ==> id in s.table && s.table[id].status == Downloading
  }

  /** Only a claim adds to what is held. */
  lemma HeldAfter(c: Config, s: State, e: Event, s': State, v: nat, id: nat)
    requires Step(c, s, e, s') && Exclusive(s) && Holds(s', v, id)
    ensures if e.Claims? && v == e.w then id in e.batch else Holds(s, v, id)
    ensures e.Finishes? ==> id !in s.workers[e.w].batch
  {
    if e.Finishes? {
      assert Holds(s, v, id) && v != e.w;
      assert id in s.workers[e.w].batch ==> Holds(s, e.w, id);
    }
  }

  lemma ExclusiveStep(c: Config, s: State, e: Event, s': State)
    requires Step(c, s, e, s') && Exclusive(s) && HeldIsDownloading(s) && ReclaimsOnlyAbandoned(s, e)
    ensures Exclusive(s') && HeldIsDownloading(s')
  {
    forall v, w, id | Holds(s', v, id) && Holds(s', w, id)
      ensures v == w && id in s'.table && s'.table[id].status == Downloading
    {
      HeldAfter(c, s, e, s', v, id);
      HeldAfter(c, s, e, s', w, id);
    }
  }

  lemma HeldReclaimClashes(c: Config, s: State, e: Event, s': State)
    requires Step(c, s, e, s') && !ReclaimsOnlyAbandoned(s, e)
    ensures !Exclusive(s')
  {
    var v, id :| id in e.batch && id in s.table && s.table[id].status == Downloading && Holds(s, v, id);
    assert Holds(s', e.w, id) && Holds(s', v, id);
  }

  ghost predicate RunOf(c: Config, states: seq<State>, events: seq<Event>) {
    && |states| == |events| + 1
    && forall i :: 0 <= i < |events| ==> Step(c, states[i], events[i], states[i + 1])
  }

  lemma {:induction false} ExclusiveUpTo(c: Config, states: seq<State>, events: seq<Event>, n: nat)
    requires RunOf(c, states, events) && n <= |events|
    requires Exclusive(states[0]) && HeldIsDownloading(states[0])
    requires forall i :: 0 <= i < n ==> ReclaimsOnlyAbandoned(states[i], events[i])
    ensures Exclusive(states[n]) && HeldIsDownloading(states[n])
  {
    if n > 0 {
      ExclusiveUpTo(c, states, events, n - 1);
      ExclusiveStep(c, states[n - 1], events[n - 1], states[n]);
    }
  }

  /** Over any run, crashes and delays included: exclusive throughout iff no reclaim takes a held row. */
  lemma ExclusiveExactly(c: Config, states: seq<State>, events: seq<Event>)
    requires RunOf(c, states, events) && Exclusive(states[0]) && HeldIsDownloading(states[0])
    ensures (forall n :: 0 <= n < |states| ==> Exclusive(states[n])) <==>
            (forall i :: 0 <= i < |events| ==> ReclaimsOnlyAbandoned(states[i], events[i]))
  {
    if forall i :: 0 <= i < |events| ==> ReclaimsOnlyAbandoned(states[i], events[i]) {
      forall n | 0 <= n < |states| ensures Exclusive(states[n]) {
        ExclusiveUpTo(c, states, events, n);
      }
    } else {
      var i :| 0 <= i < |events| && !ReclaimsOnlyAbandoned(states[i], events[i]);
      HeldReclaimClashes(c, states[i], events[i], states[i + 1]);
    }
  }

  // ---- When no reclaim can take a held row ----

  ghost predicate CutoffsPast(c: Config, s: State) {
    forall w :: w in s.workers && !s.workers[w].Idle? ==> s.workers[w].cutoff <= s.now - c.stale
  }

  /** A held row carries the time it was claimed. */
  ghost predicate HeldIsDated(s: State) {
    forall w, id :: Holds(s, w, id) ==>
      id in s.table && s.table[id].status == Downloading && s.table[id].updatedAt == s.workers[w].since
  }

  ghost predicate DownloadingIsHeld(s: State) {
    forall id :: id in s.table && s.table[id].status == Downloading ==> exists w :: Holds(s, w, id)
  }

  lemma HeldNotStale(c: Config, s: State, w: nat, v: nat, id: nat)
    requires CutoffsPast(c, s) && HeldIsDated(s) && Timely(c, s)
    requires Holds(s, v, id) && w in s.workers && s.workers[w].Running?
    ensures !Eligible(s.table[id], s.workers[w].cutoff)
  {
  }

  /** While batches are timely, a held row is never eligible, so a claim takes none. */
  lemma DatedStep(c: Config, s: State, e: Event, s': State)
    requires Step(c, s, e, s') && Timely(c, s)
    requires Exclusive(s) && CutoffsPast(c, s) && HeldIsDated(s)
    requires c.touches || DownloadingIsHeld(s)
    ensures Exclusive(s') && CutoffsPast(c, s') && HeldIsDated(s')
  {
    forall v, w, id | Holds(s', v, id) && Holds(s', w, id)
      ensures v == w && id in s'.table && s'.table[id].status == Downloading && s'.table[id].updatedAt == s'.workers[v].since
    {
      HeldAfter(c, s, e, s', v, id);
      HeldAfter(c, s, e, s', w, id);
      if e.Claims? && id in e.batch {
        ClaimTakesUnheld(c, s, e.w, e.batch, id);
      }
    }
  }

  lemma ClaimTakesUnheld(c: Config, s: State, w: nat, batch: set<nat>, id: nat)
    requires w in s.workers && s.workers[w].Running? && id in batch
    requires id in s.table && Eligible(s.table[id], s.workers[w].cutoff)
    requires Timely(c, s) && CutoffsPast(c, s) && HeldIsDated(s)
    requires c.touches || DownloadingIsHeld(s)
    ensures forall v :: !Holds(s, v, id)
    ensures Mark(c, s.table[id], s.now).updatedAt == s.now
  {
    forall v ensures !Holds(s, v, id) {
      if Holds(s, v, id) {
        HeldNotStale(c, s, w, v, id);
      }
    }
  }

  lemma DownloadingStep(c: Config, s: State, e: Event, s': State)
    requires Step(c, s, e, s') && DownloadingIsHeld(s) && !e.Crashes?
    ensures DownloadingIsHeld(s')
  {
    forall id | id in s'.table && s'.table[id].status == Downloading ensures exists v :: Holds(s', v, id) {
      if e.Claims? && id in e.batch {
        assert Holds(s', e.w, id);
      } else {
        var v :| Holds(s, v, id);
        assert Holds(s', v, id);
      }
    }
  }

  lemma {:induction false} DatedRun(c: Config, states: seq<State>, events: seq<Event>, n: nat)
    requires RunOf(c, states, events) && n <= |events| && Fresh(states[0])
    requires forall i :: 0 <= i < |states| ==> Timely(c, states[i])
    requires c.touches || forall i :: 0 <= i < |events| ==> !events[i].Crashes?
    ensures Exclusive(states[n]) && CutoffsPast(c, states[n]) && HeldIsDated(states[n])
    ensures c.touches || DownloadingIsHeld(states[n])
  {
    if n > 0 {
      DatedRun(c, states, events, n - 1);
      DatedStep(c, states[n - 1], events[n - 1], states[n]);
      if !c.touches {
        DownloadingStep(c, states[n - 1], events[n - 1], states[n]);
      }
    }
  }

  /** Timely batches never share a row in a run without crashes, nor, if a reclaim refreshed `updated_at`, in any run. */
  lemma ExclusiveWhenTimely(c: Config, states: seq<State>, events: seq<Event>)
    requires RunOf(c, states, events) && Fresh(states[0])
    requires forall i :: 0 <= i < |states| ==> Timely(c, states[i])
    requires c.touches || forall i :: 0 <= i < |events| ==> !events[i].Crashes?
    ensures forall n :: 0 <= n < |states| ==> Exclusive(states[n])
  {
    forall n | 0 <= n < |states| ensures Exclusive(states[n]) {
      DatedRun(c, states, events, n);
    }
  }

  // ---- When timely batches share a row ----

  /** The step claims no row that a live batch holds under an older stamp than its own claim. */
  ghost predicate SparesReclaimed(s: State, e: Event) {
    e.Claims? ==> forall v, id :: id in e.batch && Holds(s, v, id) && id in s.table ==> s.table[id].updatedAt == s.workers[v].since
  }

  lemma SparedIsAbandoned(c: Config, s: State, e: Event, s': State)
    requires Step(c, s, e, s') && Timely(c, s) && CutoffsPast(c, s) && SparesReclaimed(s, e)
    ensures ReclaimsOnlyAbandoned(s, e)
  {
  }

  lemma {:induction false} SparedUpTo(c: Config, states: seq<State>, events: seq<Event>, n: nat)
    requires RunOf(c, states, events) && n <= |events| && Fresh(states[0])
    requires forall i :: 0 <= i < |states| ==> Timely(c, states[i])
    requires forall i :: 0 <= i < |events| ==> SparesReclaimed(states[i], events[i])
    ensures Exclusive(states[n]) && HeldIsDownloading(states[n]) && CutoffsPast(c, states[n])
  {
    if n > 0 {
      SparedUpTo(c, states, events, n - 1);
      SparedIsAbandoned(c, states[n - 1], events[n - 1], states[n]);
      ExclusiveStep(c, states[n - 1], events[n - 1], states[n]);
    }
  }

  lemma TakenTwice(c: Config, s: State, e: Event, s': State)
    requires Step(c, s, e, s') && !SparesReclaimed(s, e)
    ensures !Exclusive(s')
  {
    var v, id :| id in e.batch && Holds(s, v, id);
    assert Holds(s', v, id) && Holds(s', e.w, id);
  }

  /** Timely batches never share a row exactly when no claim takes one that a live batch holds under an older stamp. */
  lemma ExclusiveWhenTimelyExactly(c: Config, states: seq<State>, events: seq<Event>)
    requires RunOf(c, states, events) && Fresh(states[0])
    requires forall i :: 0 <= i < |states| ==> Timely(c, states[i])
    ensures (forall n :: 0 <= n < |states| ==> Exclusive(states[n]))
            <==> forall i :: 0 <= i < |events| ==> SparesReclaimed(states[i], events[i])
  {
    if forall i :: 0 <= i < |events| ==> SparesReclaimed(states[i], events[i]) {
      forall n | 0 <= n < |states| ensures Exclusive(states[n]) {
        SparedUpTo(c, states, events, n);
      }
    } else {
      var i :| 0 <= i < |events| && !SparesReclaimed(states[i], events[i]);
      TakenTwice(c, states[i], events[i], states[i + 1]);
    }
  }

  /** The step is a claim by `v` of a row that already was DOWNLOADING. */
  ghost predicate Reclaims(s: State, e: Event, v: nat, id: nat) {
    e.Claims? && e.w == v && id in e.batch && id in s.table && s.table[id].status == Downloading
  }

  lemma OlderStampStep(c: Config, s: State, e: Event, s': State, v: nat, id: nat)
    requires Step(c, s, e, s') && Exclusive(s) && Exclusive(s') && HeldIsDownloading(s)
    requires Holds(s', v, id) && id in s'.table && s'.table[id].updatedAt != s'.workers[v].since
    ensures Reclaims(s, e, v, id)
            || (Holds(s, v, id) && id in s.table && s.table[id].updatedAt != s.workers[v].since)
  {
    HeldAfter(c, s, e, s', v, id);
    if e.Claims? && v != e.w && id in e.batch {
      assert Holds(s', e.w, id);
    }
  }

  /** A live batch holds a row under an older stamp only because it has itself reclaimed it. */
  lemma {:induction false} OlderStampIsReclaimed(c: Config, states: seq<State>, events: seq<Event>, n: nat, v: nat, id: nat)
    requires RunOf(c, states, events) && n <= |events| && Fresh(states[0])
    requires forall i :: 0 <= i <= n ==> Exclusive(states[i]) && HeldIsDownloading(states[i])
    requires Holds(states[n], v, id) && id in states[n].table && states[n].table[id].updatedAt != states[n].workers[v].since
    ensures exists i :: 0 <= i < n && Reclaims(states[i], events[i], v, id)
  {
    if n > 0 {
      OlderStampStep(c, states[n - 1], events[n - 1], states[n], v, id);
      if Reclaims(states[n - 1], events[n - 1], v, id) {
      } else {
        OlderStampIsReclaimed(c, states, events, n - 1, v, id);
      }
    }
  }

  // ---- Rows claimed from DISCOVERED or ERROR ----

  lemma {:induction false} CutoffsUpTo(c: Config, states: seq<State>, events: seq<Event>, n: nat)
    requires RunOf(c, states, events) && n <= |events| && Fresh(states[0])
    ensures CutoffsPast(c, states[n])
  {
    if n > 0 {
      CutoffsUpTo(c, states, events, n - 1);
      assert Step(c, states[n - 1], events[n - 1], states[n]);
    }
  }

  /** Worker `w` took the row out of DISCOVERED or ERROR at step `j`, and has held it since, up to state `n`. */
  ghost predicate TookFresh(states: seq<State>, events: seq<Event>, w: nat, id: nat, j: nat, n: nat) {
    && j < n < |states| && n <= |events|
    && events[j].Claims? && events[j].w == w && id in events[j].batch
    && id in states[j].table && states[j].table[id].status != Downloading
    && forall i :: j < i <= n ==> Holds(states[i], w, id)
  }

  /** The step claims no row that failed and that a live batch still holds. */
  ghost predicate SparesFailed(s: State, e: Event) {
    e.Claims? ==> forall v, id :: id in e.batch && Holds(s, v, id) && id in s.table ==> s.table[id].status == Downloading
  }

  /** The row is in the batch of `w` alone, under its own stamp. */
  ghost predicate HeldAlone(s: State, w: nat, id: nat) {
    && Holds(s, w, id) && (forall v :: Holds(s, v, id) ==> v == w)
    && id in s.table && s.table[id].status == Downloading && s.table[id].updatedAt == s.workers[w].since
  }

  lemma HeldAloneStep(c: Config, s: State, e: Event, s': State, w: nat, id: nat)
    requires Step(c, s, e, s') && Timely(c, s) && CutoffsPast(c, s)
    requires HeldAlone(s, w, id) && Holds(s', w, id)
    ensures HeldAlone(s', w, id)
  {
    assert e.Finishes? ==> (id in s.workers[e.w].batch <==> Holds(s, e.w, id));
    forall v ensures Holds(s', v, id) ==> v == w {
      assert Holds(s', v, id) ==> Holds(s, v, id) || e.Claims?;
    }
  }

  lemma FreshAlone(c: Config, s: State, e: Event, s': State, id: nat)
    requires Step(c, s, e, s') && e.Claims? && id in e.batch && id in s.table && s.table[id].status != Downloading
    requires SparesFailed(s, e)
    ensures HeldAlone(s', e.w, id)
  {
    forall v | v != e.w ensures !Holds(s', v, id) {
      assert Holds(s', v, id) == Holds(s, v, id);
    }
  }

  lemma {:induction false} FreshStaysAlone(c: Config, states: seq<State>, events: seq<Event>, w: nat, id: nat, j: nat, n: nat)
    requires RunOf(c, states, events) && Fresh(states[0]) && TookFresh(states, events, w, id, j, n)
    requires forall i :: 0 <= i < |states| ==> Timely(c, states[i])
    requires SparesFailed(states[j], events[j])
    ensures HeldAlone(states[n], w, id)
    decreases n
  {
    assert Step(c, states[n - 1], events[n - 1], states[n]);
    if n - 1 > j {
      FreshStaysAlone(c, states, events, w, id, j, n - 1);
      CutoffsUpTo(c, states, events, n - 1);
      HeldAloneStep(c, states[n - 1], events[n - 1], states[n], w, id);
    } else {
      FreshAlone(c, states[j], events[j], states[n], id);
    }
  }

  /** No row claimed from DISCOVERED or ERROR is ever in another live batch. */
  ghost predicate FreshExclusive(states: seq<State>, events: seq<Event>) {
    forall w: nat, id: nat, j: nat, n: nat, v: nat :: TookFresh(states, events, w, id, j, n) && Holds(states[n], v, id) ==> v == w
  }

  /** Of timely batches this holds exactly when no claim takes a failed row that a live batch still holds. */
  lemma FreshExclusiveExactly(c: Config, states: seq<State>, events: seq<Event>)
    requires RunOf(c, states, events) && Fresh(states[0])
    requires forall i :: 0 <= i < |states| ==> Timely(c, states[i])
    ensures FreshExclusive(states, events) <==> forall i :: 0 <= i < |events| ==> SparesFailed(states[i], events[i])
  {
    if forall i :: 0 <= i < |events| ==> SparesFailed(states[i], events[i]) {
      forall w: nat, id: nat, j: nat, n: nat, v: nat | TookFresh(states, events, w, id, j, n) && Holds(states[n], v, id) ensures v == w {
        FreshStaysAlone(c, states, events, w, id, j, n);
      }
    }
    forall i | 0 <= i < |events| && !SparesFailed(states[i], events[i]) ensures !FreshExclusive(states, events) {
      var e, w := events[i], events[i].w;
      assert Step(c, states[i], e, states[i + 1]);
      var v, id :| id in e.batch && Holds(states[i], v, id) && id in states[i].table && states[i].table[id].status != Downloading;
      assert TookFresh(states, events, w, id, i, i + 1) && Holds(states[i + 1], v, id);
    }
  }

  lemma {:induction false} HeldInTable(c: Config, states: seq<State>, events: seq<Event>, n: nat, v: nat, id: nat)
    requires RunOf(c, states, events) && n <= |events| && Fresh(states[0]) && Holds(states[n], v, id)
    ensures id in states[n].table
  {
    if n > 0 {
      assert Step(c, states[n - 1], events[n - 1], states[n]);
      if Holds(states[n - 1], v, id) {
        HeldInTable(c, states, events, n - 1, v, id);
      }
    }
  }

  /** Such a row comes about only when two live batches share it already and one of them finishes it. */
  lemma {:induction false} HeldFailedWasShared(c: Config, states: seq<State>, events: seq<Event>, n: nat, v: nat, id: nat)
    requires RunOf(c, states, events) && n <= |events| && Fresh(states[0])
    requires Holds(states[n], v, id) && id in states[n].table && states[n].table[id].status != Downloading
    ensures exists i :: 0 <= i < n && events[i].Finishes? && events[i].w != v && Holds(states[i], events[i].w, id) && Holds(states[i], v, id)
  {
    if n > 0 {
      var s, e := states[n - 1], events[n - 1];
      assert Step(c, s, e, states[n]) && Holds(s, v, id);
      HeldInTable(c, states, events, n - 1, v, id);
      if s.table[id].status != Downloading {
        HeldFailedWasShared(c, states, events, n - 1, v, id);
      } else {
        assert e.Finishes? && e.w != v && Holds(s, e.w, id);
      }
    }
  }

  // ---- A run in which timely batches do share a row, claimed from ERROR ----

  function Sample(status: FileStatus, at: int): Row {
    Row("/f", None, None, status, if status == Error then Some(Interrupted) else None,
        Transferred(None, 0, None, None, None), Match(None, None, None, None, None), at)
  }

  /** The one row of the run, and what workers 0, 1 and 2 do. */
  function Moment(now: int, r: Row, w0: Worker, w1: Worker, w2: Worker): State {
    State(now, map[7 := r], map[0 := w0, 1 := w1, 2 := w2])
  }

  const OLD := Holding(-5, {7}, 0)
  const LATE := Holding(5, {7}, 10)

  /** Worker 0 claims at 0 and crashes; at 10, with a stale age of 5, 1 and 2 both reclaim the row; 1 fails it; 0 claims it. */
  ghost function SharedRun(): (run: (seq<State>, seq<Event>)) {
    var waiting, stuck, failed := Sample(Discovered, 0), Sample(Downloading, 0), Sample(Error, 10);
    ([ Moment(0, waiting, Idle, Idle, Idle),
       Moment(0, waiting, Running(-5), Idle, Idle),
       Moment(0, stuck, OLD, Idle, Idle),
       Moment(0, stuck, Idle, Idle, Idle),
       Moment(10, stuck, Idle, Idle, Idle),
       Moment(10, stuck, Running(5), Idle, Idle),
       Moment(10, stuck, Running(5), Running(5), Idle),
       Moment(10, stuck, Running(5), Running(5), Running(5)),
       Moment(10, stuck, Running(5), LATE, Running(5)),
       Moment(10, stuck, Running(5), LATE, LATE),
       Moment(10, failed, Running(5), Running(5), LATE),
       Moment(10, failed.(status := Downloading), LATE, Running(5), LATE) ],
     [ Starts(0), Claims(0, {7}), Crashes(0), Time, Starts(0), Starts(1), Starts(2),
       Claims(1, {7}), Claims(2, {7}), Finishes(1), Claims(0, {7}) ])
  }

  /** A worker starts. */
  lemma Started(now: int, r: Row, w0: Worker, w1: Worker, w2: Worker)
    ensures var c, run := Config(5, false), Running(now - 5);
            && (w0 == Idle ==> Step(c, Moment(now, r, w0, w1, w2), Starts(0), Moment(now, r, run, w1, w2)))
            && (w1 == Idle ==> Step(c, Moment(now, r, w0, w1, w2), Starts(1), Moment(now, r, w0, run, w2)))
            && (w2 == Idle ==> Step(c, Moment(now, r, w0, w1, w2), Starts(2), Moment(now, r, w0, w1, run)))
  {
    var run := Running(now - 5);
    var workers := map[0 := w0, 1 := w1, 2 := w2];
    assert workers[0 := run] == map[0 := run, 1 := w1, 2 := w2];
    assert workers[1 := run] == map[0 := w0, 1 := run, 2 := w2];
    assert workers[2 := run] == map[0 := w0, 1 := w1, 2 := run];
  }

  /** A running worker claims the row. */
  lemma ClaimedRow(now: int, r: Row, w0: Worker, w1: Worker, w2: Worker, cutoff: int)
    requires Eligible(r, cutoff)
    ensures var c, s, marked, held := Config(5, false), Moment(now, r, w0, w1, w2), Mark(Config(5, false), r, now), Holding(cutoff, {7}, now);
            && (w0 == Running(cutoff) ==> Step(c, s, Claims(0, {7}), Moment(now, marked, held, w1, w2)))
            && (w1 == Running(cutoff) ==> Step(c, s, Claims(1, {7}), Moment(now, marked, w0, held, w2)))
            && (w2 == Running(cutoff) ==> Step(c, s, Claims(2, {7}), Moment(now, marked, w0, w1, held)))
  {
    var held := Holding(cutoff, {7}, now);
    var workers := map[0 := w0, 1 := w1, 2 := w2];
    assert 7 in {7};
    assert workers[0 := held] == map[0 := held, 1 := w1, 2 := w2];
    assert workers[1 := held] == map[0 := w0, 1 := held, 2 := w2];
    assert workers[2 := held] == map[0 := w0, 1 := w1, 2 := held];
  }

  lemma CrashAndWait()
    ensures var c, stuck := Config(5, false), Sample(Downloading, 0);
            && Step(c, Moment(0, stuck, OLD, Idle, Idle), Crashes(0), Moment(0, stuck, Idle, Idle, Idle))
            && Step(c, Moment(0, stuck, Idle, Idle, Idle), Time, Moment(10, stuck, Idle, Idle, Idle))
  {
    assert map[0 := OLD, 1 := Idle, 2 := Idle][0 := Idle] == map[0 := Idle, 1 := Idle, 2 := Idle];
  }

  lemma FailedUnderAnother()
    ensures Step(Config(5, false), Moment(10, Sample(Downloading, 0), Running(5), LATE, LATE), Finishes(1),
                 Moment(10, Sample(Error, 10), Running(5), Running(5), LATE))
  {
    assert map[0 := Running(5), 1 := LATE, 2 := LATE][1 := Running(5)] == map[0 := Running(5), 1 := Running(5), 2 := LATE];
  }

  lemma SharedRunIsRun()
    ensures RunOf(Config(5, false), SharedRun().0, SharedRun().1)
  {
    hide Step, Moment;
    var waiting, stuck, failed := Sample(Discovered, 0), Sample(Downloading, 0), Sample(Error, 10);
    Started(0, waiting, Idle, Idle, Idle);
    ClaimedRow(0, waiting, Running(-5), Idle, Idle, -5);
    CrashAndWait();
    Started(10, stuck, Idle, Idle, Idle);
    Started(10, stuck, Running(5), Idle, Idle);
    Started(10, stuck, Running(5), Running(5), Idle);
    ClaimedRow(10, stuck, Running(5), Running(5), Running(5), 5);
    ClaimedRow(10, stuck, Running(5), LATE, Running(5), 5);
    FailedUnderAnother();
    ClaimedRow(10, failed, Running(5), Running(5), LATE, 5);
  }

  predicate OnTime(now: int, w: Worker) {
    w.Holding? ==> now - w.since <= 5
  }

  lemma TimelyMoments()
    ensures forall now, r, w0, w1, w2 :: OnTime(now, w0) && OnTime(now, w1) && OnTime(now, w2) ==>
      Timely(Config(5, false), Moment(now, r, w0, w1, w2))
  {
  }

  lemma SharedRunIsTimely()
    ensures forall i :: 0 <= i < |SharedRun().0| ==> Timely(Config(5, false), SharedRun().0[i])
  {
    hide Timely, Moment;
    TimelyMoments();
  }

  lemma TimelyBatchesCanShare()
    ensures var (states, events) := SharedRun();
            var c := Config(5, false);
            && RunOf(c, states, events) && Fresh(states[0])
            && (forall i :: 0 <= i < |states| ==> Timely(c, states[i]))
            && states[10].table[7].status == Error && events[10] == Claims(0, {7})
            && Holds(states[11], 2, 7) && Holds(states[11], 0, 7)
  {
    hide RunOf, Timely;
    SharedRunIsRun();
    SharedRunIsTimely();
  }
}
