/**
 The download run: claim a batch, run it, until nothing eligible is left.

 One worker over a fixed table. A failed row is eligible again in the same run, so the loop ends
 because every row fails only a finite number of times before it succeeds.
 */
module DownloadRun {
  import opened Common
  import opened Files
  import opened Staging
  import opened Download

  /** Everything the run does not decide: which rows a query meets first, and every await. */
  datatype RunEnv = RunEnv(
    maxWorkers: nat,
    cutoff: int,                         // stale_cutoff
    now: int,                            // the clock an UPDATE writes to updated_at
    staged: string -> Option<Path>,      // where a remote path is staged, None when it is refused
    order: nat -> seq<nat>,              // the order in which the n-th claim's query meets the rows
    attempt: (nat, nat) -> Transfer,     // how the k-th transfer of a row ends
    inFlight: (nat, nat) -> bool,        // row i of batch n had not finished when the gather was cancelled
    claimRaises: nat -> bool,
    progressRaises: nat -> bool,
    gatherCancelled: nat -> bool,
    reportBreaks: (nat, nat) -> bool,
    cleanupBreaks: (nat, nat) -> bool,
    saveRaises: nat -> bool,
    rescue: nat -> Await,
    cleanup: nat -> Await,
    lateProgressRaises: nat -> bool)

  datatype RunOutcome = RunReturned(totals: Totals) | RunRaised

  /** `base_where`: only rows that never reached staging, and claims that look abandoned. */
  predicate Eligible(r: Row, cutoff: int) {
    || r.status == Discovered
    || (r.status == Error && r.transferred.localPath.None?)
    || (r.status == Downloading && r.updatedAt < cutoff)
  }

  predicate Succeeds(r: Row, t: Transfer) {
    t.Finished? && t.hash.Hashed? && Mismatch(r.declaredCrc, t.hash.crc).None?
  }

  /** A claim writes the status; a row that already was DOWNLOADING gets no UPDATE, so its `updated_at` stays. */
  function Claimed(r: Row, now: int): Row {
    if r.status == Downloading then r else r.(status := Downloading, updatedAt := now)
  }

  /**
   The row after a claim at `now`: its UPDATE refreshes `updated_at`, unless the row already was DOWNLOADING
   and there is nothing to update. No other column changes.
   */
  ghost predicate Taken(before: Row, r: Row, now: int) {
    && r.status == Downloading
    && (before.status != Downloading ==> r.updatedAt == now)
    && (before.status == Downloading ==> r.updatedAt == before.updatedAt)
    && (r.remotePath, r.declaredCrc, r.ignoredReason, r.problem, r.transferred, r.parsed)
       == (before.remotePath, before.declaredCrc, before.ignoredReason, before.problem, before.transferred, before.parsed)
  }

  /** Each row of the batch is taken, and no other row changes. */
  ghost predicate TakesOver(before: Table, after: Table, batch: seq<nat>, now: int) {
    && after.Keys == before.Keys
    && (forall id :: id in batch ==> id in before && Taken(before[id], after[id], now))
    && (forall id :: id in before && id !in batch ==> after[id] == before[id])
  }

  /** Each row of the batch goes to the destination of its own remote path. */
  ghost predicate PathsComputed(table: Table, batch: seq<nat>, paths: seq<Path>, staging: Path, roots: seq<string>) {
    && |paths| == |batch|
    && forall i :: 0 <= i < |batch| ==> batch[i] in table && StagingPath(table[batch[i]].remotePath, staging, roots) == Some(paths[i])
  }

  /** A row taken out of DISCOVERED or ERROR is not eligible again until its claim is stale. */
  lemma TakenIsSafe(before: Row, r: Row, now: int, cutoff: int)
    requires Taken(before, r, now) && before.status != Downloading
    ensures Eligible(r, cutoff) <==> now < cutoff
  {
  }

  function BatchOf(env: RunEnv, n: nat, pending: seq<nat>, made: map<nat, nat>): (batch: BatchEnv)
    requires forall id :: id in pending ==> id in made
    ensures |batch.transfers| == |batch.reportBreaks| == |batch.cleanupBreaks| == |pending|
  {
    BatchEnv(
      env.progressRaises(n), env.gatherCancelled(n),
      seq(|pending|, i requires 0 <= i < |pending| =>
        assert pending[i] in pending;
        if env.gatherCancelled(n) && env.inFlight(n, i) then InFlight else env.attempt(pending[i], made[pending[i]])),
      seq(|pending|, i requires 0 <= i < |pending| => env.reportBreaks(n, i)),
      seq(|pending|, i requires 0 <= i < |pending| => env.cleanupBreaks(n, i)),
      env.saveRaises(n), env.rescue(n), env.cleanup(n), env.lateProgressRaises(n))
  }

  /** A query meets every row of the table once; a task that is not cut short ends. */
  ghost predicate ValidEnv(env: RunEnv, o: DownloadOrchestrator)
    reads o`table
  {
    && (forall remote :: env.staged(remote) == StagingPath(remote, o.stagingPath, o.remotePaths))
    && ValidOrders(env, o.table)
  }

  ghost predicate ValidOrders(env: RunEnv, table: Table) {
    && (forall n :: Distinct(env.order(n)))
    && (forall n, id :: id in env.order(n) <==> id in table)
    && (forall id, k :: !env.attempt(id, k).InFlight?)
  }

  /** The row fails exactly `budget` times before its first success. */
  ghost predicate FailsFor(env: RunEnv, id: nat, r: Row, budget: nat) {
    && (forall k :: 0 <= k < budget ==> !Succeeds(r, env.attempt(id, k)))
    && Succeeds(r, env.attempt(id, budget))
  }

  ghost predicate NeverRaises(env: RunEnv) {
    forall n :: !env.claimRaises(n) && !env.progressRaises(n) && !env.gatherCancelled(n)
                && !env.saveRaises(n) && !env.lateProgressRaises(n)
                && forall i :: !env.reportBreaks(n, i)
  }

  // ---- Claiming ----

  /** The eligible rows among those met, at most `limit` of them. */
  function Chosen(table: Table, cutoff: int, met: seq<nat>, limit: nat): (chosen: seq<nat>)
    requires forall id :: id in met ==> id in table
  {
    if met == [] then []
    else
      var before := Chosen(table, cutoff, met[..|met| - 1], limit);
      var id := met[|met| - 1];
      if |before| < limit && Eligible(table[id], cutoff) then before + [id] else before
  }

  lemma {:induction false} ChosenFacts(table: Table, cutoff: int, met: seq<nat>, limit: nat)
    requires Distinct(met) && forall id :: id in met ==> id in table
    ensures var chosen := Chosen(table, cutoff, met, limit);
            && Distinct(chosen) && |chosen| <= limit
            && (forall id :: id in chosen ==> id in met && Eligible(table[id], cutoff))
            && (|chosen| < limit ==> forall id :: id in met && Eligible(table[id], cutoff) ==> id in chosen)
  {
    if met != [] {
      ChosenFacts(table, cutoff, met[..|met| - 1], limit);
      assert met == met[..|met| - 1] + [met[|met| - 1]];
    }
  }

  /** The query of a claim: whatever order it meets the rows in, it takes eligible rows only, up to the limit. */
  method SelectBatch(table: Table, cutoff: int, met: seq<nat>, limit: nat) returns (batch: seq<nat>)
    requires Distinct(met) && forall id :: id in met <==> id in table
    ensures Distinct(batch) && |batch| <= limit
    ensures forall id :: id in batch ==> id in table && Eligible(table[id], cutoff)
    ensures |batch| < limit ==> forall id :: id in table && Eligible(table[id], cutoff) ==> id in batch
  {
    batch := [];
    for i := 0 to |met|
      invariant batch == Chosen(table, cutoff, met[..i], limit)
    {
      assert met[..i + 1][..i] == met[..i] && met[i] in met;
      if |batch| < limit && Eligible(table[met[i]], cutoff) {
        batch := batch + [met[i]];
      }
    }
    assert met[..|met|] == met;
    ChosenFacts(table, cutoff, met, limit);
  }

  /** The first `k` rows of the batch have been marked DOWNLOADING and given a destination. */
  ghost predicate BatchMarked(table0: Table, table: Table, batch: seq<nat>, paths: seq<Path>, env: RunEnv, k: nat) {
    && k <= |batch| && |paths| == k && table.Keys == table0.Keys
    && (forall i :: 0 <= i < |batch| ==>
          (batch[i] in table0 && table[batch[i]] == if i < k then Claimed(table0[batch[i]], env.now) else table0[batch[i]]))
    && (forall i :: 0 <= i < k ==> Some(paths[i]) == env.staged(table0[batch[i]].remotePath))
    && (forall id :: id in table0 && id !in batch ==> table[id] == table0[id])
  }

  lemma MarkRow(table0: Table, table: Table, batch: seq<nat>, paths: seq<Path>, env: RunEnv, k: nat, path: Path)
    requires Distinct(batch) && k < |batch| && BatchMarked(table0, table, batch, paths, env, k)
    requires env.staged(table0[batch[k]].remotePath) == Some(path)
    ensures table[batch[k]] == table0[batch[k]]
    ensures BatchMarked(table0, table[batch[k] := Claimed(table0[batch[k]], env.now)], batch, paths + [path], env, k + 1)
  {
  }

  lemma AllTaken(table0: Table, table: Table, batch: seq<nat>, paths: seq<Path>, env: RunEnv)
    requires BatchMarked(table0, table, batch, paths, env, |batch|)
    ensures TakesOver(table0, table, batch, env.now)
  {
    forall id | id in batch ensures id in table0 && id in table && Taken(table0[id], table[id], env.now) {
      var i :| 0 <= i < |batch| && batch[i] == id;
    }
  }

  /** Mark the batch DOWNLOADING; None when a destination is refused, before anything is committed. */
  method MarkBatch(o: DownloadOrchestrator, batch: seq<nat>, env: RunEnv) returns (paths: Option<seq<Path>>)
    requires ValidEnv(env, o) && Distinct(batch) && forall id :: id in batch ==> id in o.table
    modifies o`table
    ensures o.table.Keys == old(o.table).Keys
    ensures paths.Some? ==>
      && BatchMarked(old(o.table), o.table, batch, paths.value, env, |batch|)
      && TakesOver(old(o.table), o.table, batch, env.now)
    ensures paths.None? ==>
      exists id :: id in batch && env.staged(old(o.table)[id].remotePath).None?
  {
    var marked: seq<Path> := [];
    for i := 0 to |batch|
      invariant BatchMarked(old(o.table), o.table, batch, marked, env, i)
    {
      var r := o.table[batch[i]];
      var path := StagingPathFor(r.remotePath, o.stagingPath, o.remotePaths);
      if path.None? {
        assert batch[i] in batch;
        return None;
      }
      MarkRow(old(o.table), o.table, batch, marked, env, i, path.value);
      o.table := o.table[batch[i] := Claimed(r, env.now)];
      marked := marked + [path.value];
    }
    AllTaken(old(o.table), o.table, batch, marked, env);
    return Some(marked);
  }

  /** None when the claim raised: an escaping remote path, or its flush or commit. */
  method ClaimBatch(o: DownloadOrchestrator, env: RunEnv, n: nat) returns (claim: Option<(seq<nat>, seq<Path>)>)
    requires ValidEnv(env, o)
    modifies o
    ensures o.table.Keys == old(o.table).Keys
    ensures claim.Some? ==>
      var (batch, paths) := claim.value;
      && Distinct(batch) && |batch| <= env.maxWorkers
      && (forall id :: id in batch ==> id in o.table && Eligible(old(o.table)[id], env.cutoff))
      && (|batch| < env.maxWorkers ==> forall id :: id in o.table && Eligible(old(o.table)[id], env.cutoff) ==> id in batch)
      && BatchMarked(old(o.table), o.table, batch, paths, env, |batch|)
      && TakesOver(old(o.table), o.table, batch, env.now)
      && PathsComputed(old(o.table), batch, paths, o.stagingPath, o.remotePaths)
      && o.committed == if batch == [] then old(o.committed) else o.table
    ensures claim.None? ==> o.committed == old(o.committed)
    ensures claim.None? && !env.claimRaises(n) ==>
      exists id :: id in o.table && env.staged(old(o.table)[id].remotePath).None?
  {
    var batch := SelectBatch(o.table, env.cutoff, env.order(n), env.maxWorkers);
    if batch == [] {
      return Some(([], []));
    }
    var paths := MarkBatch(o, batch, env);
    if paths.None? || env.claimRaises(n) {
      return None;
    }
    o.committed := o.table;
    return Some((batch, paths.value));
  }

  // ---- What each row and the tally come to ----

  /** What the `k` first attempts of a row with this budget have added to the totals. */
  ghost function Got(env: RunEnv, id: nat, budget: nat, k: nat): Totals {
    if k <= budget then Totals(0, k, 0)
    else Totals(1, budget, if env.attempt(id, budget).Finished? then env.attempt(id, budget).size else 0)
  }

  ghost function CreditOf(env: RunEnv, budget: nat -> nat, ids: seq<nat>, made: map<nat, nat>): Totals
    requires forall id :: id in ids ==> id in made
  {
    if ids == [] then Totals(0, 0, 0)
    else
      var id := ids[|ids| - 1];
      Plus(CreditOf(env, budget, ids[..|ids| - 1], made), Got(env, id, budget(id), made[id]))
  }

  function Plus(a: Totals, b: Totals): Totals {
    Totals(a.downloaded + b.downloaded, a.failed + b.failed, a.bytes + b.bytes)
  }

  /** The totals of a run that takes every initially eligible row to its first success. */
  ghost function Expected(env: RunEnv, budget: nat -> nat, ids: seq<nat>, table: Table): Totals
    requires forall id :: id in ids ==> id in table
  {
    if ids == [] then Totals(0, 0, 0)
    else
      var id := ids[|ids| - 1];
      Plus(Expected(env, budget, ids[..|ids| - 1], table),
           if Eligible(table[id], env.cutoff) then Got(env, id, budget(id), budget(id) + 1) else Totals(0, 0, 0))
  }

  ghost function EligibleOf(env: RunEnv, ids: seq<nat>, table: Table): set<nat>
    requires forall id :: id in ids ==> id in table
  {
    set id | id in ids && Eligible(table[id], env.cutoff)
  }

  /** The sum of a number over a set of rows. */
  ghost function Over(amount: nat -> nat, ids: seq<nat>, within: set<nat>): nat {
    if ids == [] then 0
    else Over(amount, ids[..|ids| - 1], within) + if ids[|ids| - 1] in within then amount(ids[|ids| - 1]) else 0
  }

  lemma {:induction false} OverFrame(amount: nat -> nat, ids: seq<nat>, within: set<nat>, within': set<nat>)
    requires forall id :: id in ids ==> (id in within <==> id in within')
    ensures Over(amount, ids, within) == Over(amount, ids, within')
  {
    if ids != [] {
      OverFrame(amount, ids[..|ids| - 1], within, within');
    }
  }

  ghost function SizeAt(env: RunEnv, budget: nat -> nat): nat -> nat {
    id => if env.attempt(id, budget(id)).Finished? then env.attempt(id, budget(id)).size else 0
  }

  /** One success for each eligible row, its budget of failures, and the size of its first successful attempt. */
  ghost function EligibleTotals(env: RunEnv, budget: nat -> nat, ids: seq<nat>, table: Table): Totals
    requires forall id :: id in ids ==> id in table
  {
    var eligible := EligibleOf(env, ids, table);
    Totals(|eligible|, Over(budget, ids, eligible), Over(SizeAt(env, budget), ids, eligible))
  }

  lemma EligibleStep(env: RunEnv, ids: seq<nat>, table: Table)
    requires Distinct(ids) && ids != [] && forall id :: id in ids ==> id in table
    ensures var rest, id := ids[..|ids| - 1], ids[|ids| - 1];
            var before, eligible := EligibleOf(env, rest, table), EligibleOf(env, ids, table);
            && (forall x :: x in rest ==> (x in before <==> x in eligible))
            && (id in eligible <==> Eligible(table[id], env.cutoff))
            && |eligible| == |before| + if id in eligible then 1 else 0
  {
    hide Eligible;
    var rest, id := ids[..|ids| - 1], ids[|ids| - 1];
    assert id !in rest && forall x :: x in ids <==> x in rest || x == id;
    assert EligibleOf(env, ids, table) == EligibleOf(env, rest, table) + if Eligible(table[id], env.cutoff) then {id} else {};
  }

  /** A run's totals are those: it takes every eligible row from its failures to its first success. */
  lemma {:induction false} ExpectedMeans(env: RunEnv, budget: nat -> nat, ids: seq<nat>, table: Table)
    requires Distinct(ids) && forall id :: id in ids ==> id in table
    ensures Expected(env, budget, ids, table) == EligibleTotals(env, budget, ids, table)
  {
    hide Eligible, EligibleOf, Got, SizeAt;
    if ids != [] {
      var rest := ids[..|ids| - 1];
      ExpectedMeans(env, budget, rest, table);
      EligibleStep(env, ids, table);
      GotInAll(env, budget, ids[|ids| - 1]);
      OverFrame(budget, rest, EligibleOf(env, rest, table), EligibleOf(env, ids, table));
      OverFrame(SizeAt(env, budget), rest, EligibleOf(env, rest, table), EligibleOf(env, ids, table));
    } else {
      NothingEligible(env, table);
    }
  }

  lemma GotInAll(env: RunEnv, budget: nat -> nat, id: nat)
    ensures Got(env, id, budget(id), budget(id) + 1) == Totals(1, budget(id), SizeAt(env, budget)(id))
  {
  }

  lemma NothingEligible(env: RunEnv, table: Table)
    ensures EligibleOf(env, [], table) == {}
  {
  }

  /** How far a row is after `k` attempts. */
  ghost predicate RowState(env: RunEnv, r0: Row, r: Row, k: nat, budget: nat) {
    && r.remotePath == r0.remotePath && r.declaredCrc == r0.declaredCrc && r.ignoredReason == r0.ignoredReason
    && if !Eligible(r0, env.cutoff) then r == r0 && k == 0
       else
         && k <= budget + 1
         && (k <= budget ==> Eligible(r, env.cutoff) && r.transferred.localPath.None?)
         && (k == budget + 1 ==> Done(r) && Sound(r) && r.transferred.localPath == env.staged(r0.remotePath))
  }

  lemma RowAdvance(env: RunEnv, id: nat, r0: Row, r: Row, k: nat, budget: nat, path: Path)
    requires RowState(env, r0, r, k, budget) && Eligible(r, env.cutoff)
    requires Eligible(r0, env.cutoff) ==> FailsFor(env, id, r0, budget)
    requires Some(path) == env.staged(r0.remotePath)
    requires !env.attempt(id, k).InFlight? && !(env.attempt(id, k).Finished? && env.attempt(id, k).hash.HashRaises?)
    ensures Eligible(r0, env.cutoff) && k <= budget
    ensures var settled := Settled(Claimed(r, env.now), path, env.attempt(id, k), false);
            && RowState(env, r0, settled, k + 1, budget)
            && (Done(settled) <==> k == budget)
            && (Done(settled) ==> settled.transferred.size == env.attempt(id, budget).size)
  {
    SoundRow(Claimed(r, env.now), path, env.attempt(id, k), false);
    if k < budget {
      assert !Succeeds(r0, env.attempt(id, k));
    }
  }

  ghost predicate RunInv(env: RunEnv, budget: nat -> nat, ids: seq<nat>, table0: Table, table: Table, made: map<nat, nat>, t: Totals) {
    && (forall id :: id in ids <==> id in table0)
    && table.Keys == table0.Keys == made.Keys
    && (forall id :: id in table0 ==> RowState(env, table0[id], table[id], made[id], budget(id)))
    && t == CreditOf(env, budget, ids, made)
  }

  /** One more attempt for each row of the batch. */
  function Bumped(made: map<nat, nat>, pending: seq<nat>): (bumped: map<nat, nat>)
    ensures bumped.Keys == made.Keys
  {
    map id | id in made :: made[id] + if id in pending then 1 else 0
  }

  lemma {:induction false} CreditFrame(env: RunEnv, budget: nat -> nat, ids: seq<nat>, made: map<nat, nat>, made': map<nat, nat>)
    requires forall id :: id in ids ==> id in made && id in made' && made[id] == made'[id]
    ensures CreditOf(env, budget, ids, made) == CreditOf(env, budget, ids, made')
  {
    if ids != [] {
      CreditFrame(env, budget, ids[..|ids| - 1], made, made');
    }
  }

  lemma {:induction false} CreditBump(env: RunEnv, budget: nat -> nat, ids: seq<nat>, made: map<nat, nat>, made': map<nat, nat>, id: nat)
    requires Distinct(ids) && id in ids && forall x :: x in ids ==> x in made && x in made'
    requires forall x :: x in ids ==> made'[x] == made[x] + if x == id then 1 else 0
    requires made[id] <= budget(id)
    ensures var c, c' := CreditOf(env, budget, ids, made), CreditOf(env, budget, ids, made');
            var last := made[id] == budget(id);
            && c'.downloaded == c.downloaded + (if last then 1 else 0)
            && c'.failed == c.failed + (if last then 0 else 1)
            && c'.bytes == c.bytes + (if last then Got(env, id, budget(id), budget(id) + 1).bytes else 0)
  {
    var rest := ids[..|ids| - 1];
    if ids[|ids| - 1] == id {
      CreditFrame(env, budget, rest, made, made');
    } else {
      assert ids == rest + [ids[|ids| - 1]];
      CreditBump(env, budget, rest, made, made', id);
    }
  }

  /** What attempt `made[id]` of each row of the batch came to. */
  ghost predicate AttemptsMade(env: RunEnv, budget: nat -> nat, ids: seq<nat>, made: map<nat, nat>, pending: seq<nat>, rows: seq<Row>) {
    && |pending| == |rows|
    && (forall id :: id in ids ==> id in made)
    && forall i :: 0 <= i < |pending| ==>
         var id := pending[i];
         && id in ids && made[id] <= budget(id)
         && (Done(rows[i]) <==> made[id] == budget(id))
         && (Done(rows[i]) ==> rows[i].transferred.size == Got(env, id, budget(id), budget(id) + 1).bytes)
  }

  lemma BumpedMore(made: map<nat, nat>, pending: seq<nat>, k: nat)
    requires Distinct(pending) && k < |pending|
    ensures var less, more := Bumped(made, pending[..k]), Bumped(made, pending[..k + 1]);
            && (forall id :: id in made ==> more[id] == less[id] + if id == pending[k] then 1 else 0)
            && (pending[k] in made ==> less[pending[k]] == made[pending[k]])
  {
    assert pending[k] !in pending[..k] && pending[..k + 1] == pending[..k] + [pending[k]];
  }

  lemma CreditStep(env: RunEnv, budget: nat -> nat, ids: seq<nat>, made: map<nat, nat>, pending: seq<nat>, rows: seq<Row>,
      t0: Totals, before: Totals, k: nat) returns (t: Totals)
    requires Distinct(ids) && Distinct(pending) && k < |pending|
    requires AttemptsMade(env, budget, ids, made, pending, rows)
    requires Tallied(before, t0, rows, k) && before == CreditOf(env, budget, ids, Bumped(made, pending[..k]))
    ensures Tallied(t, t0, rows, k + 1) && t == CreditOf(env, budget, ids, Bumped(made, pending[..k + 1]))
  {
    hide CreditOf, Got;
    BumpedMore(made, pending, k);
    CreditBump(env, budget, ids, Bumped(made, pending[..k]), Bumped(made, pending[..k + 1]), pending[k]);
    t := CreditOf(env, budget, ids, Bumped(made, pending[..k + 1]));
  }

  /** The credit of a whole batch is what the batch adds to the tally. */
  lemma {:induction false} CreditBatch(env: RunEnv, budget: nat -> nat, ids: seq<nat>, made: map<nat, nat>, pending: seq<nat>, rows: seq<Row>, t0: Totals, k: nat) returns (t: Totals)
    requires Distinct(ids) && Distinct(pending) && k <= |pending|
    requires AttemptsMade(env, budget, ids, made, pending, rows)
    requires t0 == CreditOf(env, budget, ids, made)
    ensures Tallied(t, t0, rows, k) && t == CreditOf(env, budget, ids, Bumped(made, pending[..k]))
    decreases k
  {
    hide CreditOf, Got;
    if k == 0 {
      CreditFrame(env, budget, ids, made, Bumped(made, pending[..0]));
      t := t0;
    } else {
      t := CreditBatch(env, budget, ids, made, pending, rows, t0, k - 1);
      t := CreditStep(env, budget, ids, made, pending, rows, t0, t, k - 1);
    }
  }

  /** The number of attempts still to come: (remaining failures + 1), over the rows still eligible. */
  ghost function AttemptsLeft(env: RunEnv, budget: nat -> nat, ids: seq<nat>, table0: Table, t: Totals): int
    requires forall id :: id in ids ==> id in table0
  {
    var all := Expected(env, budget, ids, table0);
    all.downloaded + all.failed - t.downloaded - t.failed
  }

  lemma RowCredit(env: RunEnv, id: nat, r0: Row, r: Row, k: nat, budget: nat)
    requires RowState(env, r0, r, k, budget)
    ensures var got := Got(env, id, budget, k);
            var all := if Eligible(r0, env.cutoff) then Got(env, id, budget, budget + 1) else Totals(0, 0, 0);
            && got.downloaded + got.failed <= all.downloaded + all.failed
            && (!Eligible(r, env.cutoff) ==> got == all)
  {
  }

  lemma {:induction false} CreditBound(env: RunEnv, budget: nat -> nat, ids: seq<nat>, table0: Table, table: Table, made: map<nat, nat>)
    requires forall id :: id in ids ==> id in table0 && id in table && id in made
    requires forall id :: id in ids ==> RowState(env, table0[id], table[id], made[id], budget(id))
    ensures var all, t := Expected(env, budget, ids, table0), CreditOf(env, budget, ids, made);
            && t.downloaded + t.failed <= all.downloaded + all.failed
            && ((forall id :: id in ids ==> !Eligible(table[id], env.cutoff)) ==> t == all)
  {
    if ids != [] {
      var id, rest := ids[|ids| - 1], ids[..|ids| - 1];
      assert id in ids && forall x :: x in rest ==> x in ids;
      CreditBound(env, budget, rest, table0, table, made);
      RowCredit(env, id, table0[id], table[id], made[id], budget(id));
    }
  }

  /** What a batch that returned normally has done. */
  ghost predicate BatchDone(batch: BatchEnv, pending: seq<nat>, paths: seq<Path>, claimed: Table, table: Table, t0: Totals, t: Totals) {
    && batch.Valid(|pending|) && |paths| == |pending| && NothingRaises(batch)
    && table.Keys == claimed.Keys && (forall id :: id in pending ==> id in table)
    && (forall i :: 0 <= i < |pending| ==>
          table[pending[i]] == Settled(claimed[pending[i]], paths[i], batch.transfers[i], false))
    && (forall id :: id in table && id !in pending ==> table[id] == claimed[id])
    && Accounted(batch, RowsOf(table, pending), t0, t)
  }

  /** How row `id` is after one more attempt. */
  ghost predicate Advanced(env: RunEnv, budget: nat -> nat, ids: seq<nat>, table0: Table, table: Table, made: map<nat, nat>, id: nat) {
    && id in ids && id in table0 && id in table && id in made && made[id] <= budget(id)
    && (Done(table[id]) <==> made[id] == budget(id))
    && (Done(table[id]) ==> table[id].transferred.size == Got(env, id, budget(id), budget(id) + 1).bytes)
    && RowState(env, table0[id], table[id], made[id] + 1, budget(id))
  }

  /** Each row of a completed batch has made one more attempt. */
  lemma BatchRowAdvance(env: RunEnv, budget: nat -> nat, ids: seq<nat>, table0: Table, table: Table, claimed: Table, table': Table,
      made: map<nat, nat>, n: nat, pending: seq<nat>, paths: seq<Path>, t: Totals, t': Totals, i: nat)
    requires RunInv(env, budget, ids, table0, table, made, t) && Distinct(ids) && i < |pending|
    requires forall id :: id in table0 && Eligible(table0[id], env.cutoff) ==> FailsFor(env, id, table0[id], budget(id))
    requires forall id, k :: !env.attempt(id, k).InFlight?
    requires forall id :: id in pending ==> id in table && Eligible(table[id], env.cutoff)
    requires BatchMarked(table, claimed, pending, paths, env, |pending|)
    requires BatchDone(BatchOf(env, n, pending, made), pending, paths, claimed, table', t, t')
    ensures Advanced(env, budget, ids, table0, table', made, pending[i])
  {
    var id, batch := pending[i], BatchOf(env, n, pending, made);
    assert id in pending;
    ThroughMeans(batch, 0);
    assert !batch.HashFails(i) && batch.transfers[i] == env.attempt(id, made[id]);
    RowAdvance(env, id, table0[id], table[id], made[id], budget(id), paths[i]);
  }

  lemma CreditAdvance(env: RunEnv, budget: nat -> nat, ids: seq<nat>, table0: Table, table: Table, made: map<nat, nat>,
      pending: seq<nat>, t: Totals, t': Totals)
    requires Distinct(ids) && Distinct(pending) && forall id :: id in ids ==> id in made
    requires forall i :: 0 <= i < |pending| ==> Advanced(env, budget, ids, table0, table, made, pending[i])
    requires forall id :: id in pending ==> id in table
    requires t == CreditOf(env, budget, ids, made) && Tallied(t', t, RowsOf(table, pending), |pending|)
    ensures t' == CreditOf(env, budget, ids, Bumped(made, pending))
  {
    var rows := RowsOf(table, pending);
    assert AttemptsMade(env, budget, ids, made, pending, rows) by {
      forall i | 0 <= i < |pending| ensures Advanced(env, budget, ids, table0, table, made, pending[i]) && rows[i] == table[pending[i]] {
      }
    }
    var credited := CreditBatch(env, budget, ids, made, pending, rows, t, |pending|);
    assert pending[..|pending|] == pending;
  }

  lemma BatchTally(batch: BatchEnv, pending: seq<nat>, paths: seq<Path>, claimed: Table, table: Table, t0: Totals, t: Totals)
    requires BatchDone(batch, pending, paths, claimed, table, t0, t)
    ensures (forall id :: id in pending ==> id in table) && Tallied(t, t0, RowsOf(table, pending), |pending|)
    ensures t.downloaded + t.failed == t0.downloaded + t0.failed + |pending|
  {
  }

  lemma BatchFrame(env: RunEnv, table: Table, claimed: Table, table': Table, batch: BatchEnv, pending: seq<nat>, paths: seq<Path>, t: Totals, t': Totals)
    requires forall id :: id in pending ==> id in table
    requires BatchMarked(table, claimed, pending, paths, env, |pending|)
    requires BatchDone(batch, pending, paths, claimed, table', t, t')
    ensures table'.Keys == table.Keys && forall id :: id in table' && id !in pending ==> table'[id] == table[id]
  {
    hide Accounted, Settled, NothingRaises;
  }

  /** A completed batch keeps the invariant and uses up one attempt of each of its rows. */
  lemma BatchAdvance(env: RunEnv, budget: nat -> nat, ids: seq<nat>, table0: Table, table: Table, claimed: Table, table': Table,
      made: map<nat, nat>, n: nat, pending: seq<nat>, paths: seq<Path>, t: Totals, t': Totals)
    requires RunInv(env, budget, ids, table0, table, made, t) && Distinct(ids) && Distinct(pending)
    requires forall id :: id in table0 && Eligible(table0[id], env.cutoff) ==> FailsFor(env, id, table0[id], budget(id))
    requires forall id, k :: !env.attempt(id, k).InFlight?
    requires forall id :: id in pending ==> id in table && Eligible(table[id], env.cutoff)
    requires BatchMarked(table, claimed, pending, paths, env, |pending|)
    requires BatchDone(BatchOf(env, n, pending, made), pending, paths, claimed, table', t, t')
    ensures RunInv(env, budget, ids, table0, table', Bumped(made, pending), t')
    ensures t'.downloaded + t'.failed == t.downloaded + t.failed + |pending|
  {
    hide Advanced, RowState, FailsFor, Eligible, Got, CreditOf, BatchMarked, BatchDone, Tallied;
    BatchFrame(env, table, claimed, table', BatchOf(env, n, pending, made), pending, paths, t, t');
    BatchTally(BatchOf(env, n, pending, made), pending, paths, claimed, table', t, t');
    forall i | 0 <= i < |pending| ensures Advanced(env, budget, ids, table0, table', made, pending[i]) {
      BatchRowAdvance(env, budget, ids, table0, table, claimed, table', made, n, pending, paths, t, t', i);
    }
    CreditAdvance(env, budget, ids, table0, table', made, pending, t, t');
    RowsAdvance(env, budget, ids, table0, table, table', made, pending);
  }

  lemma RowsAdvance(env: RunEnv, budget: nat -> nat, ids: seq<nat>, table0: Table, table: Table, table': Table, made: map<nat, nat>, pending: seq<nat>)
    requires table.Keys == table0.Keys == made.Keys == table'.Keys
    requires forall id :: id in table0 ==> RowState(env, table0[id], table[id], made[id], budget(id))
    requires forall i :: 0 <= i < |pending| ==> Advanced(env, budget, ids, table0, table', made, pending[i])
    requires forall id :: id in table' && id !in pending ==> table'[id] == table[id]
    ensures forall id :: id in table0 ==> RowState(env, table0[id], table'[id], Bumped(made, pending)[id], budget(id))
  {
    forall id | id in table0 ensures RowState(env, table0[id], table'[id], Bumped(made, pending)[id], budget(id)) {
      if id in pending {
        var i :| 0 <= i < |pending| && pending[i] == id;
        assert Advanced(env, budget, ids, table0, table', made, pending[i]);
      }
    }
  }

  lemma {:induction false} ThroughMeans(batch: BatchEnv, i: nat)
    requires i <= |batch.transfers| == |batch.reportBreaks|
    ensures PassEndFrom(batch, i).Through? <==>
      forall j :: i <= j < |batch.transfers| ==> !batch.HashFails(j) && !batch.reportBreaks[j]
    decreases |batch.transfers| - i
  {
    if i < |batch.transfers| {
      ThroughMeans(batch, i + 1);
    }
  }

  /** No await raises, and no finished transfer fails to hash. */
  ghost predicate Calm(env: RunEnv) {
    && NeverRaises(env)
    && forall id, k :: !(env.attempt(id, k).Finished? && env.attempt(id, k).hash.HashRaises?)
  }

  ghost predicate AllStageable(env: RunEnv, table: Table) {
    forall id :: id in table ==> env.staged(table[id].remotePath).Some?
  }

  lemma CalmBatch(env: RunEnv, n: nat, pending: seq<nat>, made: map<nat, nat>)
    requires (forall id :: id in pending ==> id in made) && Calm(env)
    ensures NothingRaises(BatchOf(env, n, pending, made))
  {
    ThroughMeans(BatchOf(env, n, pending, made), 0);
  }

  datatype Turn = NothingLeft | Raised | Again(made: map<nat, nat>)

  /** What a run needs to know of a batch. */
  method CompleteBatch(o: DownloadOrchestrator, pending: seq<nat>, paths: seq<Path>, batch: BatchEnv, tally: Tally) returns (done: bool)
    requires Distinct(pending) && |pending| == |paths| && batch.Valid(|pending|)
    requires forall id :: id in pending ==> id in o.table && o.table[id].status == Downloading
    modifies o, tally
    ensures o.table.Keys == old(o.table).Keys
    ensures done <==> NothingRaises(batch)
    ensures done ==> BatchDone(batch, pending, paths, old(o.table), o.table, old(tally.Value()), tally.Value()) && o.committed == o.table
  {
    hide RowReads, Saves, RowsEnded, Accounted, Settled;
    var result := o.RunBatch(pending, paths, batch, tally);
    return result.Completed?;
  }

  /** Run a claimed batch; `table` is the table before the claim. */
  method RunClaimed(o: DownloadOrchestrator, env: RunEnv, n: nat, made: map<nat, nat>, tally: Tally,
      pending: seq<nat>, paths: seq<Path>, ghost budget: nat -> nat, ghost ids: seq<nat>, ghost table0: Table, ghost table: Table)
    returns (turn: Turn)
    requires ValidEnv(env, o) && Distinct(ids) && Distinct(pending) && pending != []
    requires forall id :: id in table0 && Eligible(table0[id], env.cutoff) ==> FailsFor(env, id, table0[id], budget(id))
    requires RunInv(env, budget, ids, table0, table, made, tally.Value())
    requires forall id :: id in pending ==> id in table && Eligible(table[id], env.cutoff)
    requires BatchMarked(table, o.table, pending, paths, env, |pending|)
    modifies o, tally
    ensures o.table.Keys == table0.Keys && !turn.NothingLeft?
    ensures turn.Again? ==>
      && o.committed == o.table
      && RunInv(env, budget, ids, table0, o.table, turn.made, tally.Value())
      && AttemptsLeft(env, budget, ids, table0, tally.Value()) < AttemptsLeft(env, budget, ids, table0, old(tally.Value()))
    ensures turn.Raised? ==> !Calm(env)
  {
    hide BatchDone, NothingRaises, Calm, FailsFor, Sound, Accounted, RowState;
    ghost var claimed, t := o.table, tally.Value();
    forall id | id in pending ensures id in o.table && o.table[id].status == Downloading {
      var i :| 0 <= i < |pending| && pending[i] == id;
    }
    var batch := BatchOf(env, n, pending, made);
    var done := CompleteBatch(o, pending, paths, batch, tally);
    if !done {
      if Calm(env) {
        CalmBatch(env, n, pending, made);
      }
      return Raised;
    }
    BatchAdvance(env, budget, ids, table0, table, claimed, o.table, made, n, pending, paths, t, tally.Value());
    return Again(Bumped(made, pending));
  }

  lemma RunKeys(env: RunEnv, budget: nat -> nat, ids: seq<nat>, table0: Table, table: Table, made: map<nat, nat>, t: Totals)
    requires RunInv(env, budget, ids, table0, table, made, t)
    ensures table.Keys == table0.Keys == made.Keys && forall id :: id in ids ==> id in table0
  {
  }

  lemma OrdersStay(env: RunEnv, table0: Table, table: Table)
    requires ValidOrders(env, table0) && table.Keys == table0.Keys
    ensures ValidOrders(env, table)
  {
  }

  lemma ClaimFailed(env: RunEnv, n: nat, table: Table)
    requires env.claimRaises(n) || exists id :: id in table && env.staged(table[id].remotePath).None?
    ensures !Calm(env) || !AllStageable(env, table)
  {
  }

  lemma NothingMarked(table0: Table, table: Table, paths: seq<Path>, env: RunEnv)
    requires BatchMarked(table0, table, [], paths, env, 0)
    ensures table == table0
  {
  }

  /** One turn of the loop: claim a batch and run it. */
  method RunTurn(o: DownloadOrchestrator, env: RunEnv, n: nat, made: map<nat, nat>, tally: Tally,
      ghost budget: nat -> nat, ghost ids: seq<nat>, ghost table0: Table)
    returns (turn: Turn)
    requires ValidEnv(env, o) && Distinct(ids)
    requires forall id :: id in table0 && Eligible(table0[id], env.cutoff) ==> FailsFor(env, id, table0[id], budget(id))
    requires RunInv(env, budget, ids, table0, o.table, made, tally.Value())
    modifies o, tally
    ensures o.table.Keys == table0.Keys
    ensures turn.NothingLeft? ==>
      && o.table == old(o.table) && o.committed == old(o.committed) && tally.Value() == old(tally.Value())
      && (env.maxWorkers > 0 ==> forall id :: id in o.table ==> !Eligible(o.table[id], env.cutoff))
    ensures turn.Again? ==>
      && env.maxWorkers > 0 && o.committed == o.table
      && RunInv(env, budget, ids, table0, o.table, turn.made, tally.Value())
      && AttemptsLeft(env, budget, ids, table0, tally.Value()) < AttemptsLeft(env, budget, ids, table0, old(tally.Value()))
    ensures turn.Raised? ==> !Calm(env) || !AllStageable(env, old(o.table))
  {
    hide RunInv, AttemptsLeft, FailsFor, TakesOver, PathsComputed, BatchMarked, Calm, AllStageable, ValidOrders, RowState;
    ghost var table := o.table;
    RunKeys(env, budget, ids, table0, table, made, tally.Value());
    var claim := ClaimBatch(o, env, n);
    OrdersStay(env, table, o.table);
    if claim.None? {
      ClaimFailed(env, n, table);
      return Raised;
    }
    var (pending, paths) := claim.value;
    if pending == [] {
      NothingMarked(table, o.table, paths, env);
      return NothingLeft;
    }
    turn := RunClaimed(o, env, n, made, tally, pending, paths, budget, ids, table0, table);
  }

  lemma {:induction false} CreditNothing(env: RunEnv, budget: nat -> nat, ids: seq<nat>, made: map<nat, nat>)
    requires forall id :: id in ids ==> id in made && made[id] == 0
    ensures CreditOf(env, budget, ids, made) == Totals(0, 0, 0)
  {
    if ids != [] {
      CreditNothing(env, budget, ids[..|ids| - 1], made);
      assert ids[|ids| - 1] in ids;
    }
  }

  lemma RunBegins(env: RunEnv, budget: nat -> nat, ids: seq<nat>, table: Table, made: map<nat, nat>)
    requires made.Keys == table.Keys && (forall id :: id in ids <==> id in table)
    requires (forall id :: id in made ==> made[id] == 0)
    requires forall id :: id in table && Eligible(table[id], env.cutoff) ==> table[id].transferred.localPath.None?
    ensures RunInv(env, budget, ids, table, table, made, Totals(0, 0, 0))
  {
    CreditNothing(env, budget, ids, made);
  }

  lemma AttemptsRemain(env: RunEnv, budget: nat -> nat, ids: seq<nat>, table0: Table, table: Table, made: map<nat, nat>, t: Totals)
    requires RunInv(env, budget, ids, table0, table, made, t)
    ensures (forall id :: id in ids ==> id in table0) && AttemptsLeft(env, budget, ids, table0, t) >= 0
  {
    CreditBound(env, budget, ids, table0, table, made);
  }

  lemma StageAlike(env: RunEnv, budget: nat -> nat, ids: seq<nat>, table0: Table, table: Table, made: map<nat, nat>, t: Totals)
    requires RunInv(env, budget, ids, table0, table, made, t)
    ensures AllStageable(env, table) <==> AllStageable(env, table0)
  {
    forall id | id in table0 ensures table[id].remotePath == table0[id].remotePath {
      assert RowState(env, table0[id], table[id], made[id], budget(id));
    }
  }

  /** A row that was eligible is DOWNLOADED or IGNORED and staged, any other is untouched. */
  ghost predicate RowEnds(env: RunEnv, staged: Option<Path>, r0: Row, r: Row) {
    if Eligible(r0, env.cutoff)
    then Done(r) && Sound(r) && r.ignoredReason == r0.ignoredReason && r.transferred.localPath == staged
    else r == r0
  }

  lemma OrderFacts(env: RunEnv, table: Table, n: nat)
    requires ValidOrders(env, table)
    ensures Distinct(env.order(n)) && forall id :: id in env.order(n) <==> id in table
  {
  }

  /** When nothing is eligible any more, every row has ended and the totals are complete. */
  lemma RunEnds(env: RunEnv, budget: nat -> nat, ids: seq<nat>, table0: Table, table: Table, made: map<nat, nat>, t: Totals)
    requires RunInv(env, budget, ids, table0, table, made, t) && Distinct(ids)
    requires forall id :: id in table ==> !Eligible(table[id], env.cutoff)
    ensures table.Keys == table0.Keys && forall id :: id in ids ==> id in table0
    ensures forall id :: id in table0 ==> RowEnds(env, env.staged(table0[id].remotePath), table0[id], table[id])
    ensures t == EligibleTotals(env, budget, ids, table0)
  {
    hide EligibleTotals, Done, Sound, Eligible;
    CreditBound(env, budget, ids, table0, table, made);
    ExpectedMeans(env, budget, ids, table0);
    forall id | id in table0 ensures RowState(env, table0[id], table[id], made[id], budget(id)) {
    }
  }

  method Run(o: DownloadOrchestrator, env: RunEnv, ghost budget: nat -> nat) returns (outcome: RunOutcome)
    requires ValidEnv(env, o) && o.committed == o.table
    requires forall id :: id in o.table && Eligible(o.table[id], env.cutoff) ==>
      o.table[id].transferred.localPath.None? && FailsFor(env, id, o.table[id], budget(id))
    modifies o
    ensures o.table.Keys == old(o.table).Keys
    ensures outcome.RunReturned? ==> o.committed == o.table
    // The rows that were eligible are downloaded or ignored, the others are untouched, and the totals are exact.
    ensures outcome.RunReturned? && env.maxWorkers > 0 ==>
      && (forall id :: id in o.table ==>
            RowEnds(env, StagingPath(old(o.table)[id].remotePath, o.stagingPath, o.remotePaths), old(o.table)[id], o.table[id]))
      && outcome.totals == EligibleTotals(env, budget, env.order(0), old(o.table))
    // LIMIT 0 claims nothing.
    ensures outcome.RunReturned? && env.maxWorkers == 0 ==> o.table == old(o.table) && outcome.totals == Totals(0, 0, 0)
    // It does return when nothing raises and no remote path escapes the staging root.
    ensures Calm(env) && AllStageable(env, old(o.table)) ==> outcome.RunReturned?
  {
    hide RunInv, FailsFor, AttemptsLeft, EligibleTotals, Calm, AllStageable, RowEnds, ValidOrders, StagingPath;
    var tally := new Tally();
    var made: map<nat, nat> := map id | id in o.table :: 0;
    var n := 0;
    ghost var ids, table0 := env.order(0), o.table;
    OrderFacts(env, table0, 0);
    RunBegins(env, budget, ids, table0, made);
    while true
      invariant RunInv(env, budget, ids, table0, o.table, made, tally.Value()) && o.table.Keys == table0.Keys && o.committed == o.table
      invariant env.maxWorkers == 0 ==> o.table == table0 && tally.Value() == Totals(0, 0, 0)
      decreases AttemptsLeft(env, budget, ids, table0, tally.Value())
    {
      AttemptsRemain(env, budget, ids, table0, o.table, made, tally.Value());
      StageAlike(env, budget, ids, table0, o.table, made, tally.Value());
      OrdersStay(env, table0, o.table);
      var turn := RunTurn(o, env, n, made, tally, budget, ids, table0);
      match turn {
        case NothingLeft =>
          if env.maxWorkers > 0 {
            RunEnds(env, budget, ids, table0, o.table, made, tally.Value());
          }
          return RunReturned(tally.Value());
        case Raised => return RunRaised;
        case Again(made') => made := made';
      }
      n := n + 1;
    }
  }
}
