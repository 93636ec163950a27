/**
 One batch of the download run: transfer, record, and clean up whatever raised.

 Every `await` that can raise is chosen by a `BatchEnv`. The event sink swallows exceptions, so a
 report can only break by a cancellation, which is not an `Exception`.
 */
module Download {
  import opened Common
  import opened Files
  import opened Staging

  datatype Hash = Hashed(sha256: string, crc: Crc) | HashRaises

  /** How one transfer task ended; InFlight is seen only by a cancelled gather. */
  datatype Transfer =
    | Finished(size: nat, hash: Hash)
    | Failed(cancelled: bool, text: string)
    | InFlight

  datatype Await = Returns | RaisesError | RaisesCancel

  datatype BatchEnv = BatchEnv(
    progressRaises: bool,        // on_progress before the transfers
    gatherCancelled: bool,       // the task is cancelled while the transfers run
    transfers: seq<Transfer>,
    reportBreaks: seq<bool>,     // the sink is cancelled while reporting row i
    cleanupBreaks: seq<bool>,    // the sink is cancelled while row i is failed as interrupted
    saveRaises: bool,            // flush or commit of the batch
    rescue: Await,               // persist after a cancelled gather
    cleanup: Await,              // persist after the outer cleanup
    lateProgressRaises: bool)    // on_progress after the commit
  {
    ghost predicate Valid(n: nat) {
      && |transfers| == |reportBreaks| == |cleanupBreaks| == n
      && (!gatherCancelled ==> forall i :: 0 <= i < n ==> !transfers[i].InFlight?)
    }

    predicate HashFails(i: nat)
      requires i < |transfers|
    {
      transfers[i].Finished? && transfers[i].hash.HashRaises?
    }
  }

  /** How a pass over the batch ended. */
  datatype PassEnd = Through | StoppedByHash(at: nat) | StoppedBySink(at: nat)

  datatype Outcome = Completed | Stopped

  datatype Totals = Totals(downloaded: nat, failed: nat, bytes: nat)

  class Tally {
    var downloaded: nat
    var failed: nat
    var bytes: nat

    function Value(): Totals
      reads this
    {
      Totals(downloaded, failed, bytes)
    }

    constructor ()
      ensures downloaded == failed == bytes == 0
    {
      downloaded, failed, bytes := 0, 0, 0;
    }

    method Record(ok: bool, size: nat)
      modifies this
      ensures downloaded == old(downloaded) + (if ok then 1 else 0)
      ensures failed == old(failed) + (if ok then 0 else 1)
      ensures bytes == old(bytes) + (if ok then size else 0)
    {
      if ok {
        downloaded := downloaded + 1;
        bytes := bytes + size;
      } else {
        failed := failed + 1;
      }
    }
  }

  // ---- What one result does to one row ----

  function PostDownloadStatus(reason: Option<IgnoredReason>): FileStatus {
    if reason.Some? then Ignored else Downloaded
  }

  function Mismatch(declared: Option<Crc>, crc: Crc): Option<Problem> {
    if declared.Some? && declared.value != crc then Some(CrcMismatch(declared.value, crc)) else None
  }

  function AfterTransfer(r: Row, path: Path, size: nat, sha256: string, crc: Crc): Row {
    var hashed := r.transferred.(sha256 := Some(sha256), crcComputed := Some(crc), crcExtracted := r.declaredCrc);
    var mismatch := Mismatch(r.declaredCrc, crc);
    if mismatch.Some? then r.(status := Error, problem := mismatch, transferred := hashed.(localPath := None))
    else r.(status := PostDownloadStatus(r.ignoredReason), problem := None,
            transferred := hashed.(localPath := Some(path), size := size))
  }

  function AfterFailure(r: Row, cancelled: bool, text: string): Row {
    r.(status := Error, problem := Some(if cancelled then Interrupted else TransferFailed(text)))
  }

  function AfterInterrupt(r: Row): Row {
    r.(status := Error, problem := Some(Interrupted))
  }

  /** The row a settled result leaves; a cancelled gather interrupts what had not finished. */
  function Settled(r: Row, path: Path, t: Transfer, gatherCancelled: bool): Row {
    match t
    case Finished(size, Hashed(sha256, crc)) => AfterTransfer(r, path, size, sha256, crc)
    case Failed(cancelled, text) => if gatherCancelled then AfterInterrupt(r) else AfterFailure(r, cancelled, text)
    case _ => AfterInterrupt(r)
  }

  predicate Done(r: Row) {
    r.status == Downloaded || r.status == Ignored
  }

  /** What every row of a batch keeps, whatever the batch meets. */
  ghost predicate Sound(r: Row) {
    && r.status in {Downloading, Downloaded, Ignored, Error}
    && (r.status == Ignored <==> Done(r) && r.ignoredReason.Some?)
    && (Done(r) ==>
          && r.transferred.localPath.Some? && r.problem.None?
          && r.transferred.crcExtracted == r.declaredCrc
          && (r.declaredCrc.Some? ==> r.transferred.crcComputed == r.declaredCrc))
    && (r.status == Error ==> r.problem.Some?)
  }

  // ---- Counting the first `k` rows ----

  function DoneCount(rows: seq<Row>, k: nat): nat
    requires k <= |rows|
  {
    if k == 0 then 0 else DoneCount(rows, k - 1) + (if Done(rows[k - 1]) then 1 else 0)
  }

  function DoneBytes(rows: seq<Row>, k: nat): nat
    requires k <= |rows|
  {
    if k == 0 then 0 else DoneBytes(rows, k - 1) + (if Done(rows[k - 1]) then rows[k - 1].transferred.size else 0)
  }

  lemma {:induction false} CountBound(rows: seq<Row>, k: nat)
    requires k <= |rows|
    ensures DoneCount(rows, k) <= k
  {
    if k > 0 {
      CountBound(rows, k - 1);
    }
  }

  lemma {:induction false} SameCounts(rows: seq<Row>, others: seq<Row>, k: nat)
    requires k <= |rows| && k <= |others|
    requires forall i :: 0 <= i < k ==> rows[i] == others[i]
    ensures DoneCount(rows, k) == DoneCount(others, k) && DoneBytes(rows, k) == DoneBytes(others, k)
  {
    if k > 0 {
      SameCounts(rows, others, k - 1);
    }
  }

  lemma {:induction false} NoneDone(rows: seq<Row>, i: nat, k: nat)
    requires i <= k <= |rows|
    requires forall j :: i <= j < k ==> !Done(rows[j])
    ensures DoneCount(rows, k) == DoneCount(rows, i) && DoneBytes(rows, k) == DoneBytes(rows, i)
  {
    if i < k {
      NoneDone(rows, i, k - 1);
    }
  }

  // ---- A pass over the batch ----

  /** The rows a full pass leaves, in batch order. */
  ghost predicate IsTarget(table: Table, pending: seq<nat>, paths: seq<Path>, env: BatchEnv, target: seq<Row>) {
    && |target| == |pending| == |paths| == |env.transfers|
    && forall i :: 0 <= i < |pending| ==>
         pending[i] in table && target[i] == Settled(table[pending[i]], paths[i], env.transfers[i], env.gatherCancelled)
  }

  ghost function Target(table: Table, pending: seq<nat>, paths: seq<Path>, env: BatchEnv): (target: seq<Row>)
    requires |pending| == |paths| == |env.transfers| && forall id :: id in pending ==> id in table
    ensures IsTarget(table, pending, paths, env, target)
  {
    seq(|pending|, i requires 0 <= i < |pending| =>
      assert pending[i] in pending;
      Settled(table[pending[i]], paths[i], env.transfers[i], env.gatherCancelled))
  }

  /** Of `before`, exactly the first `k` rows of the batch have become those of `target`. */
  ghost predicate Reached(table: Table, before: Table, pending: seq<nat>, target: seq<Row>, k: nat) {
    && k <= |pending| == |target|
    && table.Keys == before.Keys
    && (forall i :: 0 <= i < |pending| ==>
          pending[i] in before && table[pending[i]] == if i < k then target[i] else before[pending[i]])
    && (forall id :: id in before && id !in pending ==> table[id] == before[id])
  }

  lemma ReachedStep(table: Table, before: Table, pending: seq<nat>, target: seq<Row>, k: nat)
    requires Distinct(pending) && k < |pending| && Reached(table, before, pending, target, k)
    ensures table[pending[k]] == before[pending[k]]
    ensures Reached(table[pending[k] := target[k]], before, pending, target, k + 1)
  {
  }

  /** From `t0`, exactly the first `k` of the rows have been counted. */
  ghost predicate Tallied(t: Totals, t0: Totals, rows: seq<Row>, k: nat)
    requires k <= |rows|
  {
    && t.downloaded == t0.downloaded + DoneCount(rows, k)
    && t.failed + DoneCount(rows, k) == t0.failed + k
    && t.bytes == t0.bytes + DoneBytes(rows, k)
  }

  /** Where a pass starting at row `i` ends: a raising hash comes before the report of that row. */
  function PassEndFrom(env: BatchEnv, i: nat): PassEnd
    requires i <= |env.transfers| == |env.reportBreaks|
    decreases |env.transfers| - i
  {
    if i == |env.transfers| then Through
    else if env.HashFails(i) then StoppedByHash(i)
    else if env.reportBreaks[i] then StoppedBySink(i)
    else PassEndFrom(env, i + 1)
  }

  lemma {:induction false} PassEndBounds(env: BatchEnv, i: nat)
    requires i <= |env.transfers| == |env.reportBreaks|
    ensures var end := PassEndFrom(env, i);
            && (end.StoppedByHash? ==> i <= end.at < |env.transfers| && env.HashFails(end.at))
            && (end.StoppedBySink? ==> i <= end.at < |env.transfers|)
    decreases |env.transfers| - i
  {
    if i < |env.transfers| && !env.HashFails(i) && !env.reportBreaks[i] {
      PassEndBounds(env, i + 1);
    }
  }

  function SettledRows(end: PassEnd, n: nat): nat {
    match end
    case Through => n
    case StoppedByHash(at) => at
    case StoppedBySink(at) => at + 1
  }

  function CountedRows(end: PassEnd, n: nat): nat {
    match end
    case Through => n
    case StoppedByHash(at) => at
    case StoppedBySink(at) => at
  }

  datatype RowEnd = RowCounted | RowHashFailed | RowSinkBroke

  function RowEndOf(env: BatchEnv, i: nat): RowEnd
    requires i < |env.transfers| == |env.reportBreaks|
  {
    if env.HashFails(i) then RowHashFailed else if env.reportBreaks[i] then RowSinkBroke else RowCounted
  }

  /** The effect of one loop iteration on the tally. */
  ghost predicate Counted(end: RowEnd, settled: Row, t0: Totals, t: Totals) {
    if !end.RowCounted? then t == t0
    else if Done(settled) then
      t == t0.(downloaded := t0.downloaded + 1, bytes := t0.bytes + settled.transferred.size)
    else t == t0.(failed := t0.failed + 1)
  }

  /** The first `i` rows have been settled and counted, and nothing has stopped the pass. */
  ghost predicate Passed(env: BatchEnv, pending: seq<nat>, target: seq<Row>, table0: Table, table: Table,
      t0: Totals, t: Totals, i: nat)
    requires |env.transfers| == |env.reportBreaks| == |target| == |pending|
  {
    && Reached(table, table0, pending, target, i)
    && PassEndFrom(env, 0) == PassEndFrom(env, i)
    && Tallied(t, t0, target, i)
  }

  ghost predicate Ended(end: PassEnd, env: BatchEnv, pending: seq<nat>, target: seq<Row>, table0: Table, table: Table,
      t0: Totals, t: Totals)
    requires |env.transfers| == |env.reportBreaks| == |target| == |pending|
  {
    && end == PassEndFrom(env, 0)
    && CountedRows(end, |target|) <= SettledRows(end, |target|)
    && Reached(table, table0, pending, target, SettledRows(end, |target|))
    && Tallied(t, t0, target, CountedRows(end, |target|))
  }

  /** One iteration: from Passed(i) to Passed(i + 1), or to the end of the pass. */
  lemma PassStep(env: BatchEnv, pending: seq<nat>, target: seq<Row>, table0: Table, table: Table, table': Table,
      t0: Totals, t: Totals, t': Totals, i: nat, row: RowEnd)
    requires |env.transfers| == |env.reportBreaks| == |target| == |pending| && i < |pending| && Distinct(pending)
    requires Passed(env, pending, target, table0, table, t0, t, i)
    requires row == RowEndOf(env, i) && Counted(row, target[i], t, t')
    requires table' == if row.RowHashFailed? then table else table[pending[i] := target[i]]
    ensures row.RowCounted? ==> Passed(env, pending, target, table0, table', t0, t', i + 1)
    ensures row.RowHashFailed? ==> Ended(StoppedByHash(i), env, pending, target, table0, table', t0, t')
    ensures row.RowSinkBroke? ==> Ended(StoppedBySink(i), env, pending, target, table0, table', t0, t')
  {
    ReachedStep(table, table0, pending, target, i);
  }

  lemma PassRow(env: BatchEnv, pending: seq<nat>, paths: seq<Path>, target: seq<Row>, table0: Table, table: Table, i: nat)
    requires IsTarget(table0, pending, paths, env, target) && i < |pending|
    requires Reached(table, table0, pending, target, i)
    requires forall id :: id in pending ==> table0[id].status == Downloading
    ensures pending[i] in table && table[pending[i]].status == Downloading
    ensures target[i] == Settled(table[pending[i]], paths[i], env.transfers[i], env.gatherCancelled)
  {
    assert pending[i] in pending;
  }

  // ---- Cleanup ----

  function Cleaned(r: Row): Row {
    if r.status == Downloading then AfterInterrupt(r) else r
  }

  function CleanedRows(rows: seq<Row>): (cleaned: seq<Row>)
    ensures |cleaned| == |rows| && forall i :: 0 <= i < |rows| ==> cleaned[i] == Cleaned(rows[i])
  {
    seq(|rows|, i requires 0 <= i < |rows| => Cleaned(rows[i]))
  }

  function LiveCount(rows: seq<Row>, k: nat): nat
    requires k <= |rows|
  {
    if k == 0 then 0 else LiveCount(rows, k - 1) + (if rows[k - 1].status == Downloading then 1 else 0)
  }

  lemma {:induction false} LiveSuffix(rows: seq<Row>, k: nat, n: nat)
    requires n <= |rows|
    requires forall i :: 0 <= i < n ==> (rows[i].status == Downloading <==> k <= i)
    ensures LiveCount(rows, n) == if k <= n then n - k else 0
  {
    if n > 0 {
      LiveSuffix(rows, k, n - 1);
    }
  }

  /** The row at which the cleanup's report is cancelled, or the batch size. */
  function CleanupEnd(rows: seq<Row>, breaks: seq<bool>, i: nat): nat
    requires i <= |rows| == |breaks|
    decreases |rows| - i
  {
    if i == |rows| || (rows[i].status == Downloading && breaks[i]) then i else CleanupEnd(rows, breaks, i + 1)
  }

  lemma {:induction false} CleanupEndFacts(rows: seq<Row>, breaks: seq<bool>, i: nat)
    requires i <= |rows| == |breaks|
    ensures var end := CleanupEnd(rows, breaks, i);
            && i <= end <= |rows|
            && (end < |rows| ==> rows[end].status == Downloading && breaks[end])
            && (forall j :: i <= j < end ==> !(rows[j].status == Downloading && breaks[j]))
    decreases |rows| - i
  {
    if i < |rows| && !(rows[i].status == Downloading && breaks[i]) {
      CleanupEndFacts(rows, breaks, i + 1);
    }
  }

  /** The first `i` rows have been looked at, `count` of them failed as interrupted, and no report was cancelled. */
  ghost predicate Marked(pending: seq<nat>, breaks: seq<bool>, rows: seq<Row>, target: seq<Row>,
      table0: Table, table: Table, i: nat, count: nat)
    requires |breaks| == |rows|
  {
    && i <= |rows| == |pending|
    && Reached(table, table0, pending, target, i)
    && CleanupEnd(rows, breaks, 0) == CleanupEnd(rows, breaks, i)
    && count == LiveCount(rows, i)
  }

  lemma MarkStep(pending: seq<nat>, breaks: seq<bool>, rows: seq<Row>, target: seq<Row>,
      table0: Table, table: Table, table': Table, i: nat, count: nat)
    requires i < |pending| == |rows| == |breaks| && Distinct(pending) && target == CleanedRows(rows)
    requires Marked(pending, breaks, rows, target, table0, table, i, count)
    requires pending[i] in table0 && rows[i] == table0[pending[i]]
    requires table' == table[pending[i] := Cleaned(rows[i])]
    ensures var live := rows[i].status == Downloading;
            if live && breaks[i] then CleanupEnd(rows, breaks, 0) == i && Reached(table', table0, pending, target, i + 1)
            else Marked(pending, breaks, rows, target, table0, table', i + 1, count + if live then 1 else 0)
  {
    ReachedStep(table, table0, pending, target, i);
  }

  function CleanedRowCount(end: nat, n: nat): nat {
    if end < n then end + 1 else n
  }

  // ---- One batch ----

  function BatchEndOf(env: BatchEnv): PassEnd
    requires |env.transfers| == |env.reportBreaks|
  {
    if env.progressRaises then StoppedByHash(0) else PassEndFrom(env, 0)
  }

  /** The first cancelled report of the cleanup from row `k` on, or the batch size. */
  function FirstBreak(breaks: seq<bool>, k: nat): nat
    decreases |breaks| - k
  {
    if k >= |breaks| then |breaks| else if breaks[k] then k else FirstBreak(breaks, k + 1)
  }

  lemma {:induction false} FirstBreakFacts(breaks: seq<bool>, k: nat)
    requires k <= |breaks|
    ensures var at := FirstBreak(breaks, k);
            && k <= at <= |breaks| && (at < |breaks| ==> breaks[at])
            && forall j :: k <= j < at ==> !breaks[j]
    decreases |breaks| - k
  {
    if k < |breaks| && !breaks[k] {
      FirstBreakFacts(breaks, k + 1);
    }
  }

  /** Where the first rows are settled and the others are live, the cleanup stops at its first cancelled report. */
  lemma {:induction false} CleanupEndIsFirstBreak(rows: seq<Row>, breaks: seq<bool>, k: nat, i: nat)
    requires i <= |rows| == |breaks| && k <= |rows|
    requires forall j :: 0 <= j < |rows| ==> (rows[j].status == Downloading <==> k <= j)
    ensures CleanupEnd(rows, breaks, i) == FirstBreak(breaks, if i < k then k else i)
    decreases |rows| - i
  {
    if i < |rows| {
      CleanupEndIsFirstBreak(rows, breaks, k, i + 1);
    }
  }

  /** The rows settled before the batch stopped. */
  function SettledBy(env: BatchEnv): nat
    requires |env.transfers| == |env.reportBreaks|
  {
    SettledRows(BatchEndOf(env), |env.transfers|)
  }

  /** Some report of the cleanup is cancelled before its last row: then the rows after it stay DOWNLOADING. */
  ghost predicate LeavesLive(env: BatchEnv)
    requires |env.transfers| == |env.reportBreaks| == |env.cleanupBreaks|
  {
    exists j :: SettledBy(env) <= j < |env.transfers| - 1 && env.cleanupBreaks[j]
  }

  /** Which rows are settled: those up to the first raising hash, or through the first cancelled report. */
  lemma SettledExactly(env: BatchEnv, i: nat)
    requires i < |env.transfers| == |env.reportBreaks|
    ensures i < SettledBy(env) <==>
      !env.progressRaises && !env.HashFails(i) && forall j :: 0 <= j < i ==> !env.HashFails(j) && !env.reportBreaks[j]
    ensures i < CountedRows(BatchEndOf(env), |env.transfers|) <==>
      !env.progressRaises && forall j :: 0 <= j <= i ==> !env.HashFails(j) && !env.reportBreaks[j]
  {
    if !env.progressRaises {
      SettledFrom(env, 0, i);
    }
  }

  lemma {:induction false} SettledFrom(env: BatchEnv, k: nat, i: nat)
    requires k <= i < |env.transfers| == |env.reportBreaks|
    ensures var end, n := PassEndFrom(env, k), |env.transfers|;
            && (i < SettledRows(end, n) <==> !env.HashFails(i) && forall j :: k <= j < i ==> !env.HashFails(j) && !env.reportBreaks[j])
            && (i < CountedRows(end, n) <==> forall j :: k <= j <= i ==> !env.HashFails(j) && !env.reportBreaks[j])
    decreases i - k
  {
    PassEndBounds(env, k);
    PassEndBounds(env, k + 1);
    if k < i {
      SettledFrom(env, k + 1, i);
    } else {
      assert (forall j :: k <= j <= i ==> !env.HashFails(j) && !env.reportBreaks[j]) <==> !env.HashFails(k) && !env.reportBreaks[k];
    }
  }

  /** Whether some cancellation reaches a report of this batch: it depends on the environment only. */
  ghost predicate SinkBreaks(env: BatchEnv)
    requires |env.transfers| == |env.reportBreaks| == |env.cleanupBreaks|
  {
    if env.progressRaises then exists j :: 0 <= j < |env.transfers| && env.cleanupBreaks[j]
    else
      match PassEndFrom(env, 0)
      case Through => false
      case StoppedByHash(at) => exists j :: at <= j < |env.transfers| && env.cleanupBreaks[j]
      case StoppedBySink(_) => true
  }

  ghost predicate NothingRaises(env: BatchEnv)
    requires |env.transfers| == |env.reportBreaks|
  {
    && !env.progressRaises && !env.gatherCancelled && !env.saveRaises && !env.lateProgressRaises
    && PassEndFrom(env, 0).Through?
  }

  /** A report of the pass is cancelled, or one of the cleanup of the rows that the pass left. */
  lemma SinkBreaksMeans(env: BatchEnv)
    requires |env.transfers| == |env.reportBreaks| == |env.cleanupBreaks|
    ensures var n := |env.transfers|;
            SinkBreaks(env) <==> || CountedRows(BatchEndOf(env), n) < SettledBy(env)
                                 || exists j :: SettledBy(env) <= j < n && env.cleanupBreaks[j]
  {
  }

  lemma SoundRow(r: Row, path: Path, t: Transfer, gatherCancelled: bool)
    requires r.status == Downloading
    ensures Sound(r) && Sound(AfterInterrupt(r))
    ensures Sound(Settled(r, path, t, gatherCancelled)) && Settled(r, path, t, gatherCancelled).status != Downloading
  {
  }

  /** The rows of a batch, in batch order. */
  function RowsOf(table: Table, pending: seq<nat>): (rows: seq<Row>)
    requires forall id :: id in pending ==> id in table
    ensures |rows| == |pending| && forall i :: 0 <= i < |pending| ==> rows[i] == table[pending[i]]
  {
    seq(|pending|, i requires 0 <= i < |pending| => table[pending[i]])
  }

  /** How a batch's final rows and the tally account for each other, whatever the batch met. */
  ghost predicate Accounted(env: BatchEnv, rows: seq<Row>, t0: Totals, t: Totals)
    requires |env.transfers| == |env.reportBreaks| == |env.cleanupBreaks|
  {
    && CountedOnce(env, rows, t0, t)
    // A row is left DOWNLOADING exactly when the cleanup is cancelled before its last row.
    && ((exists i :: 0 <= i < |rows| && rows[i].status == Downloading) <==> LeavesLive(env))
    && ExactTally(env, rows, t0, t)
  }

  ghost predicate CountedOnce(env: BatchEnv, rows: seq<Row>, t0: Totals, t: Totals)
    requires |env.transfers| == |env.reportBreaks| == |env.cleanupBreaks|
  {
    // Every row is sound wherever the batch stopped;
    && (forall i :: 0 <= i < |rows| ==> Sound(rows[i]))
    // each row is counted at most once, and all are counted exactly when no report was cancelled;
    && t.downloaded + t.failed <= t0.downloaded + t0.failed + |rows|
    && (t.downloaded + t.failed == t0.downloaded + t0.failed + |rows| <==> !SinkBreaks(env))
    // and then no row is left DOWNLOADING and the tally says how the rows ended.
    && (!SinkBreaks(env) ==>
          && (forall i :: 0 <= i < |rows| ==> rows[i].status != Downloading)
          && Tallied(t, t0, rows, |rows|))
  }

  /** The rows whose report was not cancelled are counted, and the interrupted ones if no report of the cleanup was. */
  ghost predicate ExactTally(env: BatchEnv, rows: seq<Row>, t0: Totals, t: Totals)
    requires |env.transfers| == |env.reportBreaks| == |env.cleanupBreaks|
  {
    var n, c := |env.transfers|, CountedRows(BatchEndOf(env), |env.transfers|);
    && c <= |rows| == n && SettledBy(env) <= n
    && t.downloaded == t0.downloaded + DoneCount(rows, c)
    && t.bytes == t0.bytes + DoneBytes(rows, c)
    && t.failed + DoneCount(rows, c)
       == t0.failed + c + if FirstBreak(env.cleanupBreaks, SettledBy(env)) == n then n - SettledBy(env) else 0
  }

  /** What a batch's rows come to once those from `k` on have been cleaned up. */
  lemma AfterCleanup(before: seq<Row>, target: seq<Row>, middle: seq<Row>, final: seq<Row>, breaks: seq<bool>, k: nat)
    requires |before| == |target| == |middle| == |final| == |breaks| && k <= |before|
    requires forall i :: 0 <= i < |before| ==> before[i].status == Downloading && Sound(before[i])
    requires forall i :: 0 <= i < |before| ==> target[i].status != Downloading && Sound(target[i])
    requires forall i :: 0 <= i < |before| ==> middle[i] == if i < k then target[i] else before[i]
    requires var cleaned := CleanedRowCount(CleanupEnd(middle, breaks, 0), |before|);
             forall i :: 0 <= i < |before| ==> final[i] == if i < cleaned then Cleaned(middle[i]) else middle[i]
    ensures forall i :: 0 <= i < |final| ==> Sound(final[i])
    ensures DoneCount(final, |final|) == DoneCount(target, k) <= k && DoneBytes(final, |final|) == DoneBytes(target, k)
    ensures LiveCount(middle, |middle|) == |before| - k
    ensures CleanupEnd(middle, breaks, 0) == |before| <==> forall j :: k <= j < |before| ==> !breaks[j]
    ensures CleanupEnd(middle, breaks, 0) == |before| ==>
      forall i :: 0 <= i < |final| ==> final[i].status != Downloading
  {
    hide CleanupEnd;
    CleanupEndFacts(middle, breaks, 0);
    LiveSuffix(middle, k, |middle|);
    NoneDone(final, k, |final|);
    SameCounts(final, target, k);
    CountBound(target, k);
  }

  /** The rows after the cleanup, by the first cancelled report. */
  lemma CleanedFinal(before: seq<Row>, target: seq<Row>, middle: seq<Row>, final: seq<Row>, breaks: seq<bool>, k: nat)
    requires |before| == |target| == |middle| == |final| == |breaks| && k <= |before|
    requires forall i :: 0 <= i < |before| ==> before[i].status == Downloading && target[i].status != Downloading
    requires forall i :: 0 <= i < |before| ==> middle[i] == if i < k then target[i] else before[i]
    requires var cleaned := CleanedRowCount(CleanupEnd(middle, breaks, 0), |before|);
             forall i :: 0 <= i < |before| ==> final[i] == if i < cleaned then Cleaned(middle[i]) else middle[i]
    ensures CleanupEnd(middle, breaks, 0) == FirstBreak(breaks, k)
    ensures LeftBy(before, target, final, breaks, k)
  {
    CleanupEndIsFirstBreak(middle, breaks, k, 0);
    FirstBreakFacts(breaks, k);
  }

  ghost predicate LeftBy(before: seq<Row>, target: seq<Row>, final: seq<Row>, breaks: seq<bool>, k: nat)
    requires |before| == |target| == |final|
  {
    forall i :: 0 <= i < |before| ==>
      final[i] == if i < k then target[i] else if i <= FirstBreak(breaks, k) then AfterInterrupt(before[i]) else before[i]
  }

  lemma LiveAfter(before: seq<Row>, target: seq<Row>, final: seq<Row>, breaks: seq<bool>, k: nat)
    requires |before| == |target| == |final| == |breaks| && k <= |before|
    requires forall i :: 0 <= i < |before| ==> before[i].status == Downloading && target[i].status != Downloading
    requires LeftBy(before, target, final, breaks, k)
    ensures (exists i :: 0 <= i < |final| && final[i].status == Downloading) <==> exists j :: k <= j < |final| - 1 && breaks[j]
  {
    FirstBreakFacts(breaks, k);
    var at := FirstBreak(breaks, k);
    if at < |final| - 1 {
      assert final[at + 1].status == Downloading && breaks[at];
    }
  }

  /** The state the outer `try` leaves: a part of the batch is settled, and that part is counted. */
  ghost predicate Tried(env: BatchEnv, pending: seq<nat>, target: seq<Row>, table0: Table, table: Table, t0: Totals, t: Totals)
    requires |env.transfers| == |env.reportBreaks| == |target| == |pending|
  {
    if env.progressRaises then Reached(table, table0, pending, target, 0) && t == t0
    else Ended(PassEndFrom(env, 0), env, pending, target, table0, table, t0, t)
  }

  /** What the outer cleanup does. */
  ghost predicate CleanedUp(env: BatchEnv, pending: seq<nat>, table0: Table, table: Table, t0: Totals, t: Totals)
    requires |env.cleanupBreaks| == |pending| && forall id :: id in pending ==> id in table0
  {
    var rows := RowsOf(table0, pending);
    var end := CleanupEnd(rows, env.cleanupBreaks, 0);
    && Reached(table, table0, pending, CleanedRows(rows), CleanedRowCount(end, |pending|))
    && t == t0.(failed := t0.failed + if end == |pending| then LiveCount(rows, |rows|) else 0)
  }

  lemma CleanupKeeps(env: BatchEnv, pending: seq<nat>, target: seq<Row>,
      table0: Table, table1: Table, table: Table, t0: Totals, t1: Totals, t: Totals)
    requires env.Valid(|pending|) && |target| == |pending|
    requires forall i :: 0 <= i < |target| ==> target[i].status != Downloading
    requires Tried(env, pending, target, table0, table1, t0, t1)
    requires (forall id :: id in pending ==> id in table1) && CleanedUp(env, pending, table1, table, t1, t)
    ensures table.Keys == table0.Keys
    ensures forall id :: id in table && id !in pending ==> table[id] == table0[id]
    ensures BatchEndOf(env).Through? ==> table == table1
  {
    if BatchEndOf(env).Through? {
      forall id | id in table ensures table[id] == table1[id] {
        if id in pending {
          var i :| 0 <= i < |pending| && pending[i] == id;
          assert RowsOf(table1, pending)[i] == target[i];
        }
      }
    }
  }

  /** The rows of a batch after the pass, and after the cleanup, by position. */
  lemma CleanupRows(env: BatchEnv, pending: seq<nat>, target: seq<Row>,
      table0: Table, table1: Table, table: Table, t0: Totals, t1: Totals, t: Totals)
    requires env.Valid(|pending|) && |target| == |pending|
    requires Tried(env, pending, target, table0, table1, t0, t1)
    requires (forall id :: id in pending ==> id in table1) && CleanedUp(env, pending, table1, table, t1, t)
    ensures forall id :: id in pending ==> id in table0 && id in table
    ensures var middle, k := RowsOf(table1, pending), SettledRows(BatchEndOf(env), |pending|);
            forall i :: 0 <= i < |pending| ==> middle[i] == if i < k then target[i] else RowsOf(table0, pending)[i]
    ensures var middle := RowsOf(table1, pending);
            var cleaned := CleanedRowCount(CleanupEnd(middle, env.cleanupBreaks, 0), |pending|);
            forall i :: 0 <= i < |pending| ==>
              RowsOf(table, pending)[i] == if i < cleaned then Cleaned(middle[i]) else middle[i]
  {
  }

  /** Where a batch leaves row `i`: settled before the stop, interrupted up to the first cancelled report, as claimed after it. */
  function EndedRow(env: BatchEnv, i: nat, r: Row, path: Path): Row
    requires i < |env.transfers| == |env.reportBreaks| == |env.cleanupBreaks|
  {
    if i < SettledBy(env) then Settled(r, path, env.transfers[i], env.gatherCancelled)
    else if i <= FirstBreak(env.cleanupBreaks, SettledBy(env)) then AfterInterrupt(r)
    else r
  }

  /** The cleanup reached row `i`, which the pass had not settled. */
  predicate Swept(env: BatchEnv, i: nat)
    requires |env.transfers| == |env.reportBreaks| == |env.cleanupBreaks|
  {
    SettledBy(env) <= i <= FirstBreak(env.cleanupBreaks, SettledBy(env))
  }

  /** The transfer of row `i` was cut short: itself cancelled, or not finished when the gather was cancelled. */
  predicate CutShort(env: BatchEnv, i: nat)
    requires i < |env.transfers|
  {
    env.transfers[i].InFlight? || (env.transfers[i].Failed? && (env.transfers[i].cancelled || env.gatherCancelled))
  }

  /** What a failed row shows; its transfer columns are as they were, but for the hashes of a mismatch. */
  ghost predicate FailedRow(env: BatchEnv, i: nat, before: Row, r: Row)
    requires i < |env.transfers| == |env.reportBreaks| == |env.cleanupBreaks|
  {
    match r.problem
    case Some(Interrupted) =>
      && r.transferred == before.transferred
      && (Swept(env, i) || CutShort(env, i))
    case Some(TransferFailed(text)) =>
      && r.transferred == before.transferred
      && !Swept(env, i) && !CutShort(env, i) && env.transfers[i].Failed? && text == env.transfers[i].text
    case Some(CrcMismatch(declared, computed)) =>
      && !Swept(env, i) && env.transfers[i].Finished? && env.transfers[i].hash.Hashed?
      && before.declaredCrc == Some(declared) && computed == env.transfers[i].hash.crc && declared != computed
      && r.transferred == Transferred(None, before.transferred.size, Some(env.transfers[i].hash.sha256), Some(computed), Some(declared))
    case _ => false
  }

  /** What a transferred row shows. */
  ghost predicate TransferredRow(env: BatchEnv, i: nat, path: Path, before: Row, r: Row)
    requires i < |env.transfers| == |env.reportBreaks| == |env.cleanupBreaks|
  {
    && !Swept(env, i) && env.transfers[i].Finished? && env.transfers[i].hash.Hashed?
    && (before.declaredCrc.Some? ==> before.declaredCrc.value == env.transfers[i].hash.crc)
    && r.problem.None? && (r.status == Ignored <==> before.ignoredReason.Some?)
    && r.transferred == Transferred(Some(path), env.transfers[i].size, Some(env.transfers[i].hash.sha256),
                                    Some(env.transfers[i].hash.crc), before.declaredCrc)
  }

  /** What row `i` reads after the batch. The other columns never change. */
  ghost predicate RowReads(env: BatchEnv, i: nat, path: Path, before: Row, r: Row)
    requires i < |env.transfers| == |env.reportBreaks| == |env.cleanupBreaks|
  {
    && (r.remotePath, r.declaredCrc, r.ignoredReason, r.parsed) == (before.remotePath, before.declaredCrc, before.ignoredReason, before.parsed)
    && match r.status
       case Downloading => r == before && SettledBy(env) <= i && !Swept(env, i)
       case Error => FailedRow(env, i, before, r)
       case Downloaded => TransferredRow(env, i, path, before, r)
       case Ignored => TransferredRow(env, i, path, before, r)
       case _ => false
  }

  lemma EndedRowReads(env: BatchEnv, i: nat, path: Path, before: Row)
    requires i < |env.transfers| == |env.reportBreaks| == |env.cleanupBreaks| && before.status == Downloading
    ensures RowReads(env, i, path, before, EndedRow(env, i, before, path))
  {
    SettledExactly(env, i);
  }

  lemma AllRead(env: BatchEnv, pending: seq<nat>, paths: seq<Path>, table0: Table, table: Table)
    requires |env.transfers| == |env.reportBreaks| == |env.cleanupBreaks| == |paths| == |pending|
    requires RowsEnded(env, pending, paths, table0, table)
    requires forall i :: 0 <= i < |pending| ==> table0[pending[i]].status == Downloading
    ensures forall i :: 0 <= i < |pending| ==> RowReads(env, i, paths[i], table0[pending[i]], table[pending[i]])
  {
    hide RowReads, EndedRow;
    forall i | 0 <= i < |pending| ensures RowReads(env, i, paths[i], table0[pending[i]], table[pending[i]]) {
      EndedRowReads(env, i, paths[i], table0[pending[i]]);
    }
  }

  /** Whether the database holds the batch's rows in the end: some flush and commit of all of them works. */
  predicate Saves(env: BatchEnv)
    requires |env.transfers| == |env.reportBreaks| == |env.cleanupBreaks|
  {
    var through := BatchEndOf(env).Through?;
    || (through && env.gatherCancelled && env.rescue.Returns?)
    || (through && !env.gatherCancelled && !env.saveRaises)
    || (Cleans(env) && FirstBreak(env.cleanupBreaks, SettledBy(env)) == |env.transfers| && env.cleanup.Returns?)
  }

  /** The outer cleanup runs. */
  predicate Cleans(env: BatchEnv)
    requires |env.transfers| == |env.reportBreaks|
  {
    if !BatchEndOf(env).Through? then true
    else if env.gatherCancelled then env.rescue.RaisesCancel?
    else env.saveRaises || env.lateProgressRaises
  }

  ghost predicate RowsEnded(env: BatchEnv, pending: seq<nat>, paths: seq<Path>, table0: Table, table: Table)
    requires |env.transfers| == |env.reportBreaks| == |env.cleanupBreaks| == |paths| == |pending|
  {
    forall i :: 0 <= i < |pending| ==> (
      && pending[i] in table0 && pending[i] in table
      && table[pending[i]] == EndedRow(env, i, table0[pending[i]], paths[i]))
  }

  lemma CleanupEnds(env: BatchEnv, pending: seq<nat>, paths: seq<Path>, target: seq<Row>,
      table0: Table, table1: Table, table: Table, t0: Totals, t1: Totals, t: Totals)
    requires IsTarget(table0, pending, paths, env, target) && env.Valid(|pending|)
    requires forall id :: id in pending ==> table0[id].status == Downloading
    requires Tried(env, pending, target, table0, table1, t0, t1)
    requires (forall id :: id in pending ==> id in table1) && CleanedUp(env, pending, table1, table, t1, t)
    ensures RowsEnded(env, pending, paths, table0, table)
  {
    hide Settled, Sound, Tallied, LiveCount, PassEndFrom, CleanupEnd, FirstBreak;
    BatchRows(table0, pending, paths, env, target);
    CleanupRows(env, pending, target, table0, table1, table, t0, t1, t);
    PassEndBounds(env, 0);
    CleanedFinal(RowsOf(table0, pending), target, RowsOf(table1, pending), RowsOf(table, pending), env.cleanupBreaks, SettledBy(env));
    forall i | 0 <= i < |pending|
      ensures pending[i] in table0 && pending[i] in table
      ensures table[pending[i]] == EndedRow(env, i, table0[pending[i]], paths[i])
    {
      assert pending[i] in pending;
      assert RowsOf(table, pending)[i] == table[pending[i]] && RowsOf(table0, pending)[i] == table0[pending[i]];
    }
  }

  /** The cleanup stops at the first cancelled report. */
  lemma CleanupStops(env: BatchEnv, pending: seq<nat>, paths: seq<Path>, target: seq<Row>,
      table0: Table, table1: Table, table: Table, t0: Totals, t1: Totals, t: Totals)
    requires IsTarget(table0, pending, paths, env, target) && env.Valid(|pending|)
    requires forall id :: id in pending ==> table0[id].status == Downloading
    requires Tried(env, pending, target, table0, table1, t0, t1)
    requires (forall id :: id in pending ==> id in table1) && CleanedUp(env, pending, table1, table, t1, t)
    ensures CleanupEnd(RowsOf(table1, pending), env.cleanupBreaks, 0) == FirstBreak(env.cleanupBreaks, SettledBy(env))
    ensures BatchEndOf(env).Through? ==> table == table1 && FirstBreak(env.cleanupBreaks, SettledBy(env)) == |pending|
  {
    hide Settled, Sound, Tallied, LiveCount, PassEndFrom, CleanupEnd;
    BatchRows(table0, pending, paths, env, target);
    CleanupRows(env, pending, target, table0, table1, table, t0, t1, t);
    CleanupKeeps(env, pending, target, table0, table1, table, t0, t1, t);
    PassEndBounds(env, 0);
    CleanedFinal(RowsOf(table0, pending), target, RowsOf(table1, pending), RowsOf(table, pending), env.cleanupBreaks, SettledBy(env));
  }

  lemma ThroughEnds(env: BatchEnv, pending: seq<nat>, paths: seq<Path>, target: seq<Row>,
      table0: Table, table: Table, t0: Totals, t: Totals)
    requires IsTarget(table0, pending, paths, env, target) && env.Valid(|pending|)
    requires Tried(env, pending, target, table0, table, t0, t) && BatchEndOf(env).Through?
    ensures RowsEnded(env, pending, paths, table0, table)
  {
    forall i | 0 <= i < |pending| ensures pending[i] in table && table[pending[i]] == target[i] {
      assert pending[i] in pending;
    }
  }

  lemma TriedTally(env: BatchEnv, pending: seq<nat>, target: seq<Row>, table0: Table, table1: Table, t0: Totals, t1: Totals)
    requires env.Valid(|pending|) && |target| == |pending| && Tried(env, pending, target, table0, table1, t0, t1)
    ensures var end := BatchEndOf(env);
            CountedRows(end, |pending|) <= SettledRows(end, |pending|) <= |pending| && Tallied(t1, t0, target, CountedRows(end, |pending|))
  {
    PassEndBounds(env, 0);
  }

  lemma CleanedTally(env: BatchEnv, pending: seq<nat>, table1: Table, table: Table, t1: Totals, t: Totals)
    requires env.Valid(|pending|) && (forall id :: id in pending ==> id in table1) && CleanedUp(env, pending, table1, table, t1, t)
    ensures var middle := RowsOf(table1, pending);
            t == t1.(failed := t1.failed + if CleanupEnd(middle, env.cleanupBreaks, 0) == |pending| then LiveCount(middle, |middle|) else 0)
  {
  }

  /** The accounting of a batch whose pass stopped early, or never began. */
  lemma CleanupAccounts(env: BatchEnv, pending: seq<nat>, paths: seq<Path>, target: seq<Row>,
      table0: Table, table1: Table, table: Table, t0: Totals, t1: Totals, t: Totals)
    requires IsTarget(table0, pending, paths, env, target) && env.Valid(|pending|)
    requires forall id :: id in pending ==> table0[id].status == Downloading
    requires Tried(env, pending, target, table0, table1, t0, t1)
    requires (forall id :: id in pending ==> id in table1) && CleanedUp(env, pending, table1, table, t1, t)
    ensures table.Keys == table0.Keys
    ensures forall id :: id in table && id !in pending ==> table[id] == table0[id]
    ensures (forall id :: id in pending ==> id in table) && Accounted(env, RowsOf(table, pending), t0, t)
    ensures BatchEndOf(env).Through? ==> table == table1
  {
    hide Sound, Accounted, LiveCount, BatchEndOf, CleanupEnd, Tallied, Tried, CleanedUp, Cleaned;
    BatchRows(table0, pending, paths, env, target);
    TriedTally(env, pending, target, table0, table1, t0, t1);
    CleanedTally(env, pending, table1, table, t1, t);
    CleanupKeeps(env, pending, target, table0, table1, table, t0, t1, t);
    CleanupRows(env, pending, target, table0, table1, table, t0, t1, t);
    CleanupCounts(env, RowsOf(table0, pending), target, RowsOf(table1, pending), RowsOf(table, pending), t0, t1, t);
  }

  lemma CleanupCountsOnce(env: BatchEnv, before: seq<Row>, target: seq<Row>, middle: seq<Row>, final: seq<Row>,
      t0: Totals, t1: Totals, t: Totals)
    requires |before| == |target| == |middle| == |final| && env.Valid(|before|)
    requires forall i :: 0 <= i < |before| ==> before[i].status == Downloading && Sound(before[i])
    requires forall i :: 0 <= i < |before| ==> target[i].status != Downloading && Sound(target[i])
    requires var end := BatchEndOf(env);
             && CountedRows(end, |before|) <= SettledRows(end, |before|) <= |before|
             && Tallied(t1, t0, target, CountedRows(end, |before|))
             && forall i :: 0 <= i < |before| ==>
                  middle[i] == if i < SettledRows(end, |before|) then target[i] else before[i]
    requires var stop := CleanupEnd(middle, env.cleanupBreaks, 0);
             && t == t1.(failed := t1.failed + if stop == |before| then LiveCount(middle, |middle|) else 0)
             && forall i :: 0 <= i < |before| ==>
                  final[i] == if i < CleanedRowCount(stop, |before|) then Cleaned(middle[i]) else middle[i]
    ensures CountedOnce(env, final, t0, t)
  {
    hide Sound, LiveCount, CleanupEnd, SinkBreaks, BatchEndOf, DoneCount, DoneBytes;
    SinkBreaksMeans(env);
    AfterCleanup(before, target, middle, final, env.cleanupBreaks, SettledRows(BatchEndOf(env), |before|));
  }

  lemma CleanupTallies(env: BatchEnv, before: seq<Row>, target: seq<Row>, final: seq<Row>, t0: Totals, t1: Totals, t: Totals)
    requires |before| == |target| == |final| && env.Valid(|before|)
    requires LeftBy(before, target, final, env.cleanupBreaks, SettledBy(env))
    requires CountedRows(BatchEndOf(env), |before|) <= SettledBy(env) <= |before|
    requires Tallied(t1, t0, target, CountedRows(BatchEndOf(env), |before|))
    requires t == t1.(failed := t1.failed + if FirstBreak(env.cleanupBreaks, SettledBy(env)) == |before| then |before| - SettledBy(env) else 0)
    ensures ExactTally(env, final, t0, t)
  {
    SameCounts(final, target, CountedRows(BatchEndOf(env), |before|));
  }

  lemma CleanupCounts(env: BatchEnv, before: seq<Row>, target: seq<Row>, middle: seq<Row>, final: seq<Row>,
      t0: Totals, t1: Totals, t: Totals)
    requires |before| == |target| == |middle| == |final| && env.Valid(|before|)
    requires forall i :: 0 <= i < |before| ==> before[i].status == Downloading && Sound(before[i])
    requires forall i :: 0 <= i < |before| ==> target[i].status != Downloading && Sound(target[i])
    requires var end := BatchEndOf(env);
             && CountedRows(end, |before|) <= SettledRows(end, |before|) <= |before|
             && Tallied(t1, t0, target, CountedRows(end, |before|))
             && forall i :: 0 <= i < |before| ==>
                  middle[i] == if i < SettledRows(end, |before|) then target[i] else before[i]
    requires var stop := CleanupEnd(middle, env.cleanupBreaks, 0);
             && t == t1.(failed := t1.failed + if stop == |before| then LiveCount(middle, |middle|) else 0)
             && forall i :: 0 <= i < |before| ==>
                  final[i] == if i < CleanedRowCount(stop, |before|) then Cleaned(middle[i]) else middle[i]
    ensures Accounted(env, final, t0, t)
  {
    hide Sound, Tallied, CountedOnce, ExactTally, LeftBy, FirstBreak, CleanupEnd, PassEndFrom, LiveCount;
    PassEndBounds(env, 0);
    CleanupCountsOnce(env, before, target, middle, final, t0, t1, t);
    CleanedFinal(before, target, middle, final, env.cleanupBreaks, SettledBy(env));
    LiveAfter(before, target, final, env.cleanupBreaks, SettledBy(env));
    LiveSuffix(middle, SettledBy(env), |middle|);
    CleanupTallies(env, before, target, final, t0, t1, t);
  }

  lemma ThroughAccounts(env: BatchEnv, pending: seq<nat>, paths: seq<Path>, target: seq<Row>,
      table0: Table, table: Table, t0: Totals, t: Totals)
    requires IsTarget(table0, pending, paths, env, target) && env.Valid(|pending|)
    requires forall id :: id in pending ==> table0[id].status == Downloading
    requires Tried(env, pending, target, table0, table, t0, t) && BatchEndOf(env).Through?
    ensures forall id :: id in table && id !in pending ==> table[id] == table0[id]
    ensures (forall id :: id in pending ==> id in table) && Accounted(env, RowsOf(table, pending), t0, t)
  {
    BatchRows(table0, pending, paths, env, target);
    forall id | id in pending ensures id in table {
    }
    assert RowsOf(table, pending) == target;
  }

  lemma BatchRows(table: Table, pending: seq<nat>, paths: seq<Path>, env: BatchEnv, target: seq<Row>)
    requires IsTarget(table, pending, paths, env, target)
    requires forall id :: id in pending ==> table[id].status == Downloading
    ensures forall i :: 0 <= i < |pending| ==> table[pending[i]].status == Downloading && Sound(table[pending[i]])
    ensures forall i :: 0 <= i < |pending| ==> target[i].status != Downloading && Sound(target[i])
  {
    forall i | 0 <= i < |pending|
      ensures table[pending[i]].status == Downloading && Sound(table[pending[i]])
      ensures target[i].status != Downloading && Sound(target[i])
    {
      assert pending[i] in pending;
      SoundRow(table[pending[i]], paths[i], env.transfers[i], env.gatherCancelled);
    }
  }

  class DownloadOrchestrator {
    /** The rows as the session holds them, and as the database does. */
    var table: Table
    var committed: Table
    const stagingPath: Path
    const remotePaths: seq<string>

    constructor (table: Table, stagingPath: Path, remotePaths: seq<string>)
      ensures this.table == this.committed == table
      ensures this.stagingPath == stagingPath && this.remotePaths == remotePaths
    {
      this.table, this.committed := table, table;
      this.stagingPath, this.remotePaths := stagingPath, remotePaths;
    }

    method VerifyIntegrity(id: nat, sha256: string, crc: Crc) returns (mismatch: Option<Problem>)
      requires id in table
      modifies this`table
      ensures var r := old(table)[id];
              table == old(table)[id := r.(transferred := r.transferred.(
                sha256 := Some(sha256), crcComputed := Some(crc), crcExtracted := r.declaredCrc))]
      ensures mismatch == Mismatch(old(table)[id].declaredCrc, crc)
    {
      var r := table[id];
      var hashes := r.transferred.(sha256 := Some(sha256), crcComputed := Some(crc), crcExtracted := r.declaredCrc);
      table := table[id := r.(transferred := hashes)];
      mismatch := if hashes.crcExtracted.Some? && hashes.crcExtracted.value != crc
        then Some(CrcMismatch(hashes.crcExtracted.value, crc)) else None;
    }

    /** None when hashing raised; otherwise whether the transfer was recorded as downloaded. */
    method RecordTransfer(id: nat, path: Path, size: nat, hash: Hash) returns (ok: Option<bool>)
      requires id in table
      modifies this`table
      ensures hash.HashRaises? ==> ok.None? && table == old(table)
      ensures hash.Hashed? ==>
        var settled := AfterTransfer(old(table)[id], path, size, hash.sha256, hash.crc);
        table == old(table)[id := settled] && ok == Some(Done(settled))
    {
      if hash.HashRaises? {
        return None;
      }
      var mismatch := VerifyIntegrity(id, hash.sha256, hash.crc);
      var r := table[id];
      if mismatch.Some? {
        table := table[id := r.(status := Error, problem := mismatch, transferred := r.transferred.(localPath := None))];
        return Some(false);
      }
      table := table[id := r.(status := PostDownloadStatus(r.ignoredReason), problem := None,
                              transferred := r.transferred.(localPath := Some(path), size := size))];
      return Some(true);
    }

    method RecordFailure(id: nat, cancelled: bool, text: string)
      requires id in table
      modifies this`table
      ensures table == old(table)[id := AfterFailure(old(table)[id], cancelled, text)]
      // A cancelled transfer reads as interrupted, any other by its own text; the transfer columns stay.
      ensures (table[id].status, table[id].transferred) == (FileStatus.Error, old(table)[id].transferred)
      ensures table[id].problem == if cancelled then Some(Interrupted) else Some(TransferFailed(text))
    {
      table := table[id := table[id].(status := Error, problem := Some(if cancelled then Interrupted else TransferFailed(text)))];
    }

    method InterruptFile(id: nat)
      requires id in table
      modifies this`table
      ensures table == old(table)[id := AfterInterrupt(old(table)[id])]
    {
      table := table[id := table[id].(status := Error, problem := Some(Interrupted))];
    }

    method ApplyResult(id: nat, path: Path, env: BatchEnv, i: nat, tally: Tally) returns (end: RowEnd)
      requires id in table && table[id].status == Downloading
      requires i < |env.transfers| == |env.reportBreaks| && !env.transfers[i].InFlight?
      modifies this`table, tally
      ensures end == RowEndOf(env, i)
      ensures var settled := Settled(old(table)[id], path, env.transfers[i], false);
              && (end.RowHashFailed? ==> table == old(table))
              && (!end.RowHashFailed? ==> table == old(table)[id := settled])
              && Counted(end, settled, old(tally.Value()), tally.Value())
    {
      end := RowEndOf(env, i);
      match env.transfers[i] {
        case Finished(size, hash) =>
          var ok := RecordTransfer(id, path, size, hash);
          if ok.Some? && !env.reportBreaks[i] {
            tally.Record(ok.value, size);
          }
        case Failed(cancelled, text) =>
          RecordFailure(id, cancelled, text);
          if !env.reportBreaks[i] {
            tally.failed := tally.failed + 1;
          }
        case InFlight =>
          assert false;
      }
    }

    method CreditResult(id: nat, path: Path, env: BatchEnv, i: nat, tally: Tally) returns (end: RowEnd)
      requires id in table && table[id].status == Downloading
      requires i < |env.transfers| == |env.reportBreaks|
      modifies this`table, tally
      ensures end == RowEndOf(env, i)
      ensures var settled := Settled(old(table)[id], path, env.transfers[i], true);
              && (end.RowHashFailed? ==> table == old(table))
              && (!end.RowHashFailed? ==> table == old(table)[id := settled])
              && Counted(end, settled, old(tally.Value()), tally.Value())
    {
      end := RowEndOf(env, i);
      if env.transfers[i].Finished? {
        var ok := RecordTransfer(id, path, env.transfers[i].size, env.transfers[i].hash);
        if ok.Some? && !env.reportBreaks[i] {
          tally.Record(ok.value, env.transfers[i].size);
        }
      } else if table[id].status == Downloading {
        InterruptFile(id);
        if !env.reportBreaks[i] {
          tally.failed := tally.failed + 1;
        }
      }
    }

    method ApplyResults(pending: seq<nat>, paths: seq<Path>, env: BatchEnv, tally: Tally, ghost target: seq<Row>)
      returns (end: PassEnd)
      requires Distinct(pending) && IsTarget(table, pending, paths, env, target)
      requires env.Valid(|pending|) && !env.gatherCancelled
      requires forall id :: id in pending ==> table[id].status == Downloading
      modifies this`table, tally
      ensures Ended(end, env, pending, target, old(table), table, old(tally.Value()), tally.Value())
    {
      end := Through;
      for i := 0 to |pending|
        invariant end == Through
        invariant Passed(env, pending, target, old(table), table, old(tally.Value()), tally.Value(), i)
      {
        ghost var table1, t1 := table, tally.Value();
        PassRow(env, pending, paths, target, old(table), table, i);
        var row := ApplyResult(pending[i], paths[i], env, i, tally);
        PassStep(env, pending, target, old(table), table1, table, old(tally.Value()), t1, tally.Value(), i, row);
        if !row.RowCounted? {
          end := if row.RowHashFailed? then StoppedByHash(i) else StoppedBySink(i);
          break;
        }
      }
    }

    method CreditFinishedTransfers(pending: seq<nat>, paths: seq<Path>, env: BatchEnv, tally: Tally, ghost target: seq<Row>)
      returns (end: PassEnd)
      requires Distinct(pending) && IsTarget(table, pending, paths, env, target)
      requires env.Valid(|pending|) && env.gatherCancelled
      requires forall id :: id in pending ==> table[id].status == Downloading
      modifies this`table, tally
      ensures Ended(end, env, pending, target, old(table), table, old(tally.Value()), tally.Value())
    {
      end := Through;
      for i := 0 to |pending|
        invariant end == Through
        invariant Passed(env, pending, target, old(table), table, old(tally.Value()), tally.Value(), i)
      {
        ghost var table1, t1 := table, tally.Value();
        PassRow(env, pending, paths, target, old(table), table, i);
        var row := CreditResult(pending[i], paths[i], env, i, tally);
        PassStep(env, pending, target, old(table), table1, table, old(tally.Value()), t1, tally.Value(), i, row);
        if !row.RowCounted? {
          end := if row.RowHashFailed? then StoppedByHash(i) else StoppedBySink(i);
          break;
        }
      }
    }

    method InterruptIfLive(id: nat) returns (live: bool)
      requires id in table
      modifies this`table
      ensures live <==> old(table)[id].status == Downloading
      ensures table == old(table)[id := Cleaned(old(table)[id])]
    {
      live := table[id].status == Downloading;
      if live {
        InterruptFile(id);
      }
    }

    /** None when the sink was cancelled, so that no count is returned. */
    method MarkInterrupted(pending: seq<nat>, breaks: seq<bool>) returns (interrupted: Option<nat>)
      requires Distinct(pending) && |breaks| == |pending|
      requires forall id :: id in pending ==> id in table
      modifies this`table
      ensures var rows := RowsOf(old(table), pending);
              var end := CleanupEnd(rows, breaks, 0);
              && (interrupted.Some? <==> end == |pending|)
              && (interrupted.Some? ==> interrupted.value == LiveCount(rows, |rows|))
              && Reached(table, old(table), pending, CleanedRows(rows), CleanedRowCount(end, |pending|))
    {
      ghost var rows := RowsOf(table, pending);
      ghost var target := CleanedRows(rows);
      var count := 0;
      for i := 0 to |pending|
        invariant Marked(pending, breaks, rows, target, old(table), table, i, count)
      {
        ghost var table1 := table;
        var live := InterruptIfLive(pending[i]);
        MarkStep(pending, breaks, rows, target, old(table), table1, table, i, count);
        if live && breaks[i] {
          return None;
        }
        count := count + if live then 1 else 0;
      }
      return Some(count);
    }

    /** Flush and commit; an error is swallowed, a cancellation is not. */
    method PersistBestEffort(await: Await) returns (cancelled: bool)
      modifies this`committed
      ensures cancelled == await.RaisesCancel?
      ensures committed == if await.Returns? then table else old(committed)
    {
      if await.Returns? {
        committed := table;
      }
      cancelled := await.RaisesCancel?;
    }

    /** The body of the outer `try`; `cleaned` is `gather_cleanup_done`. */
    method TryBatch(pending: seq<nat>, paths: seq<Path>, env: BatchEnv, tally: Tally, ghost target: seq<Row>)
      returns (raised: bool, cleaned: bool)
      requires Distinct(pending) && IsTarget(table, pending, paths, env, target) && env.Valid(|pending|)
      requires forall id :: id in pending ==> table[id].status == Downloading
      modifies this, tally
      ensures !raised <==> NothingRaises(env)
      ensures raised && !cleaned <==> Cleans(env)
      ensures !raised || cleaned ==> BatchEndOf(env).Through?
      ensures committed == if BatchEndOf(env).Through? && (if env.gatherCancelled then env.rescue.Returns? else !env.saveRaises)
                           then table else old(committed)
      ensures Tried(env, pending, target, old(table), table, old(tally.Value()), tally.Value())
    {
      if env.progressRaises {
        return true, false;
      }
      if env.gatherCancelled {
        var end := CreditFinishedTransfers(pending, paths, env, tally, target);
        if !end.Through? {
          return true, false;
        }
        var cancelled := PersistBestEffort(env.rescue);
        return true, !cancelled;
      }
      var end := ApplyResults(pending, paths, env, tally, target);
      if !end.Through? || env.saveRaises {
        return true, false;
      }
      committed := table;
      return env.lateProgressRaises, false;
    }

    /** The outer `except`: fail what is still DOWNLOADING, count it, and persist. */
    method OuterCleanup(pending: seq<nat>, env: BatchEnv, tally: Tally)
      requires Distinct(pending) && env.Valid(|pending|)
      requires forall id :: id in pending ==> id in table
      modifies this, tally
      ensures CleanedUp(env, pending, old(table), table, old(tally.Value()), tally.Value())
      ensures var end := CleanupEnd(RowsOf(old(table), pending), env.cleanupBreaks, 0);
              committed == if end == |pending| && env.cleanup.Returns? then table else old(committed)
    {
      var interrupted := MarkInterrupted(pending, env.cleanupBreaks);
      if interrupted.Some? {
        tally.failed := tally.failed + interrupted.value;
        var _ := PersistBestEffort(env.cleanup);
      }
    }

    /** The outer `try` and its cleanup, with the rows the batch aims at. */
    method TryThenClean(pending: seq<nat>, paths: seq<Path>, env: BatchEnv, tally: Tally, ghost target: seq<Row>)
      returns (outcome: Outcome)
      requires Distinct(pending) && IsTarget(table, pending, paths, env, target) && env.Valid(|pending|)
      requires forall id :: id in pending ==> table[id].status == Downloading
      modifies this, tally
      ensures outcome.Completed? <==> NothingRaises(env)
      ensures outcome.Completed? ==> Reached(table, old(table), pending, target, |pending|) && committed == table
      ensures table.Keys == old(table).Keys && forall id :: id in table && id !in pending ==> table[id] == old(table)[id]
      ensures Accounted(env, RowsOf(table, pending), old(tally.Value()), tally.Value())
      ensures RowsEnded(env, pending, paths, old(table), table)
      ensures committed == if Saves(env) then table else old(committed)
    {
      ghost var table0, t0 := table, tally.Value();
      var raised, cleaned := TryBatch(pending, paths, env, tally, target);
      outcome := if raised then Stopped else Completed;
      if raised && !cleaned {
        ghost var table1, t1 := table, tally.Value();
        OuterCleanup(pending, env, tally);
        CleanupAccounts(env, pending, paths, target, table0, table1, table, t0, t1, tally.Value());
        CleanupEnds(env, pending, paths, target, table0, table1, table, t0, t1, tally.Value());
        CleanupStops(env, pending, paths, target, table0, table1, table, t0, t1, tally.Value());
      } else {
        ThroughAccounts(env, pending, paths, target, table0, table, t0, tally.Value());
        ThroughEnds(env, pending, paths, target, table0, table, t0, tally.Value());
      }
    }

    method RunBatch(pending: seq<nat>, paths: seq<Path>, env: BatchEnv, tally: Tally)
      returns (outcome: Outcome)
      requires Distinct(pending) && |pending| == |paths| && env.Valid(|pending|)
      requires forall id :: id in pending ==> id in table && table[id].status == Downloading
      modifies this, tally
      // It returns normally exactly when nothing raised, and then every result is recorded and saved.
      ensures outcome.Completed? <==> NothingRaises(env)
      ensures table.Keys == old(table).Keys
      ensures outcome.Completed? ==>
        && committed == table
        && forall i :: 0 <= i < |pending| ==>
             table[pending[i]] == Settled(old(table)[pending[i]], paths[i], env.transfers[i], false)
      // No other row changes.
      ensures forall id :: id in table && id !in pending ==> table[id] == old(table)[id]
      ensures Accounted(env, RowsOf(table, pending), old(tally.Value()), tally.Value())
      ensures RowsEnded(env, pending, paths, old(table), table)
      // What each row reads, and which failure it names.
      ensures forall i :: 0 <= i < |pending| ==> RowReads(env, i, paths[i], old(table)[pending[i]], table[pending[i]])
      // The database holds the rows as claimed or as they ended, never a mixture.
      ensures committed == if Saves(env) then table else old(committed)
    {
      ghost var target, table0 := Target(table, pending, paths, env), table;
      assert forall i :: 0 <= i < |pending| ==> pending[i] in pending;
      outcome := TryThenClean(pending, paths, env, tally, target);
      AllRead(env, pending, paths, table0, table);
    }
  }

  // ---- Two batches in which a cancellation reaches a report ----

  function FreshlyClaimed(): Row {
    Row("/f", None, None, Downloading, None, Transferred(None, 0, None, None, None), Match(None, None, None, None, None), 0)
  }

  /** The failed transfer is recorded, its report is cancelled, and the row is never counted. */
  method SinkCanBreak() returns (status: FileStatus, totals: Totals)
    ensures status == FileStatus.Error && totals == Totals(0, 0, 0)
  {
    var o := new DownloadOrchestrator(map[0 := FreshlyClaimed()], [], []);
    var tally := new Tally();
    var env := BatchEnv(false, false, [Failed(false, "no such file")], [true], [false], false, Returns, Returns, false);
    assert PassEndFrom(env, 0) == StoppedBySink(0);
    var _ := o.RunBatch([0], [[]], env, tally);
    assert o.table[[0][0]] == EndedRow(env, 0, FreshlyClaimed(), []);
    return o.table[0].status, tally.Value();
  }

  /** The task is cancelled twice: the second time while the first row is reported, so the other row stays DOWNLOADING. */
  method CleanupCanBreak() returns (statuses: seq<FileStatus>, totals: Totals)
    ensures statuses == [FileStatus.Error, Downloading] && totals == Totals(0, 0, 0)
  {
    var o := new DownloadOrchestrator(map[0 := FreshlyClaimed(), 1 := FreshlyClaimed()], [], []);
    var tally := new Tally();
    var env := BatchEnv(true, false, [Failed(false, ""), Failed(false, "")], [false, false], [true, false], false, Returns, Returns, false);
    var pending := [0, 1];
    var _ := o.RunBatch(pending, [[], []], env, tally);
    assert SettledBy(env) == 0 && FirstBreak(env.cleanupBreaks, 0) == 0;
    assert forall i :: 0 <= i < 2 ==> o.table[pending[i]] == EndedRow(env, i, FreshlyClaimed(), []);
    return [o.table[pending[0]].status, o.table[pending[1]].status], tally.Value();
  }
}
