/**
 The whole pipeline over any sequence of download runs, parse runs and crashes: what a row can come
 to, and how often its file is transferred.
 */
module Pipeline {
  import opened Common
  import opened Files
  import opened Staging
  import opened Download
  import opened DownloadRun
  import Parse
  import ParseRun

  /** The committed rows, the rows a live download run holds, and how often each file was recorded as transferred. */
  datatype State = State(table: Table, live: set<nat>, recorded: map<nat, nat>)

  datatype Event =
    | Claims(batch: set<nat>, now: int, cutoff: int)
    | Settles(pending: seq<nat>, paths: seq<Path>, env: BatchEnv)
    | Crashes
    | Parses(parse: ParseRun.RunEnv, outcomes: seq<Parse.ParseOutcome>, args: ParseRun.RunArgs)

  ghost predicate Initial(s: State) {
    && s.live == {} && s.recorded.Keys == s.table.Keys
    && forall id :: id in s.table ==>
         s.table[id].status in {Discovered, Seeded} && s.table[id].transferred.localPath.None? && s.recorded[id] == 0
  }

  /** A run claims rows, leaves each as claimed, interrupted or settled, and lets go of all of them; runs do not overlap. */
  ghost predicate Step(s: State, e: Event, s': State) {
    && s'.table.Keys == s.table.Keys
    && s'.recorded.Keys == s.recorded.Keys
    && match e
       case Claims(batch, now, cutoff) =>
         && s.live == {} && s'.live == batch && s'.recorded == s.recorded
         && (forall id :: id in batch ==> id in s.table && Eligible(s.table[id], cutoff))
         && forall id :: id in s.table ==> s'.table[id] == if id in batch then Claimed(s.table[id], now) else s.table[id]
       case Settles(pending, paths, env) =>
         && s'.live == {} && s.live == (set id | id in pending)
         && Distinct(pending) && |paths| == |pending| && env.Valid(|pending|)
         && RowsEnded(env, pending, paths, s.table, s'.table)
         && forall id :: id in s.table && id in s.recorded ==>
              && s'.recorded[id] == s.recorded[id] + (if id in s.live && Done(s'.table[id]) then 1 else 0)
              && (id in s.live || s'.table[id] == s.table[id])
       case Crashes => s' == s.(live := {})
       case Parses(parse, outcomes, args) =>
         && s.live == {} && s'.live == {} && s'.recorded == s.recorded
         && ParseRun.ValidEnv(parse, s.table) && |outcomes| == |parse.files|
         && ParseRun.ParsedUpTo(parse, s.table, s'.table, outcomes, args)
  }

  ghost predicate RunOf(states: seq<State>, events: seq<Event>) {
    && |states| == |events| + 1 && Initial(states[0])
    && forall i :: 0 <= i < |events| ==> Step(states[i], events[i], states[i + 1])
  }

  /** A row is staged exactly when its file was transferred, which happens once. */
  ghost predicate RowOk(r: Row, recorded: nat) {
    && r.status in {Discovered, Downloading, Downloaded, Ignored, Unmatched, Matched, Error, Seeded}
    && recorded == (if r.transferred.localPath.Some? then 1 else 0)
    && (r.status in {Downloaded, Ignored, Unmatched, Matched} ==> r.transferred.localPath.Some?)
    && (r.status in {Discovered, Downloading, Seeded} ==> r.transferred.localPath.None?)
  }

  /** These rows no stage touches again; a staged ERROR is a failed parse. */
  predicate Frozen(r: Row) {
    r.status in {Seeded, Ignored, Matched} || (r.status == Error && r.transferred.localPath.Some?)
  }

  ghost predicate Safe(s: State) {
    && s.recorded.Keys == s.table.Keys
    && (forall id :: id in s.table ==> RowOk(s.table[id], s.recorded[id]))
    && (forall id :: id in s.live ==> id in s.table && s.table[id].status == Downloading)
  }

  lemma EndedRowOk(env: BatchEnv, i: nat, r: Row, recorded: nat, path: Path)
    requires i < |env.transfers| == |env.reportBreaks| == |env.cleanupBreaks|
    requires r.status == Downloading && RowOk(r, recorded)
    ensures var ended := EndedRow(env, i, r, path); RowOk(ended, recorded + if Done(ended) then 1 else 0)
  {
  }

  lemma ParsedRow(s: State, e: Event, s': State, id: nat)
    requires e.Parses? && Step(s, e, s') && Safe(s) && id in s.table
    ensures RowOk(s'.table[id], s.recorded[id])
    ensures !ParseRun.Selected(s.table[id]) ==> s'.table[id] == s.table[id]
  {
    ParseRun.CompletedRun(e.parse, s.table, s'.table, e.outcomes, e.args);
    if ParseRun.Selected(s.table[id]) {
      assert id in e.parse.files;
      var i :| 0 <= i < |e.parse.files| && e.parse.files[i] == id;
      assert Parse.RowAgrees(e.parse.file(i), s.table[id], s'.table[id], e.outcomes[i]);
    }
  }

  lemma SafeStep(s: State, e: Event, s': State)
    requires Safe(s) && Step(s, e, s')
    ensures Safe(s') && s'.table.Keys == s.table.Keys
    ensures forall id :: id in s.table && Frozen(s.table[id]) ==> s'.table[id] == s.table[id]
  {
    forall id | id in s.table
      ensures RowOk(s'.table[id], s'.recorded[id]) && (Frozen(s.table[id]) ==> s'.table[id] == s.table[id])
    {
      if e.Parses? {
        ParsedRow(s, e, s', id);
      }
      if e.Settles? && id in s.live {
        var i :| 0 <= i < |e.pending| && e.pending[i] == id;
        EndedRowOk(e.env, i, s.table[id], s.recorded[id], e.paths[i]);
      }
    }
  }

  lemma {:induction false} SafeUpTo(states: seq<State>, events: seq<Event>, n: nat)
    requires RunOf(states, events) && n <= |events|
    ensures Safe(states[n]) && states[n].table.Keys == states[0].table.Keys
  {
    if n > 0 {
      SafeUpTo(states, events, n - 1);
      SafeStep(states[n - 1], events[n - 1], states[n]);
    }
  }

  /** Over every run: a staged file means exactly one recorded transfer, and every finished status means a staged file. */
  lemma TransferredOnce(states: seq<State>, events: seq<Event>)
    requires RunOf(states, events)
    ensures forall i, id :: 0 <= i < |states| && id in states[i].table ==>
      id in states[i].recorded && RowOk(states[i].table[id], states[i].recorded[id])
  {
    forall i | 0 <= i < |states| ensures Safe(states[i]) {
      SafeUpTo(states, events, i);
    }
  }

  /** No claim ever takes a staged file: a failed parse is not downloaded again. */
  lemma ClaimsTakeUnstaged(states: seq<State>, events: seq<Event>, i: nat, id: nat)
    requires RunOf(states, events) && i < |events| && events[i].Claims? && id in events[i].batch
    ensures id in states[i].table && states[i].table[id].transferred.localPath.None?
    ensures id in states[i].recorded && states[i].recorded[id] == 0
  {
    SafeUpTo(states, events, i);
    assert Step(states[i], events[i], states[i + 1]);
  }

  /** SEEDED, IGNORED and MATCHED rows and failed parses never change again. */
  lemma {:induction false} FrozenForever(states: seq<State>, events: seq<Event>, i: nat, j: nat, id: nat)
    requires RunOf(states, events) && i <= j < |states|
    requires id in states[i].table && Frozen(states[i].table[id])
    ensures id in states[j].table && states[j].table[id] == states[i].table[id]
    decreases j
  {
    hide Step, Safe, Initial, Frozen;
    if i < j {
      FrozenForever(states, events, i, j - 1, id);
      SafeUpTo(states, events, j - 1);
      SafeStep(states[j - 1], events[j - 1], states[j]);
    }
  }

  /** A batch run by the orchestrator is such a step, whether it committed or not. */
  lemma BatchIsStep(s: State, pending: seq<nat>, paths: seq<Path>, env: BatchEnv, table: Table)
      returns (e: Event, s': State)
    requires Safe(s) && s.live == (set id | id in pending) && Distinct(pending) && |paths| == |pending| && env.Valid(|pending|)
    requires table.Keys == s.table.Keys && forall id :: id in table && id !in pending ==> table[id] == s.table[id]
    requires RowsEnded(env, pending, paths, s.table, table)
    ensures Step(s, e, s') && s'.table == table
  {
    e := Settles(pending, paths, env);
    s' := State(table, {}, map id | id in s.recorded ::
      if id in s.live && Done(table[id]) then s.recorded[id] + 1 else s.recorded[id]);
  }
}
