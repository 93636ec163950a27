/**
 Calls that create the show of one `tmdb_id` concurrently. The column is unique: an insert waits while
 another transaction holds an uncommitted one, and fails once a row is committed. Rows are never deleted.
 */
module Race {
  import opened Common

  /** An unset field is None (an empty string counts as unset). */
  datatype Fields = Fields(localPath: Option<string>, contentType: Option<string>)

  /**
   What a call inserts, or fills in where the row has nothing. Getting or creating a show, and importing one,
   always sets a content type, given or inferred; a manual match stores what it is given.
   */
  datatype Kind = GetOrCreate(localPath: Option<string>, contentType: string) | ManualMatch(payload: Fields)

  datatype Phase =
    | Idle
    | Missed                          // looked the show up and found nothing
    | Inserted                        // flushed its row, not committed
    | Lost                            // its flush met the committed row of another call; rolled back
    | Seen(row: nat, fields: Fields)  // a manual match that read a row and has not written its fill
    | Returned(row: nat, created: bool)
    | Failed

  /** The committed rows by id, the call whose insert is uncommitted, and where each call stands. */
  datatype State = State(rows: map<nat, Fields>, inserting: Option<nat>, calls: map<nat, Phase>)

  datatype Event =
    | LooksUp(c: nat)
    | Inserts(c: nat)
    | Commits(c: nat, raisesLater: bool)
    | Refinds(c: nat)
    | Fills(c: nat)
    | Aborts(c: nat)

  type Calls = map<nat, Kind>

  function SeedOf(kind: Kind): Fields {
    if kind.GetOrCreate? then Fields(kind.localPath, Some(kind.contentType)) else kind.payload
  }

  ghost predicate Initial(calls: Calls, s: State) {
    && (forall r, r' :: r in s.rows && r' in s.rows ==> r == r')
    && s.rows.Keys !! calls.Keys
    && s.inserting.None? && s.calls.Keys == calls.Keys
    && forall c :: c in s.calls ==> s.calls[c] == Idle
  }

  function At(s: State, c: nat, phase: Phase): State {
    s.(calls := s.calls[c := phase])
  }

  /** A found row is returned as it is; a manual match first fills in what it lacks. */
  ghost predicate Finds(calls: Calls, s: State, c: nat, s': State)
    requires c in calls
  {
    exists row :: row in s.rows &&
      s' == At(s, c, if calls[c].GetOrCreate? then Returned(row, false) else Seen(row, s.rows[row]))
  }

  /** The UPDATE holds the columns this session changed: those it read as unset and has a value for. */
  function Filled(now: Fields, seen: Fields, payload: Fields): Fields {
    Fields(if payload.localPath.Some? && seen.localPath.None? then payload.localPath else now.localPath,
           if payload.contentType.Some? && seen.contentType.None? then payload.contentType else now.contentType)
  }

  ghost predicate Step(calls: Calls, s: State, e: Event, s': State) {
    && e.c in calls && e.c in s.calls
    && var phase := s.calls[e.c];
       match e
       case LooksUp(c) => phase.Idle? && if s.rows == map[] then s' == At(s, c, Missed) else Finds(calls, s, c, s')
       case Inserts(c) =>
         && phase.Missed? && s.inserting.None?
         && (calls[c].ManualMatch? ==> calls[c].payload.localPath.Some?)
         && s' == if s.rows == map[] then At(s, c, Inserted).(inserting := Some(c)) else At(s, c, Lost)
       case Commits(c, raisesLater) =>
         && phase.Inserted?
         && s' == State(s.rows[c := SeedOf(calls[c])], None, s.calls[c := if raisesLater then Failed else Returned(c, true)])
       case Refinds(c) => phase.Lost? && if s.rows == map[] then s' == At(s, c, Failed) else Finds(calls, s, c, s')
       case Fills(c) =>
         && phase.Seen? && calls[c].ManualMatch? && phase.row in s.rows
         && s' == State(s.rows[phase.row := Filled(s.rows[phase.row], phase.fields, calls[c].payload)], s.inserting,
                        s.calls[c := Returned(phase.row, false)])
       case Aborts(c) =>
         && !phase.Returned?
         && s' == At(s, c, Failed).(inserting := if phase.Inserted? then None else s.inserting)
  }

  ghost predicate RunOf(calls: Calls, states: seq<State>, events: seq<Event>) {
    && |states| == |events| + 1 && Initial(calls, states[0])
    && forall i :: 0 <= i < |events| ==> Step(calls, states[i], events[i], states[i + 1])
  }

  // ---- One row, and everyone holds it ----

  ghost predicate OneRow(s: State) {
    forall r, r' :: r in s.rows && r' in s.rows ==> r == r'
  }

  ghost predicate CallOk(calls: Calls, s: State, c: nat)
    requires c in calls && c in s.calls
  {
    match s.calls[c]
    case Inserted => s.inserting == Some(c)
    case Lost => s.rows != map[]
    case Seen(row, _) => row in s.rows && calls[c].ManualMatch?
    case Returned(row, created) => row in s.rows && (created <==> row == c)
    case _ => true
  }

  ghost predicate Consistent(calls: Calls, s: State) {
    && OneRow(s)
    && s.calls.Keys == calls.Keys
    && (s.inserting.Some? ==> s.rows == map[] && s.inserting.value in s.calls && s.calls[s.inserting.value].Inserted?)
    // A call's own row exists only once it has committed.
    && (forall c :: c in calls && c in s.rows ==> s.calls[c] == Returned(c, true) || s.calls[c].Failed?)
    && forall c :: c in calls ==> CallOk(calls, s, c)
  }

  lemma ConsistentStep(calls: Calls, s: State, e: Event, s': State)
    requires Consistent(calls, s) && Step(calls, s, e, s')
    ensures Consistent(calls, s')
    ensures s.rows.Keys <= s'.rows.Keys
  {
    forall c | c in calls ensures CallOk(calls, s', c) {
      assert CallOk(calls, s, c) && CallOk(calls, s, e.c);
    }
  }

  lemma {:induction false} ConsistentUpTo(calls: Calls, states: seq<State>, events: seq<Event>, n: nat)
    requires RunOf(calls, states, events) && n <= |events|
    ensures Consistent(calls, states[n])
  {
    if n > 0 {
      ConsistentUpTo(calls, states, events, n - 1);
      ConsistentStep(calls, states[n - 1], events[n - 1], states[n]);
    }
  }

  predicate HasReturned(s: State, c: nat, row: nat, created: bool) {
    c in s.calls && s.calls[c] == Returned(row, created)
  }

  /** At most one row ever exists, every call that returns holds it, and at most one reports having created it. */
  lemma OneShow(calls: Calls, states: seq<State>, events: seq<Event>, n: nat)
    requires RunOf(calls, states, events) && n < |states|
    ensures |states[n].rows| <= 1
    ensures forall c: nat, row: nat, created :: HasReturned(states[n], c, row, created) ==> states[n].rows.Keys == {row}
    ensures forall c: nat, d: nat, row: nat, row': nat :: HasReturned(states[n], c, row, true) && HasReturned(states[n], d, row', true) ==> c == d
  {
    ConsistentUpTo(calls, states, events, n);
    var s := states[n];
    if s.rows != map[] {
      var r :| r in s.rows;
      assert s.rows.Keys == {r};
    }
    forall c: nat, row: nat, created | HasReturned(s, c, row, created) ensures s.rows.Keys == {row} && (created ==> row == c) {
      assert CallOk(calls, s, c);
    }
  }

  /** A call that lost the race always finds the winner. */
  lemma LostFindsWinner(calls: Calls, states: seq<State>, events: seq<Event>, i: nat)
    requires RunOf(calls, states, events) && i < |events| && events[i].Refinds?
    ensures states[i].rows != map[]
    ensures states[i + 1].calls[events[i].c].Returned? || states[i + 1].calls[events[i].c].Seen?
  {
    ConsistentUpTo(calls, states, events, i);
    assert Step(calls, states[i], events[i], states[i + 1]);
    assert CallOk(calls, states[i], events[i].c);
  }

  // ---- What a fill may overwrite ----

  /** The path, or else the content type. */
  function Field(f: Fields, path: bool): Option<string> {
    if path then f.localPath else f.contentType
  }

  /** A row that has the field gets another value. */
  ghost predicate Loses(s: State, s': State, path: bool) {
    exists row :: row in s.rows && row in s'.rows && FieldLost(s.rows[row], s'.rows[row], path)
  }

  predicate FieldLost(before: Fields, after: Fields, path: bool) {
    Field(before, path).Some? && Field(after, path) != Field(before, path)
  }

  /** The value was set by someone else after this call read it as unset, and this call brings another one. */
  predicate Stale(now: Option<string>, seen: Option<string>, payload: Option<string>) {
    seen.None? && now.Some? && payload.Some? && now != payload
  }

  /** A step overwrites a set field exactly when it is a fill that read it as unset, after which it was set. */
  lemma OverwritesExactly(calls: Calls, s: State, e: Event, s': State, path: bool)
    requires Consistent(calls, s) && Step(calls, s, e, s')
    ensures Loses(s, s', path) <==>
            && e.Fills?
            && var Seen(row, seen) := s.calls[e.c];
               Stale(Field(s.rows[row], path), Field(seen, path), Field(calls[e.c].payload, path))
  {
    if e.Fills? {
      var Seen(row, seen) := s.calls[e.c];
      assert s'.rows[row] == Filled(s.rows[row], seen, calls[e.c].payload);
    }
  }

  /** The field is set in every row, and in whatever anyone has read. */
  ghost predicate AllSet(s: State, path: bool) {
    && (forall row :: row in s.rows ==> Field(s.rows[row], path).Some?)
    && forall c :: c in s.calls && s.calls[c].Seen? ==> Field(s.calls[c].fields, path).Some?
  }

  /** Every new row has the field; a manual match refuses to create a show without a path. */
  ghost predicate SeedsSet(calls: Calls, path: bool) {
    forall c :: c in calls ==> (calls[c].ManualMatch? && path) || Field(SeedOf(calls[c]), path).Some?
  }

  /** The same calls, with what the insert has already checked. */
  ghost predicate InsertedSet(calls: Calls, s: State, path: bool) {
    forall c :: c in calls && c in s.calls && s.calls[c].Inserted? ==> Field(SeedOf(calls[c]), path).Some?
  }

  lemma {:induction false} SetUpTo(calls: Calls, states: seq<State>, events: seq<Event>, path: bool, n: nat)
    requires RunOf(calls, states, events) && n <= |events|
    requires SeedsSet(calls, path) && AllSet(states[0], path)
    ensures AllSet(states[n], path) && InsertedSet(calls, states[n], path)
  {
    if n > 0 {
      SetUpTo(calls, states, events, path, n - 1);
      assert Step(calls, states[n - 1], events[n - 1], states[n]);
    }
  }

  /** When rows are created with a field, no fill ever changes it: a lost race overwrites nothing. */
  lemma SetFieldsStay(calls: Calls, states: seq<State>, events: seq<Event>, path: bool, i: nat)
    requires RunOf(calls, states, events) && i < |events|
    requires SeedsSet(calls, path) && AllSet(states[0], path)
    ensures forall row :: row in states[i].rows ==>
      row in states[i + 1].rows && Field(states[i + 1].rows[row], path) == Field(states[i].rows[row], path)
  {
    SetUpTo(calls, states, events, path, i);
    ConsistentUpTo(calls, states, events, i);
    assert Step(calls, states[i], events[i], states[i + 1]);
  }

  // ---- Exactly which calls can lose a field ----

  /** The call can create a row without the field; a manual match refuses to create one without a path. */
  predicate CreatesUnset(kind: Kind, path: bool) {
    Field(SeedOf(kind), path).None? && (kind.ManualMatch? ==> kind.payload.localPath.Some?)
  }

  /** A row begins without the field: the one already there, or else one that a call creates. */
  predicate BeginsUnset(calls: Calls, start: State, row: nat, path: bool) {
    if start.rows == map[] then row in calls && CreatesUnset(calls[row], path)
    else row in start.rows && Field(start.rows[row], path).None?
  }

  predicate Brings(calls: Calls, c: nat, path: bool, value: string) {
    c in calls && calls[c].ManualMatch? && Field(calls[c].payload, path) == Some(value)
  }

  /** The row may begin without the field, and two manual matches bring different values for it. */
  ghost predicate CanCollide(calls: Calls, start: State, path: bool) {
    exists row, d, e, v, w :: BeginsUnset(calls, start, row, path) && Brings(calls, d, path, v) && Brings(calls, e, path, w) && v != w
  }

  /** Where an unset field of a row, and a value that was filled in, come from. */
  ghost predicate Traced(calls: Calls, start: State, s: State, path: bool) {
    && start.rows.Keys <= s.rows.Keys
    && (forall row :: row in s.rows ==> RowTraced(calls, start, row, s.rows[row], path))
    && (forall c :: c in s.calls && s.calls[c].Seen? ==> ReadTraced(calls, start, s.calls[c], path))
    && forall c :: c in s.calls && s.calls[c].Inserted? && c in calls && calls[c].ManualMatch? ==> calls[c].payload.localPath.Some?
  }

  ghost predicate RowTraced(calls: Calls, start: State, row: nat, now: Fields, path: bool) {
    match Field(now, path)
    case None => BeginsUnset(calls, start, row, path)
    case Some(v) => BeginsUnset(calls, start, row, path) ==> exists d :: Brings(calls, d, path, v)
  }

  predicate ReadTraced(calls: Calls, start: State, seen: Phase, path: bool)
    requires seen.Seen?
  {
    Field(seen.fields, path).None? ==> BeginsUnset(calls, start, seen.row, path)
  }

  /** The fill of `c` keeps the trace, and what it overwrites another call has filled in before. */
  lemma FillTraced(calls: Calls, start: State, s: State, c: nat, s': State, path: bool)
    requires Consistent(calls, s) && Traced(calls, start, s, path) && Step(calls, s, Fills(c), s')
    ensures Traced(calls, start, s', path)
    ensures Loses(s, s', path) ==> CanCollide(calls, start, path)
  {
    var Seen(row, seen) := s.calls[c];
    var now, payload := s.rows[row], calls[c].payload;
    assert RowTraced(calls, start, row, now, path) && ReadTraced(calls, start, s.calls[c], path);
    assert Field(payload, path).Some? ==> Brings(calls, c, path, Field(payload, path).value);
    assert RowTraced(calls, start, row, Filled(now, seen, payload), path);
    OverwritesExactly(calls, s, Fills(c), s', path);
  }

  lemma TracedStep(calls: Calls, start: State, s: State, e: Event, s': State, path: bool)
    requires Consistent(calls, s) && Traced(calls, start, s, path) && Step(calls, s, e, s')
    ensures Traced(calls, start, s', path)
    ensures Loses(s, s', path) ==> CanCollide(calls, start, path)
  {
    if e.Fills? {
      FillTraced(calls, start, s, e.c, s', path);
    } else {
      OverwritesExactly(calls, s, e, s', path);
      if e.Commits? {
        assert CallOk(calls, s, e.c);
      }
    }
  }

  lemma {:induction false} TracedUpTo(calls: Calls, states: seq<State>, events: seq<Event>, path: bool, n: nat)
    requires RunOf(calls, states, events) && n <= |events|
    ensures Traced(calls, states[0], states[n], path)
  {
    if n > 0 {
      TracedUpTo(calls, states, events, path, n - 1);
      ConsistentUpTo(calls, states, events, n - 1);
      TracedStep(calls, states[0], states[n - 1], events[n - 1], states[n], path);
    }
  }

  /** A run from `start` with its last state. */
  ghost predicate Reaches(calls: Calls, start: State, states: seq<State>, events: seq<Event>, s: State) {
    RunOf(calls, states, events) && states[0] == start && states[|events|] == s
  }

  lemma Then(calls: Calls, start: State, states: seq<State>, events: seq<Event>, s: State, e: Event, s': State)
      returns (states': seq<State>, events': seq<Event>)
    requires Reaches(calls, start, states, events, s) && Step(calls, s, e, s')
    ensures Reaches(calls, start, states', events', s')
    ensures states' == states + [s'] && events' == events + [e]
  {
    states', events' := states + [s'], events + [e];
  }

  /** Both calls have read the one row and not filled it yet. */
  predicate BothSee(calls: Calls, s: State, row: nat, d: nat, e: nat) {
    && d in calls && e in calls && d in s.calls && e in s.calls && d != e
    && calls[d].ManualMatch? && calls[e].ManualMatch? && row in s.rows && s.rows.Keys == {row}
    && s.calls[d] == s.calls[e] == Seen(row, s.rows[row])
  }

  /** The two fills: the second one overwrites what the first one has filled in. */
  lemma BothFill(calls: Calls, start: State, states: seq<State>, events: seq<Event>, s: State, row: nat, d: nat, e: nat, path: bool)
      returns (states': seq<State>, events': seq<Event>)
    requires Reaches(calls, start, states, events, s) && BothSee(calls, s, row, d, e) && Field(s.rows[row], path).None?
    requires Field(calls[d].payload, path).Some? && Field(calls[e].payload, path).Some?
    requires Field(calls[d].payload, path) != Field(calls[e].payload, path)
    ensures events' == events + [Fills(d), Fills(e)] && |states'| == |events| + 3
    ensures RunLoses(calls, start, states', events', |events| + 1, path)
    ensures var read := s.rows[row];
            && states'[|events| + 1].rows == map[row := Filled(read, read, calls[d].payload)]
            && states'[|events| + 2].rows == map[row := Filled(Filled(read, read, calls[d].payload), read, calls[e].payload)]
  {
    var read := s.rows[row];
    var first := Filled(read, read, calls[d].payload);
    var s1 := State(map[row := first], s.inserting, s.calls[d := Returned(row, false)]);
    assert s.rows[row := first] == s1.rows;
    states', events' := Then(calls, start, states, events, s, Fills(d), s1);
    var second := Filled(first, read, calls[e].payload);
    var s2 := State(map[row := second], s1.inserting, s1.calls[e := Returned(row, false)]);
    assert s1.rows[row := second] == s2.rows;
    states', events' := Then(calls, start, states', events', s1, Fills(e), s2);
    assert FieldLost(s1.rows[row], s2.rows[row], path);
  }

  ghost predicate RunLoses(calls: Calls, start: State, states: seq<State>, events: seq<Event>, n: nat, path: bool) {
    RunOf(calls, states, events) && states[0] == start && n < |events| && Loses(states[n], states[n + 1], path)
  }

  /** `d` and `e` find the row that is there. */
  lemma BothLookUp(calls: Calls, start: State, states: seq<State>, events: seq<Event>, s: State, row: nat, d: nat, e: nat)
      returns (states': seq<State>, events': seq<Event>, s': State)
    requires Reaches(calls, start, states, events, s) && row in s.rows && s.rows.Keys == {row}
    requires d in calls && e in calls && d != e && calls[d].ManualMatch? && calls[e].ManualMatch?
    requires d in s.calls && e in s.calls && s.calls[d].Idle? && s.calls[e].Idle?
    ensures Reaches(calls, start, states', events', s') && BothSee(calls, s', row, d, e) && s'.rows == s.rows
  {
    var s1 := At(s, d, Seen(row, s.rows[row]));
    s' := At(s1, e, Seen(row, s.rows[row]));
    assert Finds(calls, s, d, s1) && Finds(calls, s1, e, s');
    states', events' := Then(calls, start, states, events, s, LooksUp(d), s1);
    states', events' := Then(calls, start, states', events', s1, LooksUp(e), s');
  }

  /** `c` creates the row. */
  lemma CreatedBy(calls: Calls, start: State, c: nat) returns (states: seq<State>, events: seq<Event>, s: State)
    requires Initial(calls, start) && start.rows == map[] && c in calls
    requires calls[c].ManualMatch? ==> calls[c].payload.localPath.Some?
    ensures Reaches(calls, start, states, events, s)
    ensures s == State(map[c := SeedOf(calls[c])], None, start.calls[c := Returned(c, true)])
  {
    var s1 := At(start, c, Missed);
    var s2 := At(s1, c, Inserted).(inserting := Some(c));
    s := State(map[c := SeedOf(calls[c])], None, s2.calls[c := Returned(c, true)]);
    assert s2.rows[c := SeedOf(calls[c])] == s.rows;
    states, events := Then(calls, start, [start], [], start, LooksUp(c), s1);
    states, events := Then(calls, start, states, events, s1, Inserts(c), s2);
    states, events := Then(calls, start, states, events, s2, Commits(c, false), s);
    assert start.calls[c := Missed][c := Inserted][c := Returned(c, true)] == start.calls[c := Returned(c, true)];
  }

  /** Both fill the row that begins without the field. */
  lemma Collision(calls: Calls, start: State, row: nat, d: nat, e: nat, path: bool)
      returns (states: seq<State>, events: seq<Event>, n: nat)
    requires Initial(calls, start) && BeginsUnset(calls, start, row, path)
    requires d in calls && e in calls && calls[d].ManualMatch? && calls[e].ManualMatch?
    requires Field(calls[d].payload, path).Some? && Field(calls[e].payload, path).Some?
    requires Field(calls[d].payload, path) != Field(calls[e].payload, path)
    ensures RunLoses(calls, start, states, events, n, path)
  {
    var s := start;
    states, events := [start], [];
    if start.rows == map[] {
      states, events, s := CreatedBy(calls, start, row);
      assert s.rows.Keys == {row};
    } else {
      assert start.rows.Keys == {row};
    }
    states, events, s := BothLookUp(calls, start, states, events, s, row, d, e);
    n := |events| + 1;
    states, events := BothFill(calls, start, states, events, s, row, d, e, path);
  }

  /** From any start some run overwrites a set field exactly when the calls can collide on that field. */
  lemma LosesExactly(calls: Calls, start: State, path: bool)
    requires Initial(calls, start)
    ensures (exists states, events, n :: RunLoses(calls, start, states, events, n, path)) <==> CanCollide(calls, start, path)
  {
    forall states, events, n | RunLoses(calls, start, states, events, n, path) ensures CanCollide(calls, start, path) {
      TracedUpTo(calls, states, events, path, n);
      ConsistentUpTo(calls, states, events, n);
      TracedStep(calls, start, states[n], events[n], states[n + 1], path);
    }
    if CanCollide(calls, start, path) {
      var row, d, e, v, w :|
        BeginsUnset(calls, start, row, path) && Brings(calls, d, path, v) && Brings(calls, e, path, w) && v != w;
      var states, events, n := Collision(calls, start, row, d, e, path);
    }
  }

  /** A manual match that names a path and no content type. */
  predicate CreatesUntyped(calls: Calls, c: nat) {
    c in calls && calls[c].ManualMatch? && calls[c].payload.localPath.Some? && calls[c].payload.contentType.None?
  }

  /** An import: it sets no path when it creates the show. */
  predicate CreatesPathless(calls: Calls, c: nat) {
    c in calls && calls[c].GetOrCreate? && calls[c].localPath.None?
  }

  /**
   When no show exists yet, a content type can be lost exactly when one manual match brings none and two others bring
   different ones; a path, exactly when one call creates the show without and two manual matches bring different ones.
   */
  lemma LostAfterCreation(calls: Calls, start: State)
    requires Initial(calls, start) && start.rows == map[]
    ensures (exists states, events, n :: RunLoses(calls, start, states, events, n, false)) <==>
            exists c, d, e, v, w :: CreatesUntyped(calls, c) && Brings(calls, d, false, v) && Brings(calls, e, false, w) && v != w
    ensures (exists states, events, n :: RunLoses(calls, start, states, events, n, true)) <==>
            exists c, d, e, v, w :: CreatesPathless(calls, c) && Brings(calls, d, true, v) && Brings(calls, e, true, w) && v != w
  {
    LosesExactly(calls, start, false);
    LosesExactly(calls, start, true);
    forall c
      ensures BeginsUnset(calls, start, c, false) <==> CreatesUntyped(calls, c)
      ensures BeginsUnset(calls, start, c, true) <==> CreatesPathless(calls, c)
    {
    }
  }

  /** `d` and `e` have looked up in vain when `c` creates the row. */
  lemma CreatedMeanwhile(calls: Calls, start: State, c: nat, d: nat, e: nat)
      returns (states: seq<State>, events: seq<Event>, s: State)
    requires Initial(calls, start) && start.rows == map[] && c in calls && d in calls && e in calls
    requires c != d && c != e && d != e
    requires calls[c].ManualMatch? ==> calls[c].payload.localPath.Some?
    ensures Reaches(calls, start, states, events, s)
    ensures s.rows == map[c := SeedOf(calls[c])] && s.inserting.None? && d in s.calls && e in s.calls
    ensures s.calls[d].Missed? && s.calls[e].Missed?
    ensures events == [LooksUp(d), LooksUp(e), LooksUp(c), Inserts(c), Commits(c, false)]
  {
    var s1 := At(start, d, Missed);
    var s2 := At(s1, e, Missed);
    var s3 := At(s2, c, Missed);
    var s4 := At(s3, c, Inserted).(inserting := Some(c));
    s := State(map[c := SeedOf(calls[c])], None, s4.calls[c := Returned(c, true)]);
    states, events := Then(calls, start, [start], [], start, LooksUp(d), s1);
    states, events := Then(calls, start, states, events, s1, LooksUp(e), s2);
    states, events := Then(calls, start, states, events, s2, LooksUp(c), s3);
    states, events := Then(calls, start, states, events, s3, Inserts(c), s4);
    assert s4.rows[c := SeedOf(calls[c])] == s.rows;
    states, events := Then(calls, start, states, events, s4, Commits(c, false), s);
  }

  /** Then `d` and `e` insert, lose, and find the row of `c` again. */
  lemma BothLose(calls: Calls, start: State, c: nat, d: nat, e: nat)
      returns (states: seq<State>, events: seq<Event>, s: State)
    requires Initial(calls, start) && start.rows == map[] && c in calls && d in calls && e in calls
    requires c != d && c != e && d != e && calls[d].ManualMatch? && calls[e].ManualMatch?
    requires calls[c].ManualMatch? ==> calls[c].payload.localPath.Some?
    requires calls[d].payload.localPath.Some? && calls[e].payload.localPath.Some?
    ensures Reaches(calls, start, states, events, s) && BothSee(calls, s, c, d, e) && s.rows == map[c := SeedOf(calls[c])]
    ensures events == [LooksUp(d), LooksUp(e), LooksUp(c), Inserts(c), Commits(c, false)]
                      + [Inserts(d), Inserts(e), Refinds(d), Refinds(e)]
  {
    var before;
    states, events, before := CreatedMeanwhile(calls, start, c, d, e);
    var s1 := At(before, d, Lost);
    var s2 := At(s1, e, Lost);
    var s3 := At(s2, d, Seen(c, before.rows[c]));
    s := At(s3, e, Seen(c, before.rows[c]));
    states, events := Then(calls, start, states, events, before, Inserts(d), s1);
    states, events := Then(calls, start, states, events, s1, Inserts(e), s2);
    assert Finds(calls, s2, d, s3) && Finds(calls, s3, e, s);
    states, events := Then(calls, start, states, events, s2, Refinds(d), s3);
    states, events := Then(calls, start, states, events, s3, Refinds(e), s);
  }

  /** Through lost inserts alone: the content type that the first loser filled in is lost, and the path stays. */
  lemma FillsCanCollide(calls: Calls, start: State, c: nat, d: nat, e: nat)
      returns (states: seq<State>, events: seq<Event>)
    requires Initial(calls, start) && start.rows == map[] && {c, d, e} <= calls.Keys && c != d && c != e && d != e
    requires calls[c] == ManualMatch(Fields(Some("/tv/Show"), None))
    requires calls[d] == ManualMatch(Fields(Some("/a/Show"), Some("tv")))
    requires calls[e] == ManualMatch(Fields(Some("/b/Show"), Some("anime")))
    ensures events == [LooksUp(d), LooksUp(e), LooksUp(c), Inserts(c), Commits(c, false)]
                      + [Inserts(d), Inserts(e), Refinds(d), Refinds(e)] + [Fills(d), Fills(e)]
    ensures RunLoses(calls, start, states, events, 10, false)
    ensures states[10].rows == map[c := Fields(Some("/tv/Show"), Some("tv"))]
    ensures states[11].rows == map[c := Fields(Some("/tv/Show"), Some("anime"))]
  {
    var s;
    states, events, s := BothLose(calls, start, c, d, e);
    states, events := BothFill(calls, start, states, events, s, c, d, e, false);
  }
}
