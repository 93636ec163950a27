/**
 Path import: the files of each directory are split over the shows they belong to, matched to
 episodes, and the episodes marked tracked. A dry run does the same lookups and writes nothing.
 */
module Import {
  import opened Common

  datatype Entry = Entry(line: nat, rawPath: string, showDir: string, episode: Option<int>, isDirectory: bool)

  datatype Mode = Full | ShowsOnly | EpisodesOnly

  /** A show that only a dry run would create has no id. */
  datatype ShowRef = NoShow | Unsaved | Saved(id: nat)

  datatype Action = Created | Found | NotFound

  datatype Episode = Episode(tracked: bool, filename: Option<string>, byImport: bool)

  datatype Outcome = Tracked | AlreadyTrackedHere | TrackedPreviously | Unmatched

  datatype ShowImportResult = ShowImportResult(
    showDir: string,
    action: Action,
    episodesTracked: nat,
    episodesUnmatched: nat,
    episodesAlreadyTracked: nat,
    unmatchedPaths: seq<string>,
    alreadyTrackedPaths: seq<string>)

  function EmptyResult(showDir: string, action: Action): ShowImportResult {
    ShowImportResult(showDir, action, 0, 0, 0, [], [])
  }

  // ---- What the outcomes of a group are, without any running state ----

  function Seen(matches: seq<Option<nat>>, k: nat): set<nat>
    requires k <= |matches|
  {
    set i | 0 <= i < k && matches[i].Some? :: matches[i].value
  }

  /** An entry is tracked if it is the first of this directory on an episode not tracked before. */
  function OutcomeOf(matches: seq<Option<nat>>, claimed: set<nat>, tracked: set<nat>, i: nat): Outcome
    requires i < |matches|
  {
    if matches[i].None? then Unmatched
    else if matches[i].value in claimed + Seen(matches, i) then AlreadyTrackedHere
    else if matches[i].value in tracked then TrackedPreviously
    else Tracked
  }

  function Outcomes(matches: seq<Option<nat>>, claimed: set<nat>, tracked: set<nat>): (os: seq<Outcome>)
    ensures |os| == |matches| && forall i :: 0 <= i < |os| ==> os[i] == OutcomeOf(matches, claimed, tracked, i)
  {
    seq(|matches|, i requires 0 <= i < |matches| => OutcomeOf(matches, claimed, tracked, i))
  }

  function Count(os: seq<Outcome>, o: Outcome, k: nat): nat
    requires k <= |os|
  {
    if k == 0 then 0 else Count(os, o, k - 1) + (if os[k - 1] == o then 1 else 0)
  }

  function PathsOf(entries: seq<Entry>, os: seq<Outcome>, o: Outcome, k: nat): seq<string>
    requires k <= |os| == |entries|
  {
    if k == 0 then []
    else PathsOf(entries, os, o, k - 1) + (if os[k - 1] == o then [entries[k - 1].rawPath] else [])
  }

  /** The result of a group, as a function of the outcomes of its first `k` entries. */
  function Summary(showDir: string, action: Action, entries: seq<Entry>, os: seq<Outcome>, k: nat): ShowImportResult
    requires k <= |os| == |entries|
  {
    ShowImportResult(showDir, action, Count(os, Tracked, k), Count(os, Unmatched, k), Count(os, AlreadyTrackedHere, k),
                     PathsOf(entries, os, Unmatched, k), PathsOf(entries, os, AlreadyTrackedHere, k))
  }

  lemma {:induction false} FourOutcomesAddUp(os: seq<Outcome>, k: nat)
    requires k <= |os|
    ensures Count(os, Tracked, k) + Count(os, AlreadyTrackedHere, k) + Count(os, TrackedPreviously, k) + Count(os, Unmatched, k) == k
  {
    if k > 0 {
      FourOutcomesAddUp(os, k - 1);
    }
  }

  lemma {:induction false} ListsMatchCounters(entries: seq<Entry>, os: seq<Outcome>, o: Outcome, k: nat)
    requires k <= |os| == |entries|
    ensures |PathsOf(entries, os, o, k)| == Count(os, o, k)
  {
    if k > 0 {
      ListsMatchCounters(entries, os, o, k - 1);
    }
  }

  // ---- The outcomes and the summary, by the entries they speak of ----

  /** The entry's episode was claimed before its group, or by an earlier entry of it. */
  predicate Repeats(matches: seq<Option<nat>>, claimed: set<nat>, i: nat)
    requires i < |matches|
  {
    matches[i].Some? && (matches[i].value in claimed || exists j :: 0 <= j < i && matches[j] == matches[i])
  }

  /** What each outcome means. */
  lemma OutcomeMeans(matches: seq<Option<nat>>, claimed: set<nat>, tracked: set<nat>, i: nat)
    requires i < |matches|
    ensures var o := Outcomes(matches, claimed, tracked)[i];
            && (o == Unmatched <==> matches[i].None?)
            && (o == AlreadyTrackedHere <==> Repeats(matches, claimed, i))
            && (o == TrackedPreviously <==> matches[i].Some? && !Repeats(matches, claimed, i) && matches[i].value in tracked)
            && (o == Tracked <==> matches[i].Some? && !Repeats(matches, claimed, i) && matches[i].value !in tracked)
  {
  }

  /** The paths of the chosen entries, in order. */
  function PathsWhere(entries: seq<Entry>, chosen: set<nat>, k: nat): seq<string>
    requires k <= |entries|
  {
    if k == 0 then [] else PathsWhere(entries, chosen, k - 1) + if k - 1 in chosen then [entries[k - 1].rawPath] else []
  }

  lemma {:induction false} CountIs(os: seq<Outcome>, o: Outcome, k: nat)
    requires k <= |os|
    ensures Count(os, o, k) == |Ended(os, o, k)|
  {
    hide Ended;
    EndedStep(os, o, k);
    if k > 0 {
      CountIs(os, o, k - 1);
    }
  }

  lemma EndedStep(os: seq<Outcome>, o: Outcome, k: nat)
    requires k <= |os|
    ensures k == 0 ==> |Ended(os, o, k)| == 0
    ensures k > 0 ==> |Ended(os, o, k)| == |Ended(os, o, k - 1)| + if os[k - 1] == o then 1 else 0
  {
    if k > 0 {
      assert Ended(os, o, k) == Ended(os, o, k - 1) + if os[k - 1] == o then {k - 1} else {};
    } else {
      assert Ended(os, o, k) == {};
    }
  }

  /** The entries with an outcome. */
  function Ended(os: seq<Outcome>, o: Outcome, k: nat): set<nat>
    requires k <= |os|
  {
    set i | 0 <= i < k && os[i] == o
  }

  lemma {:induction false} PathsOfIs(entries: seq<Entry>, os: seq<Outcome>, o: Outcome, chosen: set<nat>, k: nat)
    requires k <= |os| == |entries| && forall i :: 0 <= i < |os| ==> (i in chosen <==> os[i] == o)
    ensures PathsOf(entries, os, o, k) == PathsWhere(entries, chosen, k)
  {
    if k > 0 {
      PathsOfIs(entries, os, o, chosen, k - 1);
    }
  }

  /** A group's counters and lists: new episodes, repeated ones, and files that match none. */
  ghost predicate SummaryIs(r: ShowImportResult, entries: seq<Entry>, matches: seq<Option<nat>>, claimed: set<nat>, tracked: set<nat>)
    requires |matches| == |entries|
  {
    var none := set i | 0 <= i < |matches| && matches[i].None?;
    var repeated := set i | 0 <= i < |matches| && Repeats(matches, claimed, i);
    var newly := set i | 0 <= i < |matches| && matches[i].Some? && !Repeats(matches, claimed, i) && matches[i].value !in tracked;
    && r.episodesTracked == |newly|
    && r.episodesAlreadyTracked == |repeated| && r.alreadyTrackedPaths == PathsWhere(entries, repeated, |entries|)
    && r.episodesUnmatched == |none| && r.unmatchedPaths == PathsWhere(entries, none, |entries|)
  }

  lemma SummaryMeans(showDir: string, action: Action, entries: seq<Entry>, matches: seq<Option<nat>>, claimed: set<nat>, tracked: set<nat>)
    requires |matches| == |entries|
    ensures SummaryIs(Summary(showDir, action, entries, Outcomes(matches, claimed, tracked), |entries|), entries, matches, claimed, tracked)
  {
    hide Count, PathsOf, PathsWhere, OutcomeOf, Repeats;
    var os := Outcomes(matches, claimed, tracked);
    var n := |matches|;
    forall i | 0 <= i < n {
      OutcomeMeans(matches, claimed, tracked, i);
    }
    CountIs(os, Tracked, n);
    CountIs(os, AlreadyTrackedHere, n);
    CountIs(os, Unmatched, n);
    var none := set i | 0 <= i < n && matches[i].None?;
    var repeated := set i | 0 <= i < n && Repeats(matches, claimed, i);
    var newly := set i | 0 <= i < n && matches[i].Some? && !Repeats(matches, claimed, i) && matches[i].value !in tracked;
    assert Ended(os, Unmatched, n) == none;
    assert Ended(os, AlreadyTrackedHere, n) == repeated;
    assert Ended(os, Tracked, n) == newly;
    PathsOfIs(entries, os, Unmatched, none, n);
    PathsOfIs(entries, os, AlreadyTrackedHere, repeated, n);
  }

  lemma OneMoreTracked(matches: seq<Option<nat>>, claimed: set<nat>, tracked: set<nat>, k: nat)
    requires k < |matches|
    ensures var os := Outcomes(matches, claimed, tracked);
            Count(os, Tracked, k + 1) == Count(os, Tracked, k)
            + if matches[k].Some? && matches[k].value !in Seen(matches, k) + (claimed + tracked) then 1 else 0
  {
  }

  /** The counter of tracked episodes is the number of episodes, not of entries. */
  lemma {:induction false} TrackedCountsEpisodes(matches: seq<Option<nat>>, claimed: set<nat>, tracked: set<nat>, k: nat)
    requires k <= |matches|
    ensures Count(Outcomes(matches, claimed, tracked), Tracked, k) == |Seen(matches, k) - (claimed + tracked)|
  {
    hide Count, OutcomeOf, Seen;
    if k == 0 {
      NothingSeen(matches, Outcomes(matches, claimed, tracked));
    } else {
      TrackedCountsEpisodes(matches, claimed, tracked, k - 1);
      OneMoreTracked(matches, claimed, tracked, k - 1);
      SeenStep(matches, k - 1);
      CountGrows(Seen(matches, k - 1), claimed + tracked, matches[k - 1]);
    }
  }

  lemma NothingSeen(matches: seq<Option<nat>>, os: seq<Outcome>)
    ensures Seen(matches, 0) == {} && Count(os, Tracked, 0) == 0
  {
  }

  lemma CountGrows(seen: set<nat>, others: set<nat>, m: Option<nat>)
    ensures |(if m.Some? then seen + {m.value} else seen) - others|
            == |seen - others| + if m.Some? && m.value !in seen + others then 1 else 0
  {
    if m.Some? {
      OneMore(seen, others, m.value);
    }
  }

  lemma OneMore(seen: set<nat>, others: set<nat>, x: nat)
    ensures |seen + {x} - others| == |seen - others| + if x in seen + others then 0 else 1
  {
    if x in seen + others {
      assert seen + {x} - others == seen - others;
    } else {
      assert seen + {x} - others == (seen - others) + {x};
    }
  }

  lemma SeenStep(matches: seq<Option<nat>>, k: nat)
    requires k < |matches|
    ensures Seen(matches, k + 1) == if matches[k].Some? then Seen(matches, k) + {matches[k].value} else Seen(matches, k)
  {
    forall id | id in Seen(matches, k + 1)
      ensures id in Seen(matches, k) || matches[k] == Some(id)
    {
      var i :| 0 <= i < k + 1 && matches[i] == Some(id);
    }
  }

  /** What earlier groups of the directory have tracked does not change an outcome: they also claimed it. */
  lemma ClaimsHideTracking(matches: seq<Option<nat>>, claimed: set<nat>, tracked: set<nat>)
    ensures Outcomes(matches, claimed, tracked + claimed) == Outcomes(matches, claimed, tracked)
  {
  }

  // ---- The environment ----

  datatype Parse = ParseRaises | Parsed(llmOk: bool, showName: Option<string>)

  datatype ImportEnv = ImportEnv(
    resolve: (nat, string) -> (ShowRef, Action), // _resolve_show, by group and name
    rollsBack: nat -> bool,                  // that resolution rolled the session back
    matchEntry: (nat, Entry) -> Option<nat>, // match_entry_to_episode: it never reads tracking state
    raceLost: Entry -> bool,                 // another request inserted the synthetic row first
    parse: Entry -> Parse,                   // parse_filename
    agrees: (string, ShowRef) -> bool,       // names_agree
    normalize: string -> string)

  function MatchesOf(env: ImportEnv, show: nat, entries: seq<Entry>): (matches: seq<Option<nat>>)
    ensures |matches| == |entries| && forall i :: 0 <= i < |entries| ==> matches[i] == env.matchEntry(show, entries[i])
  {
    seq(|entries|, i requires 0 <= i < |entries| => env.matchEntry(show, entries[i]))
  }

  // ---- Splitting a directory ----

  /** None keeps the entry with the directory's show; otherwise the name it is split off under. */
  function SplitOff(env: ImportEnv, primary: ShowRef, e: Entry): Option<string> {
    if e.isDirectory then None
    else
      match env.parse(e)
      case ParseRaises => None
      case Parsed(llmOk, name) =>
        if !llmOk || name.None? || env.agrees(name.value, primary) then None else name
  }

  /** The entries whose key is `key`, in order. */
  function WithKey(entries: seq<Entry>, keyOf: Entry -> Option<string>, key: Option<string>): seq<Entry> {
    if entries == [] then []
    else WithKey(entries[..|entries| - 1], keyOf, key)
         + (if keyOf(entries[|entries| - 1]) == key then [entries[|entries| - 1]] else [])
  }

  /** One item of an insertion-ordered dictionary of lists. */
  datatype Group = Group(key: string, display: string, entries: seq<Entry>)

  /** `d.setdefault(key, []).append(e)`, the display name being kept from the first entry. */
  function AppendTo(groups: seq<Group>, key: string, display: string, e: Entry): seq<Group> {
    if groups == [] then [Group(key, display, [e])]
    else if groups[0].key == key then [groups[0].(entries := groups[0].entries + [e])] + groups[1..]
    else [groups[0]] + AppendTo(groups[1..], key, display, e)
  }

  lemma AppendMiss(groups: seq<Group>, key: string, display: string, e: Entry, i: nat)
    requires i < |groups| && groups[i].key != key
    ensures groups[..i] + AppendTo(groups[i..], key, display, e) == groups[..i + 1] + AppendTo(groups[i + 1..], key, display, e)
  {
    assert groups[i..][1..] == groups[i + 1..] && groups[..i + 1] == groups[..i] + [groups[i]];
  }

  lemma AppendHit(groups: seq<Group>, key: string, display: string, e: Entry, i: nat)
    requires i < |groups| && groups[i].key == key
    ensures groups[..i] + AppendTo(groups[i..], key, display, e) == groups[i := groups[i].(entries := groups[i].entries + [e])]
  {
    assert groups[i..][1..] == groups[i + 1..];
  }

  method Append(groups: seq<Group>, key: string, display: string, e: Entry) returns (extended: seq<Group>)
    ensures extended == AppendTo(groups, key, display, e)
  {
    hide AppendTo;
    assert groups[0..] == groups && groups[..0] == [];
    for i := 0 to |groups|
      invariant AppendTo(groups, key, display, e) == groups[..i] + AppendTo(groups[i..], key, display, e)
    {
      if groups[i].key == key {
        AppendHit(groups, key, display, e, i);
        extended := groups[i := groups[i].(entries := groups[i].entries + [e])];
        return;
      }
      AppendMiss(groups, key, display, e, i);
    }
    assert groups[..|groups|] == groups && groups[|groups|..] == [];
    AppendNew(key, display, e);
    extended := groups + [Group(key, display, [e])];
  }

  lemma AppendNew(key: string, display: string, e: Entry)
    ensures AppendTo([], key, display, e) == [Group(key, display, [e])]
  {
  }

  /** The dictionary built from all entries that have a name; `nameOf` is the display name, normalised into the key. */
  function Grouped(entries: seq<Entry>, nameOf: Entry -> Option<string>, normalize: string -> string): seq<Group> {
    if entries == [] then []
    else
      var before, e := Grouped(entries[..|entries| - 1], nameOf, normalize), entries[|entries| - 1];
      if nameOf(e).Some? then AppendTo(before, normalize(nameOf(e).value), nameOf(e).value, e) else before
  }

  function KeyOf(nameOf: Entry -> Option<string>, normalize: string -> string): Entry -> Option<string> {
    (e: Entry) => if nameOf(e).None? then None else Some(normalize(nameOf(e).value))
  }

  function NameOf(env: ImportEnv, primary: ShowRef): Entry -> Option<string> {
    (e: Entry) => SplitOff(env, primary, e)
  }

  /** The entries that stay with the directory's show. */
  function Kept(env: ImportEnv, primary: ShowRef, entries: seq<Entry>): seq<Entry> {
    if entries == [] then []
    else Kept(env, primary, entries[..|entries| - 1])
         + (if SplitOff(env, primary, entries[|entries| - 1]).None? then [entries[|entries| - 1]] else [])
  }

  // ---- What the split means for an entry ----

  /** The file's own name says it belongs to another show than its directory's. */
  ghost predicate Disagrees(env: ImportEnv, primary: ShowRef, e: Entry, name: string) {
    && !e.isDirectory && env.parse(e) == Parsed(true, Some(name)) && !env.agrees(name, primary)
  }

  /** An entry stays with its directory's show: a directory, or a file that does not name another show. */
  ghost predicate Stays(env: ImportEnv, primary: ShowRef, e: Entry) {
    || e.isDirectory || env.parse(e).ParseRaises? || !env.parse(e).llmOk || env.parse(e).showName.None?
    || env.agrees(env.parse(e).showName.value, primary)
  }

  lemma SplitOffMeans(env: ImportEnv, primary: ShowRef, e: Entry)
    ensures NameOf(env, primary)(e).None? <==> Stays(env, primary, e)
    ensures forall name :: NameOf(env, primary)(e) == Some(name) <==> Disagrees(env, primary, e, name)
  {
  }

  /** Every entry that stays is in `matched`, as often as it is listed, and nothing else is. */
  ghost predicate KeepsExactly(env: ImportEnv, primary: ShowRef, entries: seq<Entry>, matched: seq<Entry>) {
    forall e :: multiset(matched)[e] == if Stays(env, primary, e) then multiset(entries)[e] else 0
  }

  /** A split-off group: its files name another show that normalises to its key, and it is shown under the first one's name. */
  ghost predicate NamedGroup(env: ImportEnv, primary: ShowRef, entries: seq<Entry>, g: Group) {
    && g.entries != [] && Disagrees(env, primary, g.entries[0], g.display)
    && forall e :: multiset(g.entries)[e]
         == if exists name :: Disagrees(env, primary, e, name) && env.normalize(name) == g.key then multiset(entries)[e] else 0
  }

  ghost predicate SplitsExactly(env: ImportEnv, primary: ShowRef, entries: seq<Entry>, groups: seq<Group>) {
    && Distinct(Keys(groups))
    && (forall g :: g in groups ==> NamedGroup(env, primary, entries, g))
    && forall e, name :: e in entries && Disagrees(env, primary, e, name) ==> env.normalize(name) in Keys(groups)
  }

  lemma {:induction false} KeptExactly(env: ImportEnv, primary: ShowRef, entries: seq<Entry>)
    ensures KeepsExactly(env, primary, entries, Kept(env, primary, entries))
  {
    if entries != [] {
      var before, last := entries[..|entries| - 1], entries[|entries| - 1];
      KeptExactly(env, primary, before);
      assert entries == before + [last];
      SplitOffMeans(env, primary, last);
    }
  }

  lemma {:induction false} WithKeyExactly(entries: seq<Entry>, keyOf: Entry -> Option<string>, key: Option<string>)
    ensures forall e :: multiset(WithKey(entries, keyOf, key))[e] == if keyOf(e) == key then multiset(entries)[e] else 0
  {
    if entries != [] {
      var before, last := entries[..|entries| - 1], entries[|entries| - 1];
      WithKeyExactly(before, keyOf, key);
      assert entries == before + [last];
    }
  }

  /** Each group is shown under the name of its first entry. */
  ghost predicate ShownAsFirst(groups: seq<Group>, nameOf: Entry -> Option<string>) {
    forall i :: 0 <= i < |groups| ==> groups[i].entries != [] && nameOf(groups[i].entries[0]) == Some(groups[i].display)
  }

  lemma {:induction false} AppendKeepsShown(groups: seq<Group>, key: string, display: string, e: Entry, nameOf: Entry -> Option<string>)
    requires ShownAsFirst(groups, nameOf) && nameOf(e) == Some(display)
    ensures ShownAsFirst(AppendTo(groups, key, display, e), nameOf)
  {
    if groups != [] && groups[0].key != key {
      AppendKeepsShown(groups[1..], key, display, e, nameOf);
    }
  }

  lemma {:induction false} GroupedShown(entries: seq<Entry>, nameOf: Entry -> Option<string>, normalize: string -> string)
    ensures ShownAsFirst(Grouped(entries, nameOf, normalize), nameOf)
  {
    if entries != [] {
      var before, e := entries[..|entries| - 1], entries[|entries| - 1];
      GroupedShown(before, nameOf, normalize);
      if nameOf(e).Some? {
        AppendKeepsShown(Grouped(before, nameOf, normalize), normalize(nameOf(e).value), nameOf(e).value, e, nameOf);
      }
    }
  }

  lemma GroupIsNamed(env: ImportEnv, primary: ShowRef, entries: seq<Entry>, g: Group)
    requires InGroup(g, entries, KeyOf(NameOf(env, primary), env.normalize))
    requires NameOf(env, primary)(g.entries[0]) == Some(g.display)
    ensures NamedGroup(env, primary, entries, g)
  {
    var keyOf := KeyOf(NameOf(env, primary), env.normalize);
    WithKeyExactly(entries, keyOf, Some(g.key));
    SplitOffMeans(env, primary, g.entries[0]);
    forall e ensures keyOf(e) == Some(g.key) <==> exists name :: Disagrees(env, primary, e, name) && env.normalize(name) == g.key {
      SplitOffMeans(env, primary, e);
      if keyOf(e) == Some(g.key) {
        assert Disagrees(env, primary, e, NameOf(env, primary)(e).value);
      }
    }
  }

  /** The split of a directory, by what each file names. */
  lemma SplitMeans(env: ImportEnv, primary: ShowRef, entries: seq<Entry>)
    ensures KeepsExactly(env, primary, entries, Kept(env, primary, entries))
    ensures SplitsExactly(env, primary, entries, Grouped(entries, NameOf(env, primary), env.normalize))
  {
    hide NamedGroup, KeepsExactly, Disagrees, Stays;
    var nameOf := NameOf(env, primary);
    var groups := Grouped(entries, nameOf, env.normalize);
    KeptExactly(env, primary, entries);
    GroupedIsGroupsOf(entries, nameOf, env.normalize);
    GroupedShown(entries, nameOf, env.normalize);
    forall g | g in groups ensures NamedGroup(env, primary, entries, g) {
      GroupIsNamed(env, primary, entries, g);
    }
    forall e, name | e in entries && Disagrees(env, primary, e, name) ensures env.normalize(name) in Keys(groups) {
      SplitOffMeans(env, primary, e);
      assert KeyOf(nameOf, env.normalize)(e) == Some(env.normalize(name));
    }
  }

  method SplitEntries(env: ImportEnv, primary: ShowRef, entries: seq<Entry>) returns (matched: seq<Entry>, mismatched: seq<Group>)
    ensures matched == Kept(env, primary, entries)
    ensures mismatched == Grouped(entries, NameOf(env, primary), env.normalize)
    // A file leaves its directory's show exactly when it clearly names another one.
    ensures KeepsExactly(env, primary, entries, matched) && SplitsExactly(env, primary, entries, mismatched)
  {
    SplitMeans(env, primary, entries);
    matched, mismatched := [], [];
    for i := 0 to |entries|
      invariant matched == Kept(env, primary, entries[..i])
      invariant mismatched == Grouped(entries[..i], NameOf(env, primary), env.normalize)
    {
      assert entries[..i + 1][..i] == entries[..i];
      var name := SplitOff(env, primary, entries[i]);
      if name.None? {
        matched := matched + [entries[i]];
      } else {
        mismatched := Append(mismatched, env.normalize(name.value), name.value, entries[i]);
      }
    }
    assert entries[..|entries|] == entries;
  }

  function ShowDirOf(): Entry -> Option<string> {
    (e: Entry) => Some(e.showDir)
  }

  /** `group_by_show`: the directories in the order they are first met. */
  function Directories(entries: seq<Entry>): seq<Group> {
    Grouped(entries, ShowDirOf(), (key: string) => key)
  }

  /** The group holds every entry of its directory, as often as it is listed, and is shown under its name. */
  ghost predicate DirectoryGroup(entries: seq<Entry>, g: Group) {
    && g.display == g.key && g.entries != []
    && forall e :: multiset(g.entries)[e] == if e.showDir == g.key then multiset(entries)[e] else 0
  }

  /** One group for each directory of the listing. */
  ghost predicate GroupsByDirectory(entries: seq<Entry>, groups: seq<Group>) {
    && Distinct(Keys(groups))
    && (forall g :: g in groups ==> DirectoryGroup(entries, g))
    && forall e :: e in entries ==> e.showDir in Keys(groups)
  }

  lemma DirectoriesMean(entries: seq<Entry>)
    ensures GroupsByDirectory(entries, Directories(entries))
  {
    var groups := Directories(entries);
    var keyOf := KeyOf(ShowDirOf(), (key: string) => key);
    GroupedIsGroupsOf(entries, ShowDirOf(), (key: string) => key);
    GroupedShown(entries, ShowDirOf(), (key: string) => key);
    forall g | g in groups ensures DirectoryGroup(entries, g) {
      WithKeyExactly(entries, keyOf, Some(g.key));
      assert InGroup(g, entries, keyOf);
      var i :| 0 <= i < |groups| && groups[i] == g;
      FirstHasKey(entries, keyOf, Some(g.key));
      assert g.entries[0] in WithKey(entries, keyOf, Some(g.key));
      assert ShowDirOf()(groups[i].entries[0]) == Some(groups[i].display);
    }
  }

  lemma {:induction false} FirstHasKey(entries: seq<Entry>, keyOf: Entry -> Option<string>, key: Option<string>)
    ensures forall e :: e in WithKey(entries, keyOf, key) ==> keyOf(e) == key
  {
    if entries != [] {
      FirstHasKey(entries[..|entries| - 1], keyOf, key);
    }
  }

  method GroupByShow(entries: seq<Entry>) returns (groups: seq<Group>)
    ensures groups == Directories(entries)
    ensures GroupsByDirectory(entries, groups)
  {
    hide GroupsByDirectory;
    DirectoriesMean(entries);
    groups := [];
    for i := 0 to |entries|
      invariant groups == Directories(entries[..i])
    {
      assert entries[..i + 1][..i] == entries[..i];
      groups := Append(groups, entries[i].showDir, entries[i].showDir, entries[i]);
    }
    assert entries[..|entries|] == entries;
  }

  // ---- Every entry lands in exactly one group ----

  /** The dictionary holds, under each key met, exactly the entries with that key, in order. */
  ghost predicate GroupsOf(groups: seq<Group>, entries: seq<Entry>, keyOf: Entry -> Option<string>) {
    && Distinct(Keys(groups))
    && (forall g :: g in groups ==> InGroup(g, entries, keyOf))
    && (forall e :: e in entries && keyOf(e).Some? ==> keyOf(e).value in Keys(groups))
  }

  ghost predicate InGroup(g: Group, entries: seq<Entry>, keyOf: Entry -> Option<string>) {
    g.entries != [] && g.entries == WithKey(entries, keyOf, Some(g.key))
  }

  function Keys(groups: seq<Group>): (keys: seq<string>)
    ensures |keys| == |groups| && forall i :: 0 <= i < |groups| ==> keys[i] == groups[i].key
  {
    seq(|groups|, i requires 0 <= i < |groups| => groups[i].key)
  }

  /** One append extends the first list under the key, or adds a new last item. */
  lemma {:induction false} AppendAt(groups: seq<Group>, key: string, display: string, e: Entry, i: nat)
    requires i <= |groups| && (i < |groups| ==> groups[i].key == key)
    requires forall j :: 0 <= j < i ==> groups[j].key != key
    ensures AppendTo(groups, key, display, e) ==
            if i < |groups| then groups[i := groups[i].(entries := groups[i].entries + [e])]
            else groups + [Group(key, display, [e])]
  {
    if i > 0 {
      AppendAt(groups[1..], key, display, e, i - 1);
    }
  }

  /** Where a key is first met. */
  function FirstWith(entries: seq<Entry>, keyOf: Entry -> Option<string>, key: string): (at: nat)
    ensures at <= |entries| && forall i :: 0 <= i < at ==> keyOf(entries[i]) != Some(key)
    ensures at < |entries| ==> keyOf(entries[at]) == Some(key)
  {
    if entries == [] then 0
    else if FirstWith(entries[..|entries| - 1], keyOf, key) < |entries| - 1 then FirstWith(entries[..|entries| - 1], keyOf, key)
    else if keyOf(entries[|entries| - 1]) == Some(key) then |entries| - 1
    else |entries|
  }

  lemma FirstWithStep(entries: seq<Entry>, e: Entry, keyOf: Entry -> Option<string>, key: string)
    ensures var at := FirstWith(entries, keyOf, key);
            FirstWith(entries + [e], keyOf, key) == if at < |entries| || keyOf(e) == Some(key) then at else |entries| + 1
  {
    assert (entries + [e])[..|entries|] == entries;
  }

  /** The groups come in the order in which their keys are first met. */
  ghost predicate InOrderMet(groups: seq<Group>, entries: seq<Entry>, keyOf: Entry -> Option<string>) {
    forall i, j :: 0 <= i < j < |groups| ==>
      FirstWith(entries, keyOf, groups[i].key) < FirstWith(entries, keyOf, groups[j].key) < |entries|
  }

  ghost predicate AllMet(groups: seq<Group>, entries: seq<Entry>, keyOf: Entry -> Option<string>) {
    forall i :: 0 <= i < |groups| ==> FirstWith(entries, keyOf, groups[i].key) < |entries|
  }

  /** One more entry leaves the groups where they are. */
  lemma MetStay(groups: seq<Group>, entries: seq<Entry>, keyOf: Entry -> Option<string>, e: Entry)
    requires InOrderMet(groups, entries, keyOf) && AllMet(groups, entries, keyOf)
    ensures InOrderMet(groups, entries + [e], keyOf) && AllMet(groups, entries + [e], keyOf)
  {
    hide FirstWith;
    forall i | 0 <= i < |groups| ensures FirstWith(entries + [e], keyOf, groups[i].key) == FirstWith(entries, keyOf, groups[i].key) {
      FirstWithStep(entries, e, keyOf, groups[i].key);
    }
  }

  lemma NewIsLast(groups: seq<Group>, entries: seq<Entry>, keyOf: Entry -> Option<string>, e: Entry, g: Group)
    requires InOrderMet(groups, entries + [e], keyOf) && AllMet(groups, entries, keyOf)
    requires keyOf(e) == Some(g.key) && FirstWith(entries, keyOf, g.key) == |entries|
    ensures InOrderMet(groups + [g], entries + [e], keyOf) && AllMet(groups + [g], entries + [e], keyOf)
  {
    hide FirstWith;
    FirstWithStep(entries, e, keyOf, g.key);
    forall i | 0 <= i < |groups| ensures FirstWith(entries + [e], keyOf, groups[i].key) < |entries| {
      FirstWithStep(entries, e, keyOf, groups[i].key);
    }
    LastInOrder(groups, entries + [e], keyOf, g);
  }

  lemma LastInOrder(groups: seq<Group>, entries: seq<Entry>, keyOf: Entry -> Option<string>, g: Group)
    requires InOrderMet(groups, entries, keyOf) && FirstWith(entries, keyOf, g.key) < |entries|
    requires forall i :: 0 <= i < |groups| ==> FirstWith(entries, keyOf, groups[i].key) < FirstWith(entries, keyOf, g.key)
    ensures InOrderMet(groups + [g], entries, keyOf) && AllMet(groups + [g], entries, keyOf)
  {
    hide FirstWith;
  }

  lemma AppendInOrder(groups: seq<Group>, entries: seq<Entry>, keyOf: Entry -> Option<string>, key: string, display: string, e: Entry)
    requires GroupsOf(groups, entries, keyOf) && InOrderMet(groups, entries, keyOf) && AllMet(groups, entries, keyOf) && keyOf(e) == Some(key)
    ensures InOrderMet(AppendTo(groups, key, display, e), entries + [e], keyOf) && AllMet(AppendTo(groups, key, display, e), entries + [e], keyOf)
  {
    hide FirstWith, InGroup, AppendTo;
    MetStay(groups, entries, keyOf, e);
    if key in Keys(groups) {
      var i :| 0 <= i < |groups| && Keys(groups)[i] == key;
      AppendAt(groups, key, display, e, i);
    } else {
      assert forall j :: 0 <= j < |groups| ==> groups[j].key == Keys(groups)[j];
      AppendAt(groups, key, display, e, |groups|);
      NotMet(groups, entries, keyOf, key);
      NewIsLast(groups, entries, keyOf, e, Group(key, display, [e]));
    }
  }

  lemma MetEntry(entries: seq<Entry>, keyOf: Entry -> Option<string>, key: string)
    ensures FirstWith(entries, keyOf, key) < |entries| ==> exists e :: e in entries && keyOf(e) == Some(key)
  {
    var at := FirstWith(entries, keyOf, key);
    if at < |entries| {
      assert entries[at] in entries;
    }
  }

  lemma NotMet(groups: seq<Group>, entries: seq<Entry>, keyOf: Entry -> Option<string>, key: string)
    requires GroupsOf(groups, entries, keyOf) && key !in Keys(groups)
    ensures FirstWith(entries, keyOf, key) == |entries|
  {
    MetEntry(entries, keyOf, key);
  }

  lemma {:induction false} GroupedInOrder(entries: seq<Entry>, nameOf: Entry -> Option<string>, normalize: string -> string)
    ensures var groups, keyOf := Grouped(entries, nameOf, normalize), KeyOf(nameOf, normalize);
            InOrderMet(groups, entries, keyOf) && AllMet(groups, entries, keyOf)
  {
    var keyOf := KeyOf(nameOf, normalize);
    if entries != [] {
      var rest, e := entries[..|entries| - 1], entries[|entries| - 1];
      GroupedInOrder(rest, nameOf, normalize);
      GroupedIsGroupsOf(rest, nameOf, normalize);
      assert entries == rest + [e];
      if nameOf(e).Some? {
        AppendInOrder(Grouped(rest, nameOf, normalize), rest, keyOf, keyOf(e).value, nameOf(e).value, e);
      } else {
        MetStay(Grouped(rest, nameOf, normalize), rest, keyOf, e);
      }
    }
  }

  lemma {:induction false} EmptyWithKey(entries: seq<Entry>, keyOf: Entry -> Option<string>, key: Option<string>)
    requires forall e :: e in entries ==> keyOf(e) != key
    ensures WithKey(entries, keyOf, key) == []
  {
    if entries != [] {
      EmptyWithKey(entries[..|entries| - 1], keyOf, key);
      assert entries[|entries| - 1] in entries;
    }
  }

  lemma {:induction false} GroupedIsGroupsOf(entries: seq<Entry>, nameOf: Entry -> Option<string>, normalize: string -> string)
    ensures GroupsOf(Grouped(entries, nameOf, normalize), entries, KeyOf(nameOf, normalize))
  {
    var keyOf := KeyOf(nameOf, normalize);
    if entries != [] {
      var rest, e := entries[..|entries| - 1], entries[|entries| - 1];
      GroupedIsGroupsOf(rest, nameOf, normalize);
      assert entries == rest + [e];
      if nameOf(e).Some? {
        AppendedIsGroupsOf(Grouped(rest, nameOf, normalize), rest, keyOf, keyOf(e).value, nameOf(e).value, e);
      }
    }
  }

  lemma WithKeyStep(entries: seq<Entry>, e: Entry, keyOf: Entry -> Option<string>, key: Option<string>)
    ensures WithKey(entries + [e], keyOf, key) == if keyOf(e) == key then WithKey(entries, keyOf, key) + [e] else WithKey(entries, keyOf, key)
  {
    var all := entries + [e];
    assert all[..|all| - 1] == entries;
    assert WithKey(entries, keyOf, key) + [] == WithKey(entries, keyOf, key);
  }

  /** A group keeps its entries, and gets the new one if it has its key. */
  lemma InGroupStep(g: Group, entries: seq<Entry>, keyOf: Entry -> Option<string>, e: Entry)
    requires InGroup(g, entries, keyOf)
    ensures InGroup(if keyOf(e) == Some(g.key) then g.(entries := g.entries + [e]) else g, entries + [e], keyOf)
  {
    WithKeyStep(entries, e, keyOf, Some(g.key));
  }

  lemma ExtendedIsGroupsOf(groups: seq<Group>, entries: seq<Entry>, keyOf: Entry -> Option<string>, e: Entry, i: nat)
    requires GroupsOf(groups, entries, keyOf) && i < |groups| && keyOf(e) == Some(groups[i].key)
    ensures GroupsOf(groups[i := groups[i].(entries := groups[i].entries + [e])], entries + [e], keyOf)
  {
    hide InGroup;
    var extended := groups[i := groups[i].(entries := groups[i].entries + [e])];
    assert Keys(extended) == Keys(groups) && Keys(groups)[i] == groups[i].key;
    forall j | 0 <= j < |extended| ensures InGroup(extended[j], entries + [e], keyOf) {
      assert groups[j] in groups && Keys(groups)[j] == groups[j].key;
      InGroupStep(groups[j], entries, keyOf, e);
    }
  }

  lemma AddedIsGroupsOf(groups: seq<Group>, entries: seq<Entry>, keyOf: Entry -> Option<string>, key: string, display: string, e: Entry)
    requires GroupsOf(groups, entries, keyOf) && keyOf(e) == Some(key) && key !in Keys(groups)
    requires InGroup(Group(key, display, [e]), entries + [e], keyOf)
    ensures GroupsOf(groups + [Group(key, display, [e])], entries + [e], keyOf)
  {
    hide InGroup;
    var extended := groups + [Group(key, display, [e])];
    assert Keys(extended) == Keys(groups) + [key];
    forall j | 0 <= j < |extended| ensures InGroup(extended[j], entries + [e], keyOf) {
      if j < |groups| {
        assert groups[j] in groups && Keys(groups)[j] == groups[j].key;
        InGroupStep(groups[j], entries, keyOf, e);
      }
    }
  }

  lemma AppendedIsGroupsOf(groups: seq<Group>, entries: seq<Entry>, keyOf: Entry -> Option<string>, key: string, display: string, e: Entry)
    requires GroupsOf(groups, entries, keyOf) && keyOf(e) == Some(key)
    ensures GroupsOf(AppendTo(groups, key, display, e), entries + [e], keyOf)
  {
    if key in Keys(groups) {
      var i :| 0 <= i < |groups| && Keys(groups)[i] == key;
      AppendAt(groups, key, display, e, i);
      ExtendedIsGroupsOf(groups, entries, keyOf, e, i);
    } else {
      assert forall j :: 0 <= j < |groups| ==> groups[j].key == Keys(groups)[j];
      AppendAt(groups, key, display, e, |groups|);
      EmptyWithKey(entries, keyOf, Some(key));
      WithKeyStep(entries, e, keyOf, Some(key));
      AddedIsGroupsOf(groups, entries, keyOf, key, display, e);
    }
  }

  function SizesByKey(entries: seq<Entry>, keyOf: Entry -> Option<string>, keys: seq<string>): (sizes: seq<nat>)
    ensures |sizes| == |keys|
    ensures forall i :: 0 <= i < |keys| ==> sizes[i] == |WithKey(entries, keyOf, Some(keys[i]))|
  {
    seq(|keys|, i requires 0 <= i < |keys| => |WithKey(entries, keyOf, Some(keys[i]))|)
  }

  lemma SizesStep(entries: seq<Entry>, e: Entry, keyOf: Entry -> Option<string>, keys: seq<string>, i: nat)
    requires Distinct(keys) && i < |keys| && keyOf(e) == Some(keys[i])
    ensures var before := SizesByKey(entries, keyOf, keys);
            SizesByKey(entries + [e], keyOf, keys) == before[i := before[i] + 1]
  {
    assert (entries + [e])[..|entries|] == entries;
  }

  lemma NoKeyStep(entries: seq<Entry>, e: Entry, keyOf: Entry -> Option<string>, keys: seq<string>)
    ensures keyOf(e).None? ==> SizesByKey(entries + [e], keyOf, keys) == SizesByKey(entries, keyOf, keys)
    ensures |WithKey(entries + [e], keyOf, None)| == |WithKey(entries, keyOf, None)| + if keyOf(e).None? then 1 else 0
  {
    assert (entries + [e])[..|entries|] == entries;
  }

  lemma {:induction false} KeysPartition(entries: seq<Entry>, keyOf: Entry -> Option<string>, keys: seq<string>)
    requires Distinct(keys) && forall e :: e in entries && keyOf(e).Some? ==> keyOf(e).value in keys
    ensures |WithKey(entries, keyOf, None)| + Sum(SizesByKey(entries, keyOf, keys)) == |entries|
  {
    hide WithKey, SizesByKey, Sum;
    if entries == [] {
      NoSizes(keyOf, keys);
    } else {
      var rest, e := entries[..|entries| - 1], entries[|entries| - 1];
      assert entries == rest + [e] && e in entries;
      KeysPartition(rest, keyOf, keys);
      NoKeyStep(rest, e, keyOf, keys);
      if keyOf(e).Some? {
        var i :| 0 <= i < |keys| && keys[i] == keyOf(e).value;
        var before := SizesByKey(rest, keyOf, keys);
        SizesStep(rest, e, keyOf, keys, i);
        SumUpdate(before, i, before[i] + 1);
      }
    }
  }

  lemma NoSizes(keyOf: Entry -> Option<string>, keys: seq<string>)
    ensures WithKey([], keyOf, None) == [] && Sum(SizesByKey([], keyOf, keys)) == 0
  {
    SumZero(SizesByKey([], keyOf, keys));
  }

  function Sizes(groups: seq<Group>): (sizes: seq<nat>)
    ensures |sizes| == |groups| && forall i :: 0 <= i < |groups| ==> sizes[i] == |groups[i].entries|
  {
    seq(|groups|, i requires 0 <= i < |groups| => |groups[i].entries|)
  }

  lemma GroupsPartition(groups: seq<Group>, entries: seq<Entry>, keyOf: Entry -> Option<string>)
    requires GroupsOf(groups, entries, keyOf)
    ensures |WithKey(entries, keyOf, None)| + Sum(Sizes(groups)) == |entries|
  {
    KeysPartition(entries, keyOf, Keys(groups));
    forall i | 0 <= i < |groups| ensures Sizes(groups)[i] == SizesByKey(entries, keyOf, Keys(groups))[i] {
      assert groups[i] in groups;
    }
    assert Sizes(groups) == SizesByKey(entries, keyOf, Keys(groups));
  }

  lemma {:induction false} KeptHasNoKey(env: ImportEnv, primary: ShowRef, entries: seq<Entry>, keyOf: Entry -> Option<string>)
    requires forall e :: keyOf(e).None? <==> SplitOff(env, primary, e).None?
    ensures Kept(env, primary, entries) == WithKey(entries, keyOf, None)
  {
    if entries != [] {
      KeptHasNoKey(env, primary, entries[..|entries| - 1], keyOf);
    }
  }

  /** Each entry of a directory is kept or in one split-off group, under its own normalised name. */
  lemma SplitPartition(env: ImportEnv, primary: ShowRef, entries: seq<Entry>)
    ensures var keyOf := KeyOf(NameOf(env, primary), env.normalize);
            var groups := Grouped(entries, NameOf(env, primary), env.normalize);
            && GroupsOf(groups, entries, keyOf) && InOrderMet(groups, entries, keyOf)
            && Kept(env, primary, entries) == WithKey(entries, keyOf, None)
            && |Kept(env, primary, entries)| + Sum(Sizes(groups)) == |entries|
  {
    var nameOf := NameOf(env, primary);
    var keyOf := KeyOf(nameOf, env.normalize);
    GroupedIsGroupsOf(entries, nameOf, env.normalize);
    GroupedInOrder(entries, nameOf, env.normalize);
    KeptHasNoKey(env, primary, entries, keyOf);
    GroupsPartition(Grouped(entries, nameOf, env.normalize), entries, keyOf);
  }

  /** Each entry is in the group of its own directory. */
  lemma DirectoriesPartition(entries: seq<Entry>)
    ensures GroupsOf(Directories(entries), entries, KeyOf(ShowDirOf(), (key: string) => key))
    ensures InOrderMet(Directories(entries), entries, KeyOf(ShowDirOf(), (key: string) => key))
    ensures Sum(Sizes(Directories(entries))) == |entries|
  {
    var keyOf := KeyOf(ShowDirOf(), (key: string) => key);
    GroupedIsGroupsOf(entries, ShowDirOf(), (key: string) => key);
    GroupedInOrder(entries, ShowDirOf(), (key: string) => key);
    GroupsPartition(Directories(entries), entries, keyOf);
    EmptyWithKey(entries, keyOf, None);
  }

  // ---- What a real run writes ----

  /** Episodes by id, and the synthetic file rows by path with the episode each was made for. */
  datatype Store = Store(episodes: map<nat, Episode>, files: map<string, nat>)

  function TrackedIds(episodes: map<nat, Episode>): set<nat> {
    set id | id in episodes && episodes[id].tracked
  }

  /** `mark_episode_tracked` and `create_synthetic_import_file`: an existing row for the path is kept. */
  function WithTracked(store: Store, id: nat, path: string, raceLost: bool): Store {
    Store(store.episodes[id := Episode(true, Some(path), true)],
          if path in store.files || raceLost then store.files else store.files[path := id])
  }

  function StoreAfter(store: Store, entries: seq<Entry>, matches: seq<Option<nat>>, os: seq<Outcome>, raceLost: Entry -> bool, k: nat): Store
    requires k <= |entries| == |matches| == |os|
    requires forall i :: 0 <= i < |os| && os[i] == Tracked ==> matches[i].Some?
  {
    if k == 0 then store
    else
      var before := StoreAfter(store, entries, matches, os, raceLost, k - 1);
      if os[k - 1] == Tracked
      then WithTracked(before, matches[k - 1].value, entries[k - 1].rawPath, raceLost(entries[k - 1]))
      else before
  }

  lemma TrackedUpdate(episodes: map<nat, Episode>, id: nat, path: string)
    ensures TrackedIds(episodes[id := Episode(true, Some(path), true)]) == TrackedIds(episodes) + {id}
  {
  }

  /** What the first entries of a group leave of the episodes. */
  ghost predicate TracksExactly(before: map<nat, Episode>, after: map<nat, Episode>, newly: set<nat>) {
    && after.Keys == before.Keys
    && TrackedIds(after) == TrackedIds(before) + newly
    && forall id :: id in before && (id in TrackedIds(before) || id !in newly) ==> after[id] == before[id]
  }

  lemma TracksMore(before: map<nat, Episode>, after: map<nat, Episode>, newly: set<nat>, id: nat, path: string)
    requires TracksExactly(before, after, newly) && id in before && id !in TrackedIds(before)
    ensures TracksExactly(before, after[id := Episode(true, Some(path), true)], newly + {id})
  {
    TrackedUpdate(after, id, path);
  }

  lemma NewlySeen(matches: seq<Option<nat>>, claimed: set<nat>, tracked: set<nat>, k: nat)
    requires k < |matches|
    ensures OutcomeOf(matches, claimed, tracked, k) == Tracked ==>
      && matches[k].Some? && matches[k].value !in tracked
      && Seen(matches, k + 1) - claimed - tracked == (Seen(matches, k) - claimed - tracked) + {matches[k].value}
    ensures OutcomeOf(matches, claimed, tracked, k) != Tracked ==>
      Seen(matches, k + 1) - claimed - tracked == Seen(matches, k) - claimed - tracked
  {
    SeenStep(matches, k);
  }

  lemma TrackedIsMatched(matches: seq<Option<nat>>, claimed: set<nat>, tracked: set<nat>)
    ensures forall i :: 0 <= i < |matches| && Outcomes(matches, claimed, tracked)[i] == Tracked ==> matches[i].Some?
  {
  }

  lemma {:induction false} TrackingUpTo(store: Store, entries: seq<Entry>, matches: seq<Option<nat>>, claimed: set<nat>, raceLost: Entry -> bool, k: nat)
    requires k <= |entries| == |matches|
    requires forall i :: 0 <= i < |matches| && matches[i].Some? ==> matches[i].value in store.episodes
    ensures var tracked := TrackedIds(store.episodes);
            TracksExactly(store.episodes, StoreAfter(store, entries, matches, Outcomes(matches, claimed, tracked), raceLost, k).episodes,
                          Seen(matches, k) - claimed - tracked)
  {
    hide TrackedIds, Seen, OutcomeOf, TracksExactly;
    var tracked := TrackedIds(store.episodes);
    var os := Outcomes(matches, claimed, tracked);
    if k == 0 {
      NothingTracked(store.episodes, matches, claimed + tracked);
      assert Seen(matches, 0) - claimed - tracked == Seen(matches, 0) - (claimed + tracked);
    } else {
      TrackingUpTo(store, entries, matches, claimed, raceLost, k - 1);
      TrackedIsMatched(matches, claimed, tracked);
      NewlySeen(matches, claimed, tracked, k - 1);
      if os[k - 1] == Tracked {
        TracksMore(store.episodes, StoreAfter(store, entries, matches, os, raceLost, k - 1).episodes,
                   Seen(matches, k - 1) - claimed - tracked, matches[k - 1].value, entries[k - 1].rawPath);
      }
    }
  }

  lemma NothingTracked(episodes: map<nat, Episode>, matches: seq<Option<nat>>, known: set<nat>)
    ensures TracksExactly(episodes, episodes, Seen(matches, 0) - known)
  {
    assert Seen(matches, 0) == {};
  }

  /** Exactly the newly claimed episodes turn tracked; an episode tracked before keeps its whole row. */
  lemma TrackingAfter(store: Store, entries: seq<Entry>, matches: seq<Option<nat>>, claimed: set<nat>, raceLost: Entry -> bool, k: nat)
    requires k <= |entries| == |matches|
    requires forall i :: 0 <= i < |matches| && matches[i].Some? ==> matches[i].value in store.episodes
    ensures var tracked := TrackedIds(store.episodes);
            var after := StoreAfter(store, entries, matches, Outcomes(matches, claimed, tracked), raceLost, k).episodes;
            && after.Keys == store.episodes.Keys
            && TrackedIds(after) == tracked + (Seen(matches, k) - claimed)
            && forall id :: id in store.episodes && (id in tracked || id !in Seen(matches, k) - claimed) ==> after[id] == store.episodes[id]
  {
    hide TrackedIds, Seen, OutcomeOf, StoreAfter;
    TrackingUpTo(store, entries, matches, claimed, raceLost, k);
    var tracked := TrackedIds(store.episodes);
    assert tracked + (Seen(matches, k) - claimed - tracked) == tracked + (Seen(matches, k) - claimed);
  }

  /** Entry `i` is the first of the group on its episode. */
  predicate FirstOn(matches: seq<Option<nat>>, id: nat, i: nat) {
    i < |matches| && matches[i] == Some(id) && forall j :: 0 <= j < i ==> matches[j] != Some(id)
  }

  /** A newly tracked episode names the first file on it, and the import as its source. */
  lemma {:induction false} NewRows(store: Store, entries: seq<Entry>, matches: seq<Option<nat>>, claimed: set<nat>, raceLost: Entry -> bool, k: nat, id: nat, i: nat)
    requires k <= |entries| == |matches| && i < k && FirstOn(matches, id, i)
    requires forall i :: 0 <= i < |matches| && matches[i].Some? ==> matches[i].value in store.episodes
    requires id !in claimed && id !in TrackedIds(store.episodes)
    ensures var after := StoreAfter(store, entries, matches, Outcomes(matches, claimed, TrackedIds(store.episodes)), raceLost, k).episodes;
            id in after && after[id] == Episode(true, Some(entries[i].rawPath), true)
    decreases k
  {
    hide TrackedIds;
    var os := Outcomes(matches, claimed, TrackedIds(store.episodes));
    OutcomeMeans(matches, claimed, TrackedIds(store.episodes), k - 1);
    if k - 1 > i {
      NewRows(store, entries, matches, claimed, raceLost, k - 1, id, i);
      assert matches[k - 1] == Some(id) ==> Repeats(matches, claimed, k - 1);
    }
  }

  /** The insert of a synthetic file row, and whether another request wins it. */
  datatype Insert = Insert(path: string, episode: nat, lost: bool)

  /** One insert for each tracked entry. */
  function InsertsOf(entries: seq<Entry>, matches: seq<Option<nat>>, os: seq<Outcome>, raceLost: Entry -> bool, k: nat): seq<Insert>
    requires k <= |entries| == |matches| == |os|
    requires forall i :: 0 <= i < |os| && os[i] == Tracked ==> matches[i].Some?
  {
    if k == 0 then []
    else
      var before := InsertsOf(entries, matches, os, raceLost, k - 1);
      if os[k - 1] == Tracked then before + [Insert(entries[k - 1].rawPath, matches[k - 1].value, raceLost(entries[k - 1]))] else before
  }

  /** The file rows after some inserts: an existing row for the path is kept. */
  function Inserted(files: map<string, nat>, inserts: seq<Insert>): map<string, nat> {
    if inserts == [] then files
    else
      var before, last := Inserted(files, inserts[..|inserts| - 1]), inserts[|inserts| - 1];
      if last.path in before || last.lost then before else before[last.path := last.episode]
  }

  lemma InsertedStep(files: map<string, nat>, inserts: seq<Insert>, last: Insert)
    ensures var before := Inserted(files, inserts);
            Inserted(files, inserts + [last]) == if last.path in before || last.lost then before else before[last.path := last.episode]
  {
    assert (inserts + [last])[..|inserts|] == inserts;
  }

  lemma {:induction false} InsertedConcat(files: map<string, nat>, a: seq<Insert>, b: seq<Insert>)
    ensures Inserted(files, a + b) == Inserted(Inserted(files, a), b)
  {
    if b == [] {
      assert a + b == a;
    } else {
      var before, last := b[..|b| - 1], b[|b| - 1];
      InsertedConcat(files, a, before);
      InsertedStep(files, a + before, last);
      assert a + b == (a + before) + [last];
    }
  }

  /** No insert is lost, no path is known before, and no path comes twice. */
  ghost predicate AllNew(files: map<string, nat>, inserts: seq<Insert>) {
    && (forall i :: 0 <= i < |inserts| ==> !inserts[i].lost && inserts[i].path !in files)
    && forall i, j :: 0 <= i < j < |inserts| ==> inserts[i].path != inserts[j].path
  }

  lemma {:induction false} InsertedOrigin(files: map<string, nat>, inserts: seq<Insert>)
    ensures var after := Inserted(files, inserts);
            && (forall path :: path in files ==> path in after && after[path] == files[path])
            && (forall path :: path in after && path !in files ==>
                  exists i :: 0 <= i < |inserts| && inserts[i].path == path && !inserts[i].lost && after[path] == inserts[i].episode)
            && (forall i :: 0 <= i < |inserts| && !inserts[i].lost ==> inserts[i].path in after)
  {
    if inserts != [] {
      var before, last := inserts[..|inserts| - 1], inserts[|inserts| - 1];
      InsertedOrigin(files, before);
      assert inserts == before + [last];
    }
  }

  lemma AllNewStep(files: map<string, nat>, before: seq<Insert>, last: Insert)
    ensures AllNew(files, before + [last]) <==>
            AllNew(files, before) && !last.lost && last.path !in files && forall i :: 0 <= i < |before| ==> before[i].path != last.path
  {
    var all := before + [last];
    assert all[..|before|] == before && all[|before|] == last;
    if AllNew(files, all) {
      assert forall i :: 0 <= i < |before| ==> before[i] == all[i];
    }
  }

  /** There is one new row per insert exactly when all of them are new; rows are never changed. */
  lemma {:induction false} InsertedExactly(files: map<string, nat>, inserts: seq<Insert>)
    ensures |Inserted(files, inserts)| <= |files| + |inserts|
    ensures |Inserted(files, inserts)| == |files| + |inserts| <==> AllNew(files, inserts)
  {
    if inserts != [] {
      var before, last := inserts[..|inserts| - 1], inserts[|inserts| - 1];
      assert inserts == before + [last];
      InsertedExactly(files, before);
      InsertedOrigin(files, before);
      AllNewStep(files, before, last);
    }
  }

  /** The rows a group leaves are those of its inserts, one for each tracked entry. */
  lemma {:induction false} FilesAfter(store: Store, entries: seq<Entry>, matches: seq<Option<nat>>, os: seq<Outcome>, raceLost: Entry -> bool, k: nat)
    requires k <= |entries| == |matches| == |os|
    requires forall i :: 0 <= i < |os| && os[i] == Tracked ==> matches[i].Some?
    ensures StoreAfter(store, entries, matches, os, raceLost, k).files == Inserted(store.files, InsertsOf(entries, matches, os, raceLost, k))
    ensures |InsertsOf(entries, matches, os, raceLost, k)| == Count(os, Tracked, k)
  {
    if k > 0 {
      FilesAfter(store, entries, matches, os, raceLost, k - 1);
      if os[k - 1] == Tracked {
        InsertedStep(store.files, InsertsOf(entries, matches, os, raceLost, k - 1),
                     Insert(entries[k - 1].rawPath, matches[k - 1].value, raceLost(entries[k - 1])));
      }
    }
  }

  /** A group makes one file row per tracked episode exactly when every tracked path is new and no insert is lost. */
  lemma OneRowPerTracked(store: Store, entries: seq<Entry>, matches: seq<Option<nat>>, os: seq<Outcome>, raceLost: Entry -> bool, k: nat)
    requires k <= |entries| == |matches| == |os|
    requires forall i :: 0 <= i < |os| && os[i] == Tracked ==> matches[i].Some?
    ensures |StoreAfter(store, entries, matches, os, raceLost, k).files| == |store.files| + Count(os, Tracked, k)
            <==> AllNew(store.files, InsertsOf(entries, matches, os, raceLost, k))
  {
    FilesAfter(store, entries, matches, os, raceLost, k);
    InsertedExactly(store.files, InsertsOf(entries, matches, os, raceLost, k));
  }
}
