/**
 The decision made for one file of a parse run, and its dry-run preview.

 Every awaited call that can raise is chosen by a `FileEnv`; so are the answers of the services. The
 event sink swallows its own failures.
 */
module Parse {
  import opened Common
  import opened Files

  datatype Episode = Episode(id: nat, season: int, number: int, absolute: Option<int>)

  /** `groupMap` is None when the show's episode groups were never fetched. */
  datatype Show = Show(id: nat, isMovie: bool, groupMap: Option<map<(int, int), (int, int)>>)

  datatype Parsed = Parsed(
    showName: Option<string>,
    season: Option<int>,
    episode: Option<int>,
    isMovie: bool,
    confidence: real,
    llmOk: bool)

  /** The awaits of one file that can raise; look-ups and guesses have a first and a second attempt. */
  datatype Call = ParseName | FindShow | LookUp(attempt: nat) | AskLlm(attempt: nat) | Refresh | Link | Report | Flush | LastFlush

  datatype Guess = Guess(ep: Option<Episode>, season: Option<int>, episode: Option<int>)

  /** A show after a refresh, which syncs its episodes and can fetch its episode groups anew. */
  datatype Refreshed = Refreshed(episodes: seq<Episode>, groupMap: Option<map<(int, int), (int, int)>>)

  datatype FileEnv = FileEnv(
    raises: Call -> bool,
    heuristic: Option<(int, int)>,      // heuristic_se
    parsed: Parsed,                     // parse_filename
    show: Option<Show>,                 // find_show_by_name for the parsed name
    seasonName: Option<int>,            // season_for_name for that name and show
    arcLabel: Option<string>,           // unmapped_arc_label for that name and show
    episodes: seq<Episode>,             // the show's episodes by id
    added: Option<Refreshed>,           // after a refresh that brought new episodes; None if it did not
    guess: nat -> Guess)                // llm_match_episode, by attempt

  datatype ParseOutcome = MatchedOutcome | UnmatchedOutcome | Failed | MatchedThenFailed | UnmatchedThenFailed

  datatype Answer<+T> = Raises | Gives(value: T)

  const CONFIDENCE_THRESHOLD := 0.7

  // ---- Episode look-ups ----

  ghost predicate IsNumbered(e: Episode, season: int, number: int) {
    e.season == season && e.number == number
  }

  /** The first episode by id with these numbers. */
  function FirstNumbered(eps: seq<Episode>, season: int, number: int): (ep: Option<Episode>)
    ensures ep.Some? ==> exists k :: 0 <= k < |eps| && eps[k] == ep.value && IsNumbered(ep.value, season, number)
                                     && forall j :: 0 <= j < k ==> !IsNumbered(eps[j], season, number)
    ensures ep.None? ==> forall e :: e in eps ==> !IsNumbered(e, season, number)
  {
    if eps == [] then None
    else if eps[0].season == season && eps[0].number == number then Some(eps[0])
    else FirstNumbered(eps[1..], season, number)
  }

  function FirstAbsolute(eps: seq<Episode>, number: int): (ep: Option<Episode>)
    ensures ep.Some? ==> exists k :: 0 <= k < |eps| && eps[k] == ep.value && ep.value.absolute == Some(number)
                                     && forall j :: 0 <= j < k ==> eps[j].absolute != Some(number)
    ensures ep.None? ==> forall e :: e in eps ==> e.absolute != Some(number)
  {
    if eps == [] then None
    else if eps[0].absolute == Some(number) then Some(eps[0])
    else FirstAbsolute(eps[1..], number)
  }

  /** `resolve_episode`: a known season allows no other; no season means an absolute number, then season 1. */
  function ResolveEpisode(eps: seq<Episode>, season: Option<int>, episode: Option<int>): Option<Episode> {
    if episode.None? then None
    else if season.Some? then FirstNumbered(eps, season.value, episode.value)
    else
      var ep := FirstAbsolute(eps, episode.value);
      if ep.Some? then ep else FirstNumbered(eps, 1, episode.value)
  }

  /** An episode that may stand for these numbers: of the season if one is known, else by absolute number or in season 1. */
  ghost predicate Answers(eps: seq<Episode>, season: Option<int>, episode: Option<int>, e: Episode) {
    && e in eps && episode.Some?
    && if season.Some? then e.season == season.value && e.number == episode.value
       else if exists a :: a in eps && a.absolute == episode then e.absolute == episode
       else e.season == 1 && e.number == episode.value
  }

  /** The look-up finds an episode exactly when one answers, and what it finds does: never another season than the known one. */
  lemma ResolveEpisodeExactly(eps: seq<Episode>, season: Option<int>, episode: Option<int>)
    ensures var ep := ResolveEpisode(eps, season, episode);
            && (ep.Some? <==> exists e :: Answers(eps, season, episode, e))
            && (ep.Some? ==> Answers(eps, season, episode, ep.value))
  {
    var ep := ResolveEpisode(eps, season, episode);
    if ep.Some? {
      assert Answers(eps, season, episode, ep.value);
    }
  }

  datatype Lookup = Lookup(ep: Option<Episode>, season: Option<int>, episode: Option<int>, renumbered: bool)

  /** The episode-group remap of a declared season. */
  function Remapped(show: Show, eps: seq<Episode>, season: int, episode: int): Option<Lookup> {
    if season > 1 && show.groupMap.Some? && (season, episode) in show.groupMap.value then
      var (s, e) := show.groupMap.value[(season, episode)];
      var ep := FirstNumbered(eps, s, e);
      if ep.None? then None else Some(Lookup(ep, Some(s), Some(e), true))
    else None
  }

  /** `resolve_with_season`: directly, then by the remap. */
  function ResolveWithSeason(show: Show, eps: seq<Episode>, season: int, episode: int): Option<Lookup> {
    var ep := FirstNumbered(eps, season, episode);
    if ep.Some? then Some(Lookup(ep, Some(season), Some(episode), true)) else Remapped(show, eps, season, episode)
  }

  // ---- The real run ----

  function Named(parsed: Parsed): Option<string> {
    if parsed.showName == Some("") then None else parsed.showName
  }

  function FoundShow(env: FileEnv): Option<Show> {
    if Named(env.parsed).Some? then env.show else None
  }

  /** A parsed 0 is a real value: only None falls back to the file name's numbers. */
  function Merged(parsed: Option<int>, heuristic: Option<int>): Option<int> {
    if parsed.Some? then parsed else heuristic
  }

  function SeasonOf(env: FileEnv): Option<int> {
    Merged(env.parsed.season, if env.heuristic.Some? then Some(env.heuristic.value.0) else None)
  }

  function EpisodeOf(env: FileEnv): Option<int> {
    Merged(env.parsed.episode, if env.heuristic.Some? then Some(env.heuristic.value.1) else None)
  }

  predicate Gated(env: FileEnv, llmActive: bool) {
    llmActive && env.parsed.llmOk && !env.parsed.isMovie && env.parsed.confidence < CONFIDENCE_THRESHOLD
  }

  function EpisodesAt(env: FileEnv, attempt: nat): seq<Episode> {
    if attempt == 0 || env.added.None? then env.episodes else env.added.value.episodes
  }

  /** The show as an attempt reads it. */
  function ShowAt(env: FileEnv, show: Show, attempt: nat): Show {
    if attempt == 0 || env.added.None? then show else show.(groupMap := env.added.value.groupMap)
  }

  /** The look-up by numbers. */
  function ByNumber(env: FileEnv, show: Show, attempt: nat, season: Option<int>, episode: Option<int>, remap: bool): Lookup {
    var eps := EpisodesAt(env, attempt);
    if remap && season.Some? && episode.Some? then
      ResolveWithSeason(ShowAt(env, show, attempt), eps, season.value, episode.value).GetOr(Lookup(None, season, episode, false))
    else Lookup(ResolveEpisode(eps, season, episode), season, episode, false)
  }

  /** The last resort: a title match, which may not leave the season a season name fixed. */
  function ByTitle(guess: Guess, season: Option<int>, episode: Option<int>, remap: bool): Lookup {
    if guess.ep.None? || (remap && season != Some(guess.ep.value.season)) then Lookup(None, season, episode, false)
    else Lookup(guess.ep, Merged(guess.season, season), Merged(guess.episode, episode), true)
  }

  function ResolveMatched(env: FileEnv, show: Show, attempt: nat, season: Option<int>, episode: Option<int>, llmActive: bool, remap: bool): Answer<Lookup> {
    if env.raises(LookUp(attempt)) then Raises
    else
      var found := ByNumber(env, show, attempt, season, episode, remap);
      if found.ep.Some? || !llmActive then Gives(found)
      else if env.raises(AskLlm(attempt)) then Raises
      else Gives(ByTitle(env.guess(attempt), season, episode, remap))
  }

  /** Whether a miss may refresh the show. */
  predicate MayRefresh(show: Show, hasRefresher: bool, refreshed: set<nat>) {
    hasRefresher && !show.isMovie && show.id !in refreshed
  }

  function Resolution(env: FileEnv, show: Show, season: Option<int>, episode: Option<int>, llmActive: bool, remap: bool,
      hasRefresher: bool, refreshed: set<nat>): Answer<Lookup>
  {
    var first := ResolveMatched(env, show, 0, season, episode, llmActive, remap);
    if first.Raises? || first.value.ep.Some? || !MayRefresh(show, hasRefresher, refreshed) then first
    else if env.raises(Refresh) then Raises
    else if env.added.None? then first
    else ResolveMatched(env, show, 1, first.value.season, first.value.episode, llmActive, remap)
  }

  function RefreshedAfter(env: FileEnv, show: Show, season: Option<int>, episode: Option<int>, llmActive: bool, remap: bool,
      hasRefresher: bool, refreshed: set<nat>): set<nat>
  {
    var first := ResolveMatched(env, show, 0, season, episode, llmActive, remap);
    if first.Gives? && first.value.ep.None? && MayRefresh(show, hasRefresher, refreshed) then refreshed + {show.id} else refreshed
  }

  /** The look-up's own numbers replace the parsed ones when it found an episode by other numbers. */
  function Renumbered(r: Row, found: Lookup): Row {
    if found.renumbered then r.(parsed := r.parsed.(parsedSeason := found.season, parsedEpisode := found.episode)) else r
  }

  function WithShow(r: Row, show: Show): Row {
    r.(parsed := r.parsed.(showId := Some(show.id)))
  }

  /** `link_file_to_episode` fills a missing season and never replaces one. */
  function WithEpisode(r: Row, ep: Option<Episode>): Row {
    if ep.None? then r.(parsed := r.parsed.(episodeId := None))
    else r.(parsed := r.parsed.(episodeId := Some(ep.value.id), parsedSeason := Merged(r.parsed.parsedSeason, Some(ep.value.season))))
  }

  /** The row once its episode is resolved. */
  function Linked(r: Row, show: Show, found: Lookup): Row {
    WithEpisode(Renumbered(WithShow(r, show), found), found.ep)
  }

  function Unresolved(show: Show, found: Lookup): bool {
    found.ep.None? && !show.isMovie
  }

  function Decided(linked: Row, show: Show, found: Lookup, llmActive: bool): Row {
    linked.(parsed := linked.parsed.(matchedBy := Some(if llmActive then ByLlm else ByHeuristic)),
            status := if Unresolved(show, found) then Unmatched else Matched,
            problem := if Unresolved(show, found) then Some(NoEpisode(found.season, found.episode)) else None)
  }

  /** A row and how its processing goes on: decided, or raised. */
  datatype Stage = Stage(row: Row, decided: Answer<ParseOutcome>)

  /** From the link to its episode on. */
  function Recorded(env: FileEnv, linked: Row, show: Show, found: Lookup, llmActive: bool): Stage {
    if found.ep.Some? && env.raises(Link) then Stage(linked, Raises)
    else
      var row := Decided(linked, show, found, llmActive);
      if env.raises(Report) then Stage(row, Raises)
      else Stage(row, Gives(if Unresolved(show, found) then UnmatchedOutcome else MatchedOutcome))
  }

  function Applied(env: FileEnv, r: Row, show: Show, season: Option<int>, episode: Option<int>, llmActive: bool, remap: bool,
      hasRefresher: bool, refreshed: set<nat>): Stage
  {
    var found := Resolution(env, show, season, episode, llmActive, remap, hasRefresher, refreshed);
    if found.Raises? then Stage(WithShow(r, show), Raises)
    else Recorded(env, Linked(r, show, found.value), show, found.value, llmActive)
  }

  function Left(r: Row, problem: Problem): Stage {
    Stage(r.(status := Unmatched, problem := Some(problem)), Gives(UnmatchedOutcome))
  }

  /** The row with the parsed numbers recorded. */
  function Noted(env: FileEnv, r: Row): Row {
    r.(parsed := r.parsed.(parsedSeason := SeasonOf(env), parsedEpisode := EpisodeOf(env)))
  }

  predicate TakesSeasonName(env: FileEnv) {
    SeasonOf(env).None? && FoundShow(env).Some?
  }

  /** The season looked up, and whether a season name supplied it. */
  function SeasonUsed(env: FileEnv): Option<int> {
    if TakesSeasonName(env) then env.seasonName else SeasonOf(env)
  }

  predicate BySeasonName(env: FileEnv) {
    TakesSeasonName(env) && env.seasonName.Some?
  }

  function WithSeasonName(env: FileEnv, r: Row): Row {
    if BySeasonName(env) then r.(parsed := r.parsed.(parsedSeason := env.seasonName)) else r
  }

  /** Everything between parsing the name and the closing flush. */
  function Middle(env: FileEnv, r: Row, llmActive: bool, hasRefresher: bool, refreshed: set<nat>): Stage {
    var noted := Noted(env, r);
    if Gated(env, llmActive) then Left(noted, LowConfidence)
    else if Named(env.parsed).Some? && env.raises(FindShow) then Stage(noted, Raises)
    else if FoundShow(env).None? then Left(noted, NoShow(Named(env.parsed)))
    else if TakesSeasonName(env) && env.arcLabel.Some? then Left(noted, UnmappedArc(env.arcLabel.value))
    else
      Applied(env, WithSeasonName(env, noted), FoundShow(env).value, SeasonUsed(env), EpisodeOf(env), llmActive, BySeasonName(env),
                 hasRefresher, refreshed)
  }

  function MiddleRefreshes(env: FileEnv, llmActive: bool, hasRefresher: bool, refreshed: set<nat>): set<nat> {
    if Gated(env, llmActive) || (Named(env.parsed).Some? && env.raises(FindShow)) || FoundShow(env).None?
       || (TakesSeasonName(env) && env.arcLabel.Some?)
    then refreshed
    else RefreshedAfter(env, FoundShow(env).value, SeasonUsed(env), EpisodeOf(env), llmActive, BySeasonName(env), hasRefresher, refreshed)
  }

  function FailedAfter(decided: Answer<ParseOutcome>): ParseOutcome {
    if decided == Gives(MatchedOutcome) then MatchedThenFailed
    else if decided == Gives(UnmatchedOutcome) then UnmatchedThenFailed
    else Failed
  }

  function AsError(r: Row): Row {
    r.(status := Error, problem := Some(ParseFailed))
  }

  /** How a file ends: its row and its outcome, or Raises when even the error could not be saved. */
  function Parsing(env: FileEnv, r: Row, llmActive: bool, hasRefresher: bool, refreshed: set<nat>): Stage {
    var stage := if env.raises(ParseName) then Stage(r, Raises) else Middle(env, r, llmActive, hasRefresher, refreshed);
    if stage.decided.Gives? && !env.raises(Flush) then stage
    else if env.raises(LastFlush) then Stage(AsError(stage.row), Raises)
    else Stage(AsError(stage.row), Gives(FailedAfter(stage.decided)))
  }

  function ParsingRefreshes(env: FileEnv, llmActive: bool, hasRefresher: bool, refreshed: set<nat>): set<nat> {
    if env.raises(ParseName) then refreshed else MiddleRefreshes(env, llmActive, hasRefresher, refreshed)
  }

  // ---- What the outcome says about the row ----

  ghost predicate RowAgrees(env: FileEnv, r0: Row, r: Row, outcome: ParseOutcome) {
    && r.transferred == r0.transferred && r.remotePath == r0.remotePath
    && match outcome
       case MatchedOutcome =>
         && r.status == Matched && r.problem.None? && r.parsed.matchedBy.Some?
         && FoundShow(env).Some? && r.parsed.showId == Some(FoundShow(env).value.id)
         && (FoundShow(env).value.isMovie || r.parsed.episodeId.Some?)
       case UnmatchedOutcome => r.status == Unmatched && r.problem.Some?
       case _ => r.status == Error && r.problem == Some(ParseFailed)
  }

  lemma MatchAgrees(env: FileEnv, r: Row, show: Show, season: Option<int>, llmActive: bool, remap: bool, hasRefresher: bool, refreshed: set<nat>)
    requires FoundShow(env) == Some(show)
    ensures var stage := Applied(env, r, show, season, EpisodeOf(env), llmActive, remap, hasRefresher, refreshed);
            && stage.row.transferred == r.transferred && stage.row.remotePath == r.remotePath
            && (stage.decided.Gives? ==> RowAgrees(env, r, stage.row, stage.decided.value))
  {
    hide Resolution;
  }

  /** However a file ends, its row says the same as its outcome. */
  lemma OutcomeAgrees(env: FileEnv, r: Row, llmActive: bool, hasRefresher: bool, refreshed: set<nat>)
    ensures var stage := Parsing(env, r, llmActive, hasRefresher, refreshed);
            && stage.row.transferred == r.transferred && stage.row.remotePath == r.remotePath
            && (stage.decided.Gives? ==> RowAgrees(env, r, stage.row, stage.decided.value))
  {
    hide Applied;
    if FoundShow(env).Some? {
      MatchAgrees(env, WithSeasonName(env, Noted(env, r)), FoundShow(env).value, SeasonUsed(env), llmActive, BySeasonName(env), hasRefresher, refreshed);
    }
  }

  // ---- Which episode a file is linked to, and what its row says of it ----

  /** The first episode by id with these numbers, and that there is none. */
  ghost predicate FirstWith(eps: seq<Episode>, season: int, number: int, e: Episode) {
    exists k: nat :: k < |eps| && eps[k] == e && IsNumbered(e, season, number) && forall j :: 0 <= j < k ==> !IsNumbered(eps[j], season, number)
  }

  ghost predicate NoneWith(eps: seq<Episode>, season: int, number: int) {
    forall e :: e in eps ==> !IsNumbered(e, season, number)
  }

  /** The first episode by id with this absolute number, and that there is none. */
  ghost predicate FirstAt(eps: seq<Episode>, absolute: int, e: Episode) {
    exists k: nat :: k < |eps| && eps[k] == e && e.absolute == Some(absolute) && forall j :: 0 <= j < k ==> eps[j].absolute != Some(absolute)
  }

  ghost predicate NoneAt(eps: seq<Episode>, absolute: int) {
    forall e :: e in eps ==> e.absolute != Some(absolute)
  }

  /** The episode groups send these numbers elsewhere. */
  predicate Sends(show: Show, season: int, number: int) {
    season > 1 && show.groupMap.Some? && (season, number) in show.groupMap.value
  }

  /** `e` answers the numbers, and `s` and `n` are the numbers the row keeps: those it was found under. */
  ghost predicate ByNumbers(show: Show, eps: seq<Episode>, season: Option<int>, episode: Option<int>, remap: bool,
      e: Episode, s: Option<int>, n: Option<int>)
  {
    && episode.Some?
    && if season.Some? then
         || (FirstWith(eps, season.value, episode.value, e) && (s, n) == (season, episode))
         || (remap && NoneWith(eps, season.value, episode.value) && Sends(show, season.value, episode.value)
              && var (s1, n1) := show.groupMap.value[(season.value, episode.value)];
                 FirstWith(eps, s1, n1, e) && (s, n) == (Some(s1), Some(n1)))
       else
         && (s, n) == (season, episode)
         && (FirstAt(eps, episode.value, e) || (NoneAt(eps, episode.value) && FirstWith(eps, 1, episode.value, e)))
  }

  ghost predicate NothingByNumbers(show: Show, eps: seq<Episode>, season: Option<int>, episode: Option<int>, remap: bool) {
    || episode.None?
    || if season.Some? then
         && NoneWith(eps, season.value, episode.value)
         && (remap && Sends(show, season.value, episode.value) ==>
               var (s1, n1) := show.groupMap.value[(season.value, episode.value)]; NoneWith(eps, s1, n1))
       else NoneAt(eps, episode.value) && NoneWith(eps, 1, episode.value)
  }

  /** The title match gives `e`; it may not leave a season that a season name fixed. */
  predicate TitleAnswers(guess: Guess, season: Option<int>, remap: bool, e: Episode) {
    guess.ep == Some(e) && (remap ==> season == Some(e.season))
  }

  /** One attempt: by number, and with an LLM by title where no number answers. */
  ghost predicate FindsAt(env: FileEnv, show: Show, attempt: nat, season: Option<int>, episode: Option<int>, llmActive: bool, remap: bool,
      e: Episode, s: Option<int>, n: Option<int>)
  {
    var read, eps, guess := ShowAt(env, show, attempt), EpisodesAt(env, attempt), env.guess(attempt);
    || ByNumbers(read, eps, season, episode, remap, e, s, n)
    || (llmActive && NothingByNumbers(read, eps, season, episode, remap) && TitleAnswers(guess, season, remap, e)
         && s == (if guess.season.Some? then guess.season else season) && n == (if guess.episode.Some? then guess.episode else episode))
  }

  ghost predicate MissesAt(env: FileEnv, show: Show, attempt: nat, season: Option<int>, episode: Option<int>, llmActive: bool, remap: bool) {
    && NothingByNumbers(ShowAt(env, show, attempt), EpisodesAt(env, attempt), season, episode, remap)
    && (llmActive ==> forall e :: !TitleAnswers(env.guess(attempt), season, remap, e))
  }

  /** A second attempt follows a miss when the show may be refreshed and the refresh brings new episodes. */
  predicate TriesAgain(env: FileEnv, show: Show, hasRefresher: bool, refreshed: set<nat>) {
    hasRefresher && !show.isMovie && show.id !in refreshed && env.added.Some?
  }

  ghost predicate Finds(env: FileEnv, show: Show, season: Option<int>, episode: Option<int>, llmActive: bool, remap: bool,
      hasRefresher: bool, refreshed: set<nat>, e: Episode, s: Option<int>, n: Option<int>)
  {
    || FindsAt(env, show, 0, season, episode, llmActive, remap, e, s, n)
    || (MissesAt(env, show, 0, season, episode, llmActive, remap) && TriesAgain(env, show, hasRefresher, refreshed)
         && FindsAt(env, show, 1, season, episode, llmActive, remap, e, s, n))
  }

  ghost predicate Misses(env: FileEnv, show: Show, season: Option<int>, episode: Option<int>, llmActive: bool, remap: bool,
      hasRefresher: bool, refreshed: set<nat>)
  {
    && MissesAt(env, show, 0, season, episode, llmActive, remap)
    && (TriesAgain(env, show, hasRefresher, refreshed) ==> MissesAt(env, show, 1, season, episode, llmActive, remap))
  }

  /** The row of a file whose show was found and looked up: linked to what was found, or to the show alone. */
  ghost predicate LookedUp(env: FileEnv, show: Show, season: Option<int>, episode: Option<int>, llmActive: bool, remap: bool,
      hasRefresher: bool, refreshed: set<nat>, r: Row, outcome: ParseOutcome)
  {
    var matcher := Some(if llmActive then ByLlm else ByHeuristic);
    || (exists e, s, n :: Finds(env, show, season, episode, llmActive, remap, hasRefresher, refreshed, e, s, n)
         // A known season is kept, a missing one taken from the episode.
         && r.parsed == Match(Some(show.id), Some(e.id), matcher, if s.Some? then s else Some(e.season), n)
         && r.status == Matched && r.problem.None? && outcome == MatchedOutcome)
    || (Misses(env, show, season, episode, llmActive, remap, hasRefresher, refreshed)
         && r.parsed == Match(Some(show.id), None, matcher, season, episode)
         && if show.isMovie then r.status == Matched && r.problem.None? && outcome == MatchedOutcome
            else r.status == Unmatched && r.problem == Some(NoEpisode(season, episode)) && outcome == UnmatchedOutcome)
  }

  /** The row and the outcome of a file that was decided, by what the services answered. */
  ghost predicate Explained(env: FileEnv, llmActive: bool, hasRefresher: bool, refreshed: set<nat>, before: Row, r: Row, outcome: ParseOutcome) {
    // What the parser read, or else the numbers in the file name;
    var season := if env.parsed.season.Some? then env.parsed.season else if env.heuristic.Some? then Some(env.heuristic.value.0) else None;
    var episode := if env.parsed.episode.Some? then env.parsed.episode else if env.heuristic.Some? then Some(env.heuristic.value.1) else None;
    var noted := before.parsed.(parsedSeason := season, parsedEpisode := episode);
    var named := env.parsed.showName.Some? && env.parsed.showName.value != "";
    if llmActive && env.parsed.llmOk && !env.parsed.isMovie && env.parsed.confidence < 0.7 then
      (r.parsed, r.status, r.problem, outcome) == (noted, Unmatched, Some(LowConfidence), UnmatchedOutcome)
    else if !named || env.show.None? then
      (r.parsed, r.status, r.problem, outcome)
      == (noted, Unmatched, Some(NoShow(if named then env.parsed.showName else None)), UnmatchedOutcome)
    else if season.None? && env.arcLabel.Some? then
      (r.parsed, r.status, r.problem, outcome) == (noted, Unmatched, Some(UnmappedArc(env.arcLabel.value)), UnmatchedOutcome)
    // a season name only supplies a season that neither has.
    else if season.None? then
      LookedUp(env, env.show.value, env.seasonName, episode, llmActive, env.seasonName.Some?, hasRefresher, refreshed, r, outcome)
    else LookedUp(env, env.show.value, season, episode, llmActive, false, hasRefresher, refreshed, r, outcome)
  }

  lemma FirstMeans(eps: seq<Episode>, season: int, number: int)
    ensures var ep := FirstNumbered(eps, season, number);
            && (ep.Some? ==> FirstWith(eps, season, number, ep.value))
            && (ep.None? ==> NoneWith(eps, season, number))
    ensures var ep := FirstAbsolute(eps, number);
            && (ep.Some? ==> FirstAt(eps, number, ep.value))
            && (ep.None? ==> NoneAt(eps, number))
  {
    var ep, abs := FirstNumbered(eps, season, number), FirstAbsolute(eps, number);
    if ep.Some? {
      var k :| 0 <= k < |eps| && eps[k] == ep.value && IsNumbered(ep.value, season, number)
               && forall j :: 0 <= j < k ==> !IsNumbered(eps[j], season, number);
    }
    if abs.Some? {
      var k :| 0 <= k < |eps| && eps[k] == abs.value && abs.value.absolute == Some(number)
               && forall j :: 0 <= j < k ==> eps[j].absolute != Some(number);
    }
  }

  /** The numbers a row keeps after a look-up. */
  function KeptSeason(found: Lookup, season: Option<int>): Option<int> {
    if found.renumbered then found.season else season
  }

  function KeptEpisode(found: Lookup, episode: Option<int>): Option<int> {
    if found.renumbered then found.episode else episode
  }

  lemma ByNumberMeans(env: FileEnv, show: Show, attempt: nat, season: Option<int>, episode: Option<int>, remap: bool)
    requires remap ==> season.Some?
    ensures var found := ByNumber(env, show, attempt, season, episode, remap);
            var read, eps := ShowAt(env, show, attempt), EpisodesAt(env, attempt);
            && (found.ep.Some? ==>
                  ByNumbers(read, eps, season, episode, remap, found.ep.value, KeptSeason(found, season), KeptEpisode(found, episode)))
            && (found.ep.None? ==>
                  NothingByNumbers(read, eps, season, episode, remap) && found == Lookup(None, season, episode, false))
  {
    hide FirstNumbered, FirstAbsolute, FirstWith, FirstAt, NoneWith, NoneAt, ShowAt, EpisodesAt;
    var read, eps := ShowAt(env, show, attempt), EpisodesAt(env, attempt);
    if episode.Some? {
      FirstMeans(eps, if season.Some? then season.value else 1, episode.value);
      if season.Some? && Sends(read, season.value, episode.value) {
        var (s1, n1) := read.groupMap.value[(season.value, episode.value)];
        FirstMeans(eps, s1, n1);
      }
    }
  }

  lemma AttemptMeans(env: FileEnv, show: Show, attempt: nat, season: Option<int>, episode: Option<int>, llmActive: bool, remap: bool)
    requires (remap ==> season.Some?) && ResolveMatched(env, show, attempt, season, episode, llmActive, remap).Gives?
    ensures var found := ResolveMatched(env, show, attempt, season, episode, llmActive, remap).value;
            && (found.ep.Some? ==>
                  FindsAt(env, show, attempt, season, episode, llmActive, remap, found.ep.value, KeptSeason(found, season), KeptEpisode(found, episode)))
            && (found.ep.None? ==> MissesAt(env, show, attempt, season, episode, llmActive, remap) && found == Lookup(None, season, episode, false))
  {
    hide ByNumber, ByNumbers, NothingByNumbers, ShowAt, EpisodesAt;
    ByNumberMeans(env, show, attempt, season, episode, remap);
  }

  lemma ResolutionMeans(env: FileEnv, show: Show, season: Option<int>, episode: Option<int>, llmActive: bool, remap: bool,
      hasRefresher: bool, refreshed: set<nat>)
    requires (remap ==> season.Some?) && Resolution(env, show, season, episode, llmActive, remap, hasRefresher, refreshed).Gives?
    ensures var found := Resolution(env, show, season, episode, llmActive, remap, hasRefresher, refreshed).value;
            && (found.ep.Some? ==>
                  Finds(env, show, season, episode, llmActive, remap, hasRefresher, refreshed,
                        found.ep.value, KeptSeason(found, season), KeptEpisode(found, episode)))
            && (found.ep.None? ==>
                  Misses(env, show, season, episode, llmActive, remap, hasRefresher, refreshed) && found == Lookup(None, season, episode, false))
  {
    hide ResolveMatched, FindsAt, MissesAt;
    AttemptMeans(env, show, 0, season, episode, llmActive, remap);
    var first := ResolveMatched(env, show, 0, season, episode, llmActive, remap).value;
    if first.ep.None? && TriesAgain(env, show, hasRefresher, refreshed) {
      AttemptMeans(env, show, 1, season, episode, llmActive, remap);
    }
  }

  lemma AppliedMeans(env: FileEnv, r: Row, show: Show, season: Option<int>, episode: Option<int>, llmActive: bool, remap: bool,
      hasRefresher: bool, refreshed: set<nat>)
    requires remap ==> season.Some?
    requires r.parsed.parsedSeason == season && r.parsed.parsedEpisode == episode
    ensures var stage := Applied(env, r, show, season, episode, llmActive, remap, hasRefresher, refreshed);
            stage.decided.Gives? ==>
              LookedUp(env, show, season, episode, llmActive, remap, hasRefresher, refreshed, stage.row, stage.decided.value)
  {
    hide Resolution, Finds, Misses;
    var found := Resolution(env, show, season, episode, llmActive, remap, hasRefresher, refreshed);
    if found.Gives? {
      ResolutionMeans(env, show, season, episode, llmActive, remap, hasRefresher, refreshed);
    }
  }

  /** However a file is decided, its row and outcome are what its services' answers make of it. */
  lemma DecisionExplained(env: FileEnv, r: Row, llmActive: bool, hasRefresher: bool, refreshed: set<nat>)
    ensures var stage := Parsing(env, r, llmActive, hasRefresher, refreshed);
            stage.decided.Gives? && (stage.decided.value.MatchedOutcome? || stage.decided.value.UnmatchedOutcome?) ==>
              Explained(env, llmActive, hasRefresher, refreshed, r, stage.row, stage.decided.value)
  {
    hide Applied, LookedUp;
    if FoundShow(env).Some? {
      AppliedMeans(env, WithSeasonName(env, Noted(env, r)), FoundShow(env).value, SeasonUsed(env), EpisodeOf(env), llmActive, BySeasonName(env), hasRefresher, refreshed);
    }
  }

  // ---- When a file fails ----

  /** The file's show is looked for in the episodes: it was found, its result is trusted, and its name maps to no other arc. */
  predicate SearchesEpisodes(env: FileEnv, llmActive: bool) {
    && !(llmActive && env.parsed.llmOk && !env.parsed.isMovie && env.parsed.confidence < 0.7)
    && env.parsed.showName.Some? && env.parsed.showName.value != "" && env.show.Some?
    && !(env.parsed.season.None? && env.heuristic.None? && env.arcLabel.Some?)
  }

  /** The calls a file makes, each as long as none before it raises. */
  ghost predicate Makes(env: FileEnv, llmActive: bool, hasRefresher: bool, refreshed: set<nat>, c: Call) {
    match c
    case ParseName => true
    case FindShow =>
      && !(llmActive && env.parsed.llmOk && !env.parsed.isMovie && env.parsed.confidence < 0.7)
      && env.parsed.showName.Some? && env.parsed.showName.value != ""
    case Flush => true
    case LastFlush => false
    case _ =>
      && SearchesEpisodes(env, llmActive)
      && var show, season, episode, remap := env.show.value, SeasonUsed(env), EpisodeOf(env), BySeasonName(env);
         var again := hasRefresher && !show.isMovie && show.id !in refreshed && MissesAt(env, show, 0, season, episode, llmActive, remap);
         match c
         case LookUp(attempt) => attempt == 0 || (attempt == 1 && again && env.added.Some?)
         case AskLlm(attempt) =>
           && (attempt == 0 || (attempt == 1 && again && env.added.Some?))
           && llmActive && NothingByNumbers(ShowAt(env, show, attempt), EpisodesAt(env, attempt), season, episode, remap)
         case Refresh => again
         case Link => exists e, s, n :: Finds(env, show, season, episode, llmActive, remap, hasRefresher, refreshed, e, s, n)
         case _ => true
  }

  lemma ByNumbersOrNothing(show: Show, eps: seq<Episode>, season: Option<int>, episode: Option<int>, remap: bool,
      e: Episode, s: Option<int>, n: Option<int>)
    requires ByNumbers(show, eps, season, episode, remap, e, s, n)
    ensures !NothingByNumbers(show, eps, season, episode, remap)
  {
  }

  lemma FindsOrMissesAt(env: FileEnv, show: Show, attempt: nat, season: Option<int>, episode: Option<int>, llmActive: bool, remap: bool,
      e: Episode, s: Option<int>, n: Option<int>)
    requires FindsAt(env, show, attempt, season, episode, llmActive, remap, e, s, n)
    ensures !MissesAt(env, show, attempt, season, episode, llmActive, remap)
  {
    hide ByNumbers, NothingByNumbers;
    if ByNumbers(ShowAt(env, show, attempt), EpisodesAt(env, attempt), season, episode, remap, e, s, n) {
      ByNumbersOrNothing(ShowAt(env, show, attempt), EpisodesAt(env, attempt), season, episode, remap, e, s, n);
    }
  }

  /** An attempt raises exactly when its look-up does, or its title match where no number answers. */
  ghost predicate AttemptRaises(env: FileEnv, show: Show, attempt: nat, season: Option<int>, episode: Option<int>, llmActive: bool, remap: bool) {
    || env.raises(LookUp(attempt))
    || (llmActive && NothingByNumbers(ShowAt(env, show, attempt), EpisodesAt(env, attempt), season, episode, remap) && env.raises(AskLlm(attempt)))
  }

  lemma AttemptRaisesExactly(env: FileEnv, show: Show, attempt: nat, season: Option<int>, episode: Option<int>, llmActive: bool, remap: bool)
    requires remap ==> season.Some?
    ensures var found := ResolveMatched(env, show, attempt, season, episode, llmActive, remap);
            && (found.Raises? <==> AttemptRaises(env, show, attempt, season, episode, llmActive, remap))
            && (found.Gives? ==> (found.value.ep.None? <==> MissesAt(env, show, attempt, season, episode, llmActive, remap)))
  {
    hide ByNumber, ByNumbers, NothingByNumbers, ShowAt, EpisodesAt, FindsAt, MissesAt;
    var found := ByNumber(env, show, attempt, season, episode, remap);
    ByNumberMeans(env, show, attempt, season, episode, remap);
    if found.ep.Some? {
      ByNumbersOrNothing(ShowAt(env, show, attempt), EpisodesAt(env, attempt), season, episode, remap,
                         found.ep.value, KeptSeason(found, season), KeptEpisode(found, episode));
    }
    var answer := ResolveMatched(env, show, attempt, season, episode, llmActive, remap);
    if answer.Gives? {
      AttemptMeans(env, show, attempt, season, episode, llmActive, remap);
      if answer.value.ep.Some? {
        FindsOrMissesAt(env, show, attempt, season, episode, llmActive, remap, answer.value.ep.value,
                        KeptSeason(answer.value, season), KeptEpisode(answer.value, episode));
      }
    }
  }

  lemma FindsOrMisses(env: FileEnv, show: Show, season: Option<int>, episode: Option<int>, llmActive: bool, remap: bool,
      hasRefresher: bool, refreshed: set<nat>)
    requires Misses(env, show, season, episode, llmActive, remap, hasRefresher, refreshed)
    ensures forall e, s, n :: !Finds(env, show, season, episode, llmActive, remap, hasRefresher, refreshed, e, s, n)
  {
    hide FindsAt, MissesAt;
    forall e, s, n | Finds(env, show, season, episode, llmActive, remap, hasRefresher, refreshed, e, s, n) ensures false {
      if FindsAt(env, show, 0, season, episode, llmActive, remap, e, s, n) {
        FindsOrMissesAt(env, show, 0, season, episode, llmActive, remap, e, s, n);
      } else {
        FindsOrMissesAt(env, show, 1, season, episode, llmActive, remap, e, s, n);
      }
    }
  }

  /** Resolving raises exactly when an attempt or the refresh does, and otherwise tells whether something is found. */
  lemma ResolutionRaisesExactly(env: FileEnv, show: Show, season: Option<int>, episode: Option<int>, llmActive: bool, remap: bool,
      hasRefresher: bool, refreshed: set<nat>)
    requires remap ==> season.Some?
    ensures var found := Resolution(env, show, season, episode, llmActive, remap, hasRefresher, refreshed);
            var again := MayRefresh(show, hasRefresher, refreshed) && MissesAt(env, show, 0, season, episode, llmActive, remap);
            && (found.Raises? <==>
                  || AttemptRaises(env, show, 0, season, episode, llmActive, remap)
                  || (again && (env.raises(Refresh) || (env.added.Some? && AttemptRaises(env, show, 1, season, episode, llmActive, remap)))))
            && (found.Gives? ==> (found.value.ep.Some? <==>
                  exists e, s, n :: Finds(env, show, season, episode, llmActive, remap, hasRefresher, refreshed, e, s, n)))
  {
    hide ResolveMatched, MissesAt, FindsAt, AttemptRaises;
    AttemptRaisesExactly(env, show, 0, season, episode, llmActive, remap);
    if !AttemptRaises(env, show, 0, season, episode, llmActive, remap) {
      AttemptMeans(env, show, 0, season, episode, llmActive, remap);
      AttemptRaisesExactly(env, show, 1, season, episode, llmActive, remap);
    }
    if Resolution(env, show, season, episode, llmActive, remap, hasRefresher, refreshed).Gives? {
      ResolutionMeans(env, show, season, episode, llmActive, remap, hasRefresher, refreshed);
      if Resolution(env, show, season, episode, llmActive, remap, hasRefresher, refreshed).value.ep.None? {
        FindsOrMisses(env, show, season, episode, llmActive, remap, hasRefresher, refreshed);
      }
    }
  }

  /** None of the calls that the match makes raises. */
  ghost predicate MatchCalm(env: FileEnv, show: Show, season: Option<int>, episode: Option<int>, llmActive: bool, remap: bool,
      hasRefresher: bool, refreshed: set<nat>)
  {
    var again := MayRefresh(show, hasRefresher, refreshed) && MissesAt(env, show, 0, season, episode, llmActive, remap);
    && !AttemptRaises(env, show, 0, season, episode, llmActive, remap)
    && (again ==> !env.raises(Refresh) && (env.added.Some? ==> !AttemptRaises(env, show, 1, season, episode, llmActive, remap)))
    && ((exists e, s, n :: Finds(env, show, season, episode, llmActive, remap, hasRefresher, refreshed, e, s, n)) ==> !env.raises(Link))
    && !env.raises(Report)
  }

  lemma AppliedCalm(env: FileEnv, r: Row, show: Show, season: Option<int>, episode: Option<int>, llmActive: bool, remap: bool,
      hasRefresher: bool, refreshed: set<nat>)
    requires remap ==> season.Some?
    ensures var decided := Applied(env, r, show, season, episode, llmActive, remap, hasRefresher, refreshed).decided;
            && (decided.Gives? <==> MatchCalm(env, show, season, episode, llmActive, remap, hasRefresher, refreshed))
            && (decided.Gives? ==> decided.value.MatchedOutcome? || decided.value.UnmatchedOutcome?)
  {
    hide Resolution, Finds, MissesAt, AttemptRaises, Linked, Decided;
    ResolutionRaisesExactly(env, show, season, episode, llmActive, remap, hasRefresher, refreshed);
  }

  lemma MatchCalmMeans(env: FileEnv, llmActive: bool, hasRefresher: bool, refreshed: set<nat>)
    requires SearchesEpisodes(env, llmActive)
    ensures MatchCalm(env, env.show.value, SeasonUsed(env), EpisodeOf(env), llmActive, BySeasonName(env), hasRefresher, refreshed)
            <==> forall c :: Makes(env, llmActive, hasRefresher, refreshed, c) && c !in {ParseName, FindShow, Flush} ==> !env.raises(c)
  {
    hide Finds, MissesAt, NothingByNumbers, SearchesEpisodes, SeasonUsed, EpisodeOf, BySeasonName;
    if forall c :: Makes(env, llmActive, hasRefresher, refreshed, c) && c !in {ParseName, FindShow, Flush} ==> !env.raises(c) {
      forall c | c in {LookUp(0), LookUp(1), AskLlm(0), AskLlm(1), Refresh, Link, Report}
        ensures Makes(env, llmActive, hasRefresher, refreshed, c) ==> !env.raises(c)
      {
      }
    }
  }

  lemma CallsSplit(env: FileEnv, llmActive: bool, hasRefresher: bool, refreshed: set<nat>)
    ensures (forall c :: Makes(env, llmActive, hasRefresher, refreshed, c) ==> !env.raises(c)) <==>
      && !env.raises(ParseName) && !env.raises(Flush)
      && (!Gated(env, llmActive) && Named(env.parsed).Some? ==> !env.raises(FindShow))
      && (SearchesEpisodes(env, llmActive) ==>
            MatchCalm(env, env.show.value, SeasonUsed(env), EpisodeOf(env), llmActive, BySeasonName(env), hasRefresher, refreshed))
  {
    hide MatchCalm, SeasonUsed, EpisodeOf, BySeasonName, MissesAt, NothingByNumbers;
    if SearchesEpisodes(env, llmActive) {
      MatchCalmMeans(env, llmActive, hasRefresher, refreshed);
    }
    assert Makes(env, llmActive, hasRefresher, refreshed, ParseName) && Makes(env, llmActive, hasRefresher, refreshed, Flush);
    assert Makes(env, llmActive, hasRefresher, refreshed, FindShow) <==> !Gated(env, llmActive) && Named(env.parsed).Some?;
  }

  /** A file is decided and saved exactly when none of the calls it makes raises. */
  lemma FailsExactly(env: FileEnv, r: Row, llmActive: bool, hasRefresher: bool, refreshed: set<nat>)
    ensures var stage := Parsing(env, r, llmActive, hasRefresher, refreshed);
            stage.decided in {Gives(MatchedOutcome), Gives(UnmatchedOutcome)}
            <==> forall c :: Makes(env, llmActive, hasRefresher, refreshed, c) ==> !env.raises(c)
  {
    hide Applied, MatchCalm, Makes;
    CallsSplit(env, llmActive, hasRefresher, refreshed);
    if SearchesEpisodes(env, llmActive) {
      AppliedCalm(env, WithSeasonName(env, Noted(env, r)), FoundShow(env).value, SeasonUsed(env), EpisodeOf(env), llmActive, BySeasonName(env), hasRefresher, refreshed);
    }
  }

  /** A show is added to the refreshed ones exactly when the refresh is reached: it is called at most once for it. */
  lemma RefreshesExactly(env: FileEnv, llmActive: bool, hasRefresher: bool, refreshed: set<nat>)
    ensures ParsingRefreshes(env, llmActive, hasRefresher, refreshed)
            == if Makes(env, llmActive, hasRefresher, refreshed, Refresh)
                  && forall c :: c in {ParseName, FindShow, LookUp(0), AskLlm(0)} && Makes(env, llmActive, hasRefresher, refreshed, c) ==> !env.raises(c)
               then refreshed + {env.show.value.id} else refreshed
  {
    hide MissesAt, NothingByNumbers, ResolveMatched;
    if SearchesEpisodes(env, llmActive) {
      AttemptRaisesExactly(env, env.show.value, 0, SeasonUsed(env), EpisodeOf(env), llmActive, BySeasonName(env));
    }
    assert ParseName in {ParseName, FindShow, LookUp(0), AskLlm(0)} && FindShow in {ParseName, FindShow, LookUp(0), AskLlm(0)};
    assert LookUp(0) in {ParseName, FindShow, LookUp(0), AskLlm(0)} && AskLlm(0) in {ParseName, FindShow, LookUp(0), AskLlm(0)};
  }

  /** An outcome with two names counts the decision and the failure. */
  lemma FailedAfterDeciding(env: FileEnv, r: Row, llmActive: bool, hasRefresher: bool, refreshed: set<nat>)
    requires !env.raises(LastFlush)
    ensures var stage, middle := Parsing(env, r, llmActive, hasRefresher, refreshed), Middle(env, r, llmActive, hasRefresher, refreshed);
            var late := !env.raises(ParseName) && env.raises(Flush);
            && (stage.decided == Gives(MatchedThenFailed) <==> middle.decided == Gives(MatchedOutcome) && late)
            && (stage.decided == Gives(UnmatchedThenFailed) <==> middle.decided == Gives(UnmatchedOutcome) && late)
            && (stage.decided == Gives(Failed) <==> env.raises(ParseName) || middle.decided.Raises?)
  {
  }

  ghost predicate MapsTo(show: Show, season: int, episode: int, ep: Episode) {
    && show.groupMap.Some? && (season, episode) in show.groupMap.value
    && show.groupMap.value[(season, episode)] == (ep.season, ep.number)
  }

  /** A file linked through a season name is linked within that season, or where the episode groups map it: those the
      attempt reads, before the refresh or after it. */
  lemma SeasonNameHolds(env: FileEnv, r: Row, llmActive: bool, hasRefresher: bool, refreshed: set<nat>)
    requires BySeasonName(env)
    ensures var show, s := FoundShow(env).value, env.seasonName.value;
            var found := Resolution(env, show, Some(s), EpisodeOf(env), llmActive, true, hasRefresher, refreshed);
            found.Gives? && found.value.ep.Some? ==>
              || found.value.ep.value.season == s
              || (s > 1 && EpisodeOf(env).Some? && exists attempt | attempt == 0 || attempt == 1 ::
                    MapsTo(ShowAt(env, show, attempt), s, EpisodeOf(env).value, found.value.ep.value))
  {
  }

  // ---- The dry run ----

  /** The preview's own look-up: it takes `alias_season or season`, and tries the group map for any season. */
  function PreviewFinds(env: FileEnv, show: Show): bool {
    var aliasSeason := if SeasonOf(env).None? then env.seasonName else None;
    var season := if aliasSeason.None? || aliasSeason == Some(0) then SeasonOf(env) else aliasSeason;
    var episode := EpisodeOf(env);
    || show.isMovie
    || (episode.Some? && season.Some? && show.groupMap.Some? && ResolveWithSeason(show, env.episodes, season.value, episode.value).Some?)
    || ResolveEpisode(env.episodes, season, episode).Some?
  }

  /** What the dry run reports; it reads the same services and changes nothing. */
  function Preview(env: FileEnv, llmActive: bool): ParseOutcome {
    if env.raises(ParseName) || (Named(env.parsed).Some? && env.raises(FindShow)) then Failed
    else if FoundShow(env).None? || Gated(env, llmActive) then UnmatchedOutcome
    else if SeasonOf(env).None? && env.arcLabel.Some? then UnmatchedOutcome
    else if !FoundShow(env).value.isMovie && env.raises(LookUp(0)) then Failed
    else if PreviewFinds(env, FoundShow(env).value) then MatchedOutcome
    else UnmatchedOutcome
  }

  /** Nothing raises, no title match helps, and no refresh brings episodes. */
  ghost predicate Quiet(env: FileEnv) {
    && (forall c :: !env.raises(c))
    && env.added.None?
    && env.guess(0).ep.None?
  }

  /** The file reaches an episode look-up that decides its outcome. */
  predicate LooksUp(env: FileEnv, llmActive: bool) {
    && !Gated(env, llmActive)
    && FoundShow(env).Some? && !FoundShow(env).value.isMovie
    && !(SeasonOf(env).None? && env.arcLabel.Some?)
    && EpisodeOf(env).Some?
  }

  /** A season name meaning season 0 is dropped, and the absolute look-up it falls back to disagrees. */
  predicate LosesSeasonZero(env: FileEnv, llmActive: bool) {
    && LooksUp(env, llmActive) && SeasonOf(env).None? && env.seasonName == Some(0)
    && FirstNumbered(env.episodes, 0, EpisodeOf(env).value).Some? != ResolveEpisode(env.episodes, None, EpisodeOf(env)).Some?
  }

  /** A season in the file name misses and the group map would find it, which the real run does not try. */
  predicate MapsOnlyInPreview(env: FileEnv, llmActive: bool) {
    && LooksUp(env, llmActive) && SeasonOf(env).Some?
    && FirstNumbered(env.episodes, SeasonOf(env).value, EpisodeOf(env).value).None?
    && Remapped(FoundShow(env).value, env.episodes, SeasonOf(env).value, EpisodeOf(env).value).Some?
  }

  /** The preview tells the truth exactly when neither of these happens. */
  lemma PreviewExactly(env: FileEnv, r: Row, llmActive: bool, hasRefresher: bool, refreshed: set<nat>)
    requires Quiet(env)
    ensures Parsing(env, r, llmActive, hasRefresher, refreshed).decided == Gives(Preview(env, llmActive))
            <==> !LosesSeasonZero(env, llmActive) && !MapsOnlyInPreview(env, llmActive)
  {
    hide Resolution, FirstNumbered, FirstAbsolute, Decided, Linked;
    if FoundShow(env).Some? {
      var show, season, remap := FoundShow(env).value, SeasonUsed(env), BySeasonName(env);
      QuietLookup(env, show, season, EpisodeOf(env), llmActive, remap, hasRefresher, refreshed);
    }
  }

  /** Then a real run finds what the numbers find. */
  lemma QuietLookup(env: FileEnv, show: Show, season: Option<int>, episode: Option<int>, llmActive: bool, remap: bool, hasRefresher: bool, refreshed: set<nat>)
    requires Quiet(env)
    ensures var found := Resolution(env, show, season, episode, llmActive, remap, hasRefresher, refreshed);
            found.Gives? && found.value.ep == ByNumber(env, show, 0, season, episode, remap).ep
  {
  }

  function Example(season: Option<int>, seasonName: Option<int>, episodes: seq<Episode>, groupMap: Option<map<(int, int), (int, int)>>): FileEnv {
    FileEnv(c => false, None, Parsed(Some("show"), season, Some(3), false, 0.9, true), Some(Show(1, false, groupMap)),
            seasonName, None, episodes, None, attempt => Guess(None, None, None))
  }

  function SpecialExample(): FileEnv {
    Example(None, Some(0), [Episode(7, 0, 3, None)], None)
  }

  function GroupedExample(): FileEnv {
    Example(Some(2), None, [Episode(8, 1, 15, None)], Some(map[(2, 3) := (1, 15)]))
  }

  lemma SpecialIsMissed(r: Row, hasRefresher: bool)
    ensures Quiet(SpecialExample()) && Preview(SpecialExample(), true) == UnmatchedOutcome
    ensures Parsing(SpecialExample(), r, true, hasRefresher, {}).decided == Gives(MatchedOutcome)
  {
    hide Resolution;
    var special := SpecialExample();
    assert ResolveEpisode(special.episodes, None, Some(3)) == None && FirstNumbered(special.episodes, 0, 3).Some?;
    assert SeasonOf(special) == None;
    QuietLookup(special, special.show.value, Some(0), Some(3), true, true, hasRefresher, {});
  }

  lemma GroupedIsPromised(r: Row, hasRefresher: bool)
    ensures Quiet(GroupedExample()) && Preview(GroupedExample(), true) == MatchedOutcome
    ensures Parsing(GroupedExample(), r, true, hasRefresher, {}).decided == Gives(UnmatchedOutcome)
  {
    hide Resolution;
    var grouped := GroupedExample();
    assert FirstNumbered(grouped.episodes, 2, 3) == None && FirstNumbered(grouped.episodes, 1, 15).Some?;
    assert SeasonOf(grouped) == Some(2);
    QuietLookup(grouped, grouped.show.value, Some(2), Some(3), true, false, hasRefresher, {});
  }

  /** Both do happen: a special known by its season name, and a season that only the episode groups know. */
  lemma PreviewCanBeWrong(r: Row, hasRefresher: bool)
    ensures var special := SpecialExample();
            Quiet(special) && Preview(special, true) == UnmatchedOutcome
            && Parsing(special, r, true, hasRefresher, {}).decided == Gives(MatchedOutcome)
    ensures var grouped := GroupedExample();
            Quiet(grouped) && Preview(grouped, true) == MatchedOutcome
            && Parsing(grouped, r, true, hasRefresher, {}).decided == Gives(UnmatchedOutcome)
  {
    hide Quiet, Preview, Parsing, SpecialExample, GroupedExample;
    SpecialIsMissed(r, hasRefresher);
    GroupedIsPromised(r, hasRefresher);
  }
}
