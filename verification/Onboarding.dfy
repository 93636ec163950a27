/**
 Onboarding a show from a feed: resolve or create the show, teach it the feed's name, and create its
 subscription or adopt an unlinked stub. The dry run plans the same without writing.
 */
module Onboarding {
  import opened Common

  /** Missing and empty alias lists and source maps are the same to the code. */
  datatype Show = Show(title: string, aliases: seq<string>, sources: map<string, seq<string>>)

  datatype Subscription = Subscription(
    id: nat,
    remoteKey: Option<string>,
    feedId: Option<nat>,
    showId: nat,
    name: string,
    regexInclude: Option<string>,
    regexExclude: Option<string>,
    includeIgnorecase: bool,
    excludeIgnorecase: bool,
    active: bool,
    enabledInConfig: bool)

  datatype Target = ById(id: nat) | FromTmdb(tmdbId: nat, title: string)

  datatype Request = Request(
    target: Target,
    parsedName: string,
    name: Option<string>,
    regexInclude: Option<string>,
    regexExclude: Option<string>,
    includeIgnorecase: bool,
    excludeIgnorecase: bool,
    enabled: bool)

  /** Shows by id, the unique index on TMDB ids, and the subscriptions in id order. */
  datatype State = State(shows: map<nat, Show>, byTmdb: map<nat, nat>, subs: seq<Subscription>)

  /** String services, and what creating a show would come to: None if it raises. */
  datatype Env = Env(
    strip: string -> string,
    sanitize: string -> string,
    created: Option<Show>,
    newShowId: nat,
    newSubId: nat)

  datatype Outcome = Outcome(
    showId: Option<nat>,
    showCreated: bool,
    subscriptionId: Option<nat>,
    subscriptionCreated: bool,
    adoptedStub: bool,
    aliasAdded: bool)

  function Text(field: Option<string>): string {
    field.GetOr("")
  }

  ghost predicate Valid(s: State, env: Env) {
    && (forall t :: t in s.byTmdb ==> s.byTmdb[t] in s.shows)
    && env.newShowId !in s.shows
    && (forall i :: 0 <= i < |s.subs| ==> s.subs[i].showId in s.shows && s.subs[i].id != env.newSubId)
  }

  // ---- Teaching the alias ----

  function UserBucket(show: Show): seq<string> {
    if "user" in show.sources then show.sources["user"] else []
  }

  /** `add_alias`: a legacy show first moves its whole list into the user bucket. */
  function WithAlias(show: Show, norm: string): Show {
    var aliases := if norm in show.aliases then show.aliases else show.aliases + [norm];
    var seeded := if show.sources == map[] then map["user" := aliases] else show.sources;
    var user := if "user" in seeded then seeded["user"] else [];
    Show(show.title, aliases, if norm in user then seeded else seeded["user" := user + [norm]])
  }

  predicate Teaches(env: Env, show: Show, parsedName: string) {
    var name := env.strip(parsedName);
    name != "" && env.sanitize(name) != env.sanitize(show.title)
  }

  function Taught(env: Env, show: Show, parsedName: string): Show {
    if Teaches(env, show, parsedName) then WithAlias(show, env.sanitize(env.strip(parsedName))) else show
  }

  predicate AliasIsNew(env: Env, show: Show, parsedName: string) {
    Teaches(env, show, parsedName) && env.sanitize(env.strip(parsedName)) !in show.aliases
  }

  /** No alias and no user alias is lost, the name is known afterwards in both places, and teaching it again changes nothing. */
  lemma TeachingIsIdempotent(env: Env, show: Show, parsedName: string)
    ensures var taught := Taught(env, show, parsedName);
            && show.aliases <= taught.aliases && taught.title == show.title
            && UserBucket(show) <= UserBucket(taught)
            && (Teaches(env, show, parsedName) ==>
                  env.sanitize(env.strip(parsedName)) in taught.aliases && env.sanitize(env.strip(parsedName)) in UserBucket(taught))
            && (show.sources == map[] && Teaches(env, show, parsedName) ==> show.aliases <= UserBucket(taught))
            && Taught(env, taught, parsedName) == taught
            && !AliasIsNew(env, taught, parsedName)
  {
  }

  /** Every alias is in some bucket, or there are no buckets yet. */
  ghost predicate NoOrphans(show: Show) {
    show.sources == map[] || forall a :: a in show.aliases ==> exists tag :: tag in show.sources && a in show.sources[tag]
  }

  /** Teaching leaves no alias outside the buckets. */
  lemma TeachingLeavesNoOrphans(env: Env, show: Show, parsedName: string)
    requires NoOrphans(show)
    ensures NoOrphans(Taught(env, show, parsedName))
  {
    var taught := Taught(env, show, parsedName);
    if Teaches(env, show, parsedName) {
      var norm := env.sanitize(env.strip(parsedName));
      forall a | a in taught.aliases ensures exists tag :: tag in taught.sources && a in taught.sources[tag] {
        if a == norm || show.sources == map[] {
          assert a in taught.sources["user"];
        } else {
          var tag :| tag in show.sources && a in show.sources[tag];
          assert a in taught.sources[tag];
        }
      }
    }
  }

  // ---- The subscription ----

  /** The first subscription of the show on this feed. */
  function OnFeed(subs: seq<Subscription>, showId: nat, feed: nat): (at: nat)
    ensures at <= |subs|
    ensures at < |subs| ==> subs[at].showId == showId && subs[at].feedId == Some(feed)
    ensures forall i :: 0 <= i < at ==> !(subs[i].showId == showId && subs[i].feedId == Some(feed))
  {
    if subs == [] then 0
    else if subs[0].showId == showId && subs[0].feedId == Some(feed) then 0
    else 1 + OnFeed(subs[1..], showId, feed)
  }

  /** The first subscription of the show that no feed has. */
  function Unlinked(subs: seq<Subscription>, showId: nat): (at: nat)
    ensures at <= |subs|
    ensures at < |subs| ==> subs[at].showId == showId && subs[at].feedId.None?
    ensures forall i :: 0 <= i < at ==> !(subs[i].showId == showId && subs[i].feedId.None?)
  {
    if subs == [] then 0
    else if subs[0].showId == showId && subs[0].feedId.None? then 0
    else 1 + Unlinked(subs[1..], showId)
  }

  datatype Choice = Reuse(at: nat) | Adopt(at: nat) | Create

  /** `_find_reusable` over the show's subscriptions. */
  function FindReusable(subs: seq<Subscription>, showId: nat, feed: nat): (c: Choice)
    ensures !c.Create? ==> c.at < |subs|
  {
    if OnFeed(subs, showId, feed) < |subs| then Reuse(OnFeed(subs, showId, feed))
    else if Unlinked(subs, showId) < |subs| then Adopt(Unlinked(subs, showId))
    else Create
  }

  function Adopted(sub: Subscription, feed: nat, request: Request): Subscription {
    sub.(feedId := Some(feed),
         regexInclude := if Text(sub.regexInclude) != "" then sub.regexInclude else request.regexInclude,
         includeIgnorecase := if Text(sub.regexInclude) != "" then sub.includeIgnorecase else request.includeIgnorecase,
         regexExclude := if Text(sub.regexExclude) != "" then sub.regexExclude else request.regexExclude,
         excludeIgnorecase := if Text(sub.regexExclude) != "" then sub.excludeIgnorecase else request.excludeIgnorecase,
         active := sub.active || request.enabled,
         enabledInConfig := sub.enabledInConfig || request.enabled)
  }

  function NewSubscription(env: Env, feed: nat, showId: nat, title: string, request: Request): Subscription {
    Subscription(env.newSubId, None, Some(feed), showId, if Text(request.name) != "" then Text(request.name) else title,
                 request.regexInclude, request.regexExclude, request.includeIgnorecase, request.excludeIgnorecase,
                 request.enabled, request.enabled)
  }

  function Ensured(env: Env, subs: seq<Subscription>, feed: nat, showId: nat, title: string, request: Request): (r: (seq<Subscription>, nat))
    ensures r.1 < |r.0|
  {
    match FindReusable(subs, showId, feed)
    case Reuse(at) => (subs, at)
    case Adopt(at) => (subs[at := Adopted(subs[at], feed, request)], at)
    case Create => (subs + [NewSubscription(env, feed, showId, title, request)], |subs|)
  }

  /** The unique index: a show has at most one subscription without a remote key. */
  ghost predicate OneStubPerShow(subs: seq<Subscription>) {
    forall i, j :: 0 <= i < j < |subs| && subs[i].remoteKey.None? && subs[j].remoteKey.None? ==> subs[i].showId != subs[j].showId
  }

  predicate HasKeyless(subs: seq<Subscription>, showId: nat) {
    exists i :: 0 <= i < |subs| && subs[i].showId == showId && subs[i].remoteKey.None?
  }

  /** The insert meets the unique index: the show has an unpublished subscription, which is on another feed. */
  predicate Blocked(subs: seq<Subscription>, showId: nat, feed: nat) {
    FindReusable(subs, showId, feed).Create? && HasKeyless(subs, showId)
  }

  lemma BlockedExactly(env: Env, subs: seq<Subscription>, feed: nat, showId: nat, title: string, request: Request)
    requires OneStubPerShow(subs)
    ensures OneStubPerShow(Ensured(env, subs, feed, showId, title, request).0) <==> !Blocked(subs, showId, feed)
  {
    var after := Ensured(env, subs, feed, showId, title, request).0;
    if Blocked(subs, showId, feed) {
      var i :| 0 <= i < |subs| && subs[i].showId == showId && subs[i].remoteKey.None?;
      assert after[i] == subs[i] && after[|subs|].remoteKey.None? && after[|subs|].showId == showId;
    }
  }

  /** Adopting fills what is missing: it keeps a regex the user has, and turns nothing off. */
  lemma AdoptionOnlyFills(sub: Subscription, feed: nat, request: Request)
    ensures var a := Adopted(sub, feed, request);
            && (Text(sub.regexInclude) != "" ==> a.regexInclude == sub.regexInclude && a.includeIgnorecase == sub.includeIgnorecase)
            && (Text(sub.regexExclude) != "" ==> a.regexExclude == sub.regexExclude && a.excludeIgnorecase == sub.excludeIgnorecase)
            && (sub.active ==> a.active) && (sub.enabledInConfig ==> a.enabledInConfig)
            && (!request.enabled ==> a.active == sub.active && a.enabledInConfig == sub.enabledInConfig)
            && (a.id, a.remoteKey, a.showId, a.name) == (sub.id, sub.remoteKey, sub.showId, sub.name)
  {
  }

  // ---- The call and its plan ----

  /** The show the request means and the state with it, if it can be had. */
  function Resolved(s: State, request: Request, env: Env): Option<(State, nat)> {
    match request.target
    case ById(id) => if id in s.shows then Some((s, id)) else None
    case FromTmdb(t, _) =>
      if t in s.byTmdb then Some((s, s.byTmdb[t]))
      else if env.created.None? then None
      else Some((s.(shows := s.shows[env.newShowId := env.created.value], byTmdb := s.byTmdb[t := env.newShowId]), env.newShowId))
  }

  predicate IsNew(s: State, request: Request) {
    request.target.FromTmdb? && request.target.tmdbId !in s.byTmdb
  }

  lemma ResolvedShow(s: State, request: Request, env: Env)
    requires Valid(s, env) && Resolved(s, request, env).Some?
    ensures var (s1, id) := Resolved(s, request, env).value;
            && id in s1.shows && s1.subs == s.subs && s.shows.Keys <= s1.shows.Keys
            && (!IsNew(s, request) ==> s1 == s)
            && forall t :: t in s1.byTmdb ==> s1.byTmdb[t] in s1.shows
  {
  }

  /** The state a call leaves, and what it reports; None when the show or the insert fails. */
  function Onboarded(s: State, feed: nat, request: Request, env: Env): Option<(State, Outcome)>
    requires Valid(s, env)
  {
    var resolved := Resolved(s, request, env);
    if resolved.None? then None
    else
      ResolvedShow(s, request, env);
      var (s1, id) := resolved.value;
      if Blocked(s1.subs, id, feed) then None
      else
        var show, choice := s1.shows[id], FindReusable(s1.subs, id, feed);
        var (subs, at) := Ensured(env, s1.subs, feed, id, show.title, request);
        Some((State(s1.shows[id := Taught(env, show, request.parsedName)], s1.byTmdb, subs),
              Outcome(Some(id), IsNew(s, request), Some(subs[at].id), choice.Create?, choice.Adopt?, AliasIsNew(env, show, request.parsedName))))
  }

  // ---- What a call does, said of the state before and after ----

  /** The show after it has been taught: the name is appended where it is not known yet, unless it is the title's. */
  ghost predicate Knowing(env: Env, before: Show, after: Show, parsedName: string, added: bool) {
    var name := env.strip(parsedName);
    var norm := env.sanitize(name);
    && after.title == before.title
    && if name == "" || norm == env.sanitize(before.title) then after == before && !added
       else
         var user := if "user" in before.sources then before.sources["user"] else [];
         && (added <==> norm !in before.aliases)
         && after.aliases == (if norm in before.aliases then before.aliases else before.aliases + [norm])
         && after.sources.Keys == before.sources.Keys + {"user"}
         && (forall tag :: tag in before.sources && tag != "user" ==> after.sources[tag] == before.sources[tag])
         // A show without buckets gets its whole list as the user's.
         && after.sources["user"] == if before.sources == map[] then after.aliases else if norm in user then user else user + [norm]
  }

  ghost predicate FirstOn(subs: seq<Subscription>, showId: nat, feed: Option<nat>, at: nat) {
    && at < |subs| && subs[at].showId == showId && subs[at].feedId == feed
    && forall i :: 0 <= i < at ==> !(subs[i].showId == showId && subs[i].feedId == feed)
  }

  ghost predicate NoneOn(subs: seq<Subscription>, showId: nat, feed: Option<nat>) {
    forall i :: 0 <= i < |subs| ==> !(subs[i].showId == showId && subs[i].feedId == feed)
  }

  /** A subscription without a regex of a kind takes the request's, with its flag; switches are only turned on. */
  ghost predicate FilledIn(before: Subscription, after: Subscription, feed: nat, request: Request) {
    && (after.id, after.remoteKey, after.showId, after.name) == (before.id, before.remoteKey, before.showId, before.name)
    && after.feedId == Some(feed)
    && (if before.regexInclude.None? || before.regexInclude == Some("")
        then after.regexInclude == request.regexInclude && after.includeIgnorecase == request.includeIgnorecase
        else after.regexInclude == before.regexInclude && after.includeIgnorecase == before.includeIgnorecase)
    && (if before.regexExclude.None? || before.regexExclude == Some("")
        then after.regexExclude == request.regexExclude && after.excludeIgnorecase == request.excludeIgnorecase
        else after.regexExclude == before.regexExclude && after.excludeIgnorecase == before.excludeIgnorecase)
    && (after.active <==> before.active || request.enabled)
    && (after.enabledInConfig <==> before.enabledInConfig || request.enabled)
  }

  /** A new subscription holds the request's filters as they are, and is called after the show if the request names none. */
  ghost predicate Requested(sub: Subscription, id: nat, feed: nat, showId: nat, title: string, request: Request) {
    && sub.id == id && sub.remoteKey.None? && sub.feedId == Some(feed) && sub.showId == showId
    && (if request.name.None? || request.name == Some("") then sub.name == title else Some(sub.name) == request.name)
    && sub.regexInclude == request.regexInclude && sub.regexExclude == request.regexExclude
    && sub.includeIgnorecase == request.includeIgnorecase && sub.excludeIgnorecase == request.excludeIgnorecase
    && sub.active == sub.enabledInConfig == request.enabled
  }

  /** The first subscription of the show on the feed, else its first unlinked one, else a new one; no other changes. */
  ghost predicate Subscribed(env: Env, before: seq<Subscription>, after: seq<Subscription>, feed: nat, showId: nat, title: string,
      request: Request, subId: nat, created: bool, adopted: bool)
  {
    || (exists i: nat :: FirstOn(before, showId, Some(feed), i)
         && after == before && subId == before[i].id && !created && !adopted)
    || (NoneOn(before, showId, Some(feed))
         && exists i: nat :: FirstOn(before, showId, None, i) && |after| == |before|
              && FilledIn(before[i], after[i], feed, request) && (forall j :: 0 <= j < |before| && j != i ==> after[j] == before[j])
              && subId == before[i].id && !created && adopted)
    || (NoneOn(before, showId, Some(feed)) && NoneOn(before, showId, None)
         && |after| == |before| + 1 && after[..|before|] == before
         && Requested(after[|before|], env.newSubId, feed, showId, title, request)
         && subId == env.newSubId && created && !adopted)
  }

  /** The show the request means, and whether it had to be created. */
  ghost predicate MeansShow(before: State, after: State, request: Request, env: Env, id: nat, created: bool) {
    match request.target
    case ById(asked) => id == asked && id in before.shows && !created && after.byTmdb == before.byTmdb
    case FromTmdb(t, _) =>
      if t in before.byTmdb then id == before.byTmdb[t] && id in before.shows && !created && after.byTmdb == before.byTmdb
      else env.created.Some? && id == env.newShowId && created && after.byTmdb == before.byTmdb[t := id]
  }

  ghost predicate Onboards(before: State, after: State, feed: nat, request: Request, env: Env, o: Outcome) {
    && o.showId.Some? && MeansShow(before, after, request, env, o.showId.value, o.showCreated)
    && var id := o.showId.value;
       var show := if o.showCreated then env.created.value else before.shows[id];
       && after.shows.Keys == before.shows.Keys + {id}
       && (forall x :: x in before.shows && x != id ==> after.shows[x] == before.shows[x])
       && Knowing(env, show, after.shows[id], request.parsedName, o.aliasAdded)
       && o.subscriptionId.Some?
       && Subscribed(env, before.subs, after.subs, feed, id, show.title, request, o.subscriptionId.value, o.subscriptionCreated, o.adoptedStub)
  }

  /** No show can be had, or it would need a second unpublished subscription. */
  ghost predicate Refused(s: State, feed: nat, request: Request, env: Env) {
    match request.target
    case ById(id) => id !in s.shows || NeedsSecond(s.subs, id, feed)
    case FromTmdb(t, _) =>
      if t in s.byTmdb then NeedsSecond(s.subs, s.byTmdb[t], feed)
      else env.created.None? || NeedsSecond(s.subs, env.newShowId, feed)
  }

  ghost predicate NeedsSecond(subs: seq<Subscription>, showId: nat, feed: nat) {
    && NoneOn(subs, showId, Some(feed)) && NoneOn(subs, showId, None)
    && exists i :: 0 <= i < |subs| && subs[i].showId == showId && subs[i].remoteKey.None?
  }

  lemma ChoiceMeans(subs: seq<Subscription>, showId: nat, feed: nat)
    ensures match FindReusable(subs, showId, feed)
            case Reuse(at) => FirstOn(subs, showId, Some(feed), at)
            case Adopt(at) => NoneOn(subs, showId, Some(feed)) && FirstOn(subs, showId, None, at)
            case Create => NoneOn(subs, showId, Some(feed)) && NoneOn(subs, showId, None)
    ensures Blocked(subs, showId, feed) <==> NeedsSecond(subs, showId, feed)
  {
    hide OnFeed, Unlinked;
  }

  lemma TaughtMeans(env: Env, show: Show, parsedName: string)
    ensures Knowing(env, show, Taught(env, show, parsedName), parsedName, AliasIsNew(env, show, parsedName))
  {
  }

  lemma EnsuredMeans(env: Env, subs: seq<Subscription>, feed: nat, showId: nat, title: string, request: Request)
    ensures var (after, at) := Ensured(env, subs, feed, showId, title, request);
            var choice := FindReusable(subs, showId, feed);
            Subscribed(env, subs, after, feed, showId, title, request, after[at].id, choice.Create?, choice.Adopt?)
  {
    hide FindReusable, NoneOn, FirstOn;
    ChoiceMeans(subs, showId, feed);
    match FindReusable(subs, showId, feed)
    case Reuse(at) => FirstIsThere(subs, showId, Some(feed), at);
    case Adopt(at) => FirstIsThere(subs, showId, None, at);
    case Create =>
  }

  lemma FirstIsThere(subs: seq<Subscription>, showId: nat, feed: Option<nat>, at: nat)
    requires FirstOn(subs, showId, feed, at)
    ensures at < |subs|
  {
  }

  /** A call does this, or is refused exactly then. */
  lemma OnboardedMeans(s: State, feed: nat, request: Request, env: Env)
    requires Valid(s, env)
    ensures Onboarded(s, feed, request, env).None? <==> Refused(s, feed, request, env)
    ensures Onboarded(s, feed, request, env).Some? ==>
      var (after, o) := Onboarded(s, feed, request, env).value; Onboards(s, after, feed, request, env, o)
  {
    hide FindReusable, Ensured, NeedsSecond, Subscribed, Knowing, Taught, AliasIsNew, Blocked;
    var resolved := Resolved(s, request, env);
    if resolved.Some? {
      ResolvedShow(s, request, env);
      var (s1, id) := resolved.value;
      ChoiceMeans(s.subs, id, feed);
      if Onboarded(s, feed, request, env).Some? {
        var (after, o) := Onboarded(s, feed, request, env).value;
        TaughtMeans(env, s1.shows[id], request.parsedName);
        EnsuredMeans(env, s.subs, feed, id, s1.shows[id].title, request);
      }
    }
  }

  /** `_plan`: the same questions, asked without writing. */
  function Plan(s: State, feed: nat, request: Request, env: Env): Option<Outcome>
    requires Valid(s, env)
  {
    if request.target.ById? && request.target.id !in s.shows then None
    else
      var id := if request.target.ById? then Some(request.target.id)
                else if request.target.tmdbId in s.byTmdb then Some(s.byTmdb[request.target.tmdbId]) else None;
      var title := if id.Some? then s.shows[id.value].title else request.target.title;
      var aliases := if id.Some? then s.shows[id.value].aliases else [];
      var name := env.strip(request.parsedName);
      var added := name != "" && !Knows(env, aliases, env.sanitize(name))
                   && env.sanitize(name) != env.sanitize(title);
      var choice := if id.Some? then FindReusable(s.subs, id.value, feed) else Create;
      Some(Outcome(id, id.None?, if choice.Create? then None else Some(s.subs[choice.at].id), choice.Create?, choice.Adopt?, added))
  }

  /** The plan and the call answer alike, up to the ids of what does not exist yet. */
  predicate SameAnswer(plan: Outcome, outcome: Outcome) {
    && plan.showCreated == outcome.showCreated && (plan.showId.Some? ==> plan.showId == outcome.showId)
    && plan.subscriptionCreated == outcome.subscriptionCreated && plan.adoptedStub == outcome.adoptedStub
    && (plan.subscriptionId.Some? ==> plan.subscriptionId == outcome.subscriptionId)
    && plan.aliasAdded == outcome.aliasAdded
  }

  predicate Knows(env: Env, aliases: seq<string>, norm: string) {
    exists i :: 0 <= i < |aliases| && env.sanitize(aliases[i]) == norm
  }

  /** The show knows the name under exactly the spelling it would be stored in, or not at all. */
  predicate CanonicalFor(env: Env, aliases: seq<string>, norm: string) {
    norm in aliases <==> Knows(env, aliases, norm)
  }

  /** For a show that exists the plan is what the call does exactly when its aliases are canonical for the name and no stub blocks it. */
  lemma PlanExactly(s: State, feed: nat, request: Request, env: Env)
    requires Valid(s, env) && Resolved(s, request, env).Some? && !IsNew(s, request)
    ensures var id := Resolved(s, request, env).value.1;
            var done := Onboarded(s, feed, request, env);
            Plan(s, feed, request, env).Some?
            && ((done.Some? && SameAnswer(Plan(s, feed, request, env).value, done.value.1))
                <==> !Blocked(s.subs, id, feed)
                     && (Teaches(env, s.shows[id], request.parsedName) ==>
                           CanonicalFor(env, s.shows[id].aliases, env.sanitize(env.strip(request.parsedName)))))
  {
    var id := Resolved(s, request, env).value.1;
    if !Blocked(s.subs, id, feed) {
      var (subs, at) := Ensured(env, s.subs, feed, id, s.shows[id].title, request);
      var choice := FindReusable(s.subs, id, feed);
      assert !choice.Create? ==> at == choice.at && subs[at].id == s.subs[at].id;
    }
  }

  function SampleEnv(): Env {
    Env(x => x, x => if x == "Foo" then "foo" else x, None, 2, 2)
  }

  function SampleRequest(): Request {
    Request(ById(1), "Foo", None, None, None, true, true, true)
  }

  /** Both conditions are needed. An alias stored in capitals is known to the plan and new to the call: */
  lemma PlanMissesCapitals() returns (s: State)
    ensures Valid(s, SampleEnv()) && OneStubPerShow(s.subs)
    ensures Plan(s, 5, SampleRequest(), SampleEnv()).Some? && Onboarded(s, 5, SampleRequest(), SampleEnv()).Some?
    ensures !Plan(s, 5, SampleRequest(), SampleEnv()).value.aliasAdded
    ensures Onboarded(s, 5, SampleRequest(), SampleEnv()).value.1.aliasAdded
  {
    s := State(map[1 := Show("Title", ["Foo"], map[])], map[], []);
    assert Knows(SampleEnv(), ["Foo"], "foo") by {
      assert SampleEnv().sanitize(["Foo"][0]) == "foo";
    }
  }

  /** and an unpublished subscription on another feed blocks the insert the plan announces. */
  lemma PlanMissesBlock() returns (s: State)
    ensures Valid(s, SampleEnv()) && OneStubPerShow(s.subs)
    ensures Plan(s, 5, SampleRequest(), SampleEnv()).Some? && Plan(s, 5, SampleRequest(), SampleEnv()).value.subscriptionCreated
    ensures Onboarded(s, 5, SampleRequest(), SampleEnv()).None?
  {
    var elsewhere := Subscription(1, None, Some(6), 1, "Title", None, None, true, true, false, false);
    s := State(map[1 := Show("Title", [], map[])], map[], [elsewhere]);
    assert OnFeed(s.subs, 1, 5) == 1 && Unlinked(s.subs, 1) == 1;
    assert s.subs[0].showId == 1 && s.subs[0].remoteKey.None?;
  }

  /** For a show the call creates, the plan only has the request's title to go by. */
  lemma PlanForNewShow(s: State, feed: nat, request: Request, env: Env)
    requires Valid(s, env) && Resolved(s, request, env).Some? && IsNew(s, request)
    ensures var name := env.strip(request.parsedName);
            var done, show := Onboarded(s, feed, request, env), env.created.value;
            && done.Some? && Plan(s, feed, request, env).Some?
            && (SameAnswer(Plan(s, feed, request, env).value, done.value.1)
                <==> name == "" || (env.sanitize(name) == env.sanitize(request.target.title)
                                    <==> env.sanitize(name) == env.sanitize(show.title) || env.sanitize(name) in show.aliases))
  {
    var choice := FindReusable(s.subs, env.newShowId, feed);
    assert choice.Create? by {
      assert OnFeed(s.subs, env.newShowId, feed) == |s.subs| && Unlinked(s.subs, env.newShowId) == |s.subs|;
    }
  }

  lemma ReusesItsOwn(env: Env, subs: seq<Subscription>, feed: nat, showId: nat, title: string, request: Request)
    ensures var (after, at) := Ensured(env, subs, feed, showId, title, request);
            FindReusable(after, showId, feed) == Reuse(at) && !Blocked(after, showId, feed)
  {
    var (after, at) := Ensured(env, subs, feed, showId, title, request);
    assert after[at].showId == showId && after[at].feedId == Some(feed);
    assert forall i :: 0 <= i < at ==> after[i] == subs[i];
  }

  lemma SameStrings(env: Env, later: Env, show: Show, parsedName: string)
    requires later.strip == env.strip && later.sanitize == env.sanitize
    ensures Taught(later, show, parsedName) == Taught(env, show, parsedName)
    ensures AliasIsNew(later, show, parsedName) == AliasIsNew(env, show, parsedName)
  {
  }

  /** A second identical call finds everything in place: the same show and subscription, all flags false, nothing changed. */
  lemma OnboardingIsIdempotent(s: State, feed: nat, request: Request, env: Env, later: Env)
    requires Valid(s, env) && Onboarded(s, feed, request, env).Some?
    requires later.strip == env.strip && later.sanitize == env.sanitize
    requires Valid(Onboarded(s, feed, request, env).value.0, later)
    ensures var (s1, first) := Onboarded(s, feed, request, env).value;
            Onboarded(s1, feed, request, later) == Some((s1, Outcome(first.showId, false, first.subscriptionId, false, false, false)))
  {
    hide Taught, AliasIsNew, FindReusable, Blocked;
    var (s1, id) := Resolved(s, request, env).value;
    var show := s1.shows[id];
    var (s2, _) := Onboarded(s, feed, request, env).value;
    ReusesItsOwn(env, s1.subs, feed, id, show.title, request);
    TeachingIsIdempotent(env, show, request.parsedName);
    assert s2.shows[id] == Taught(env, show, request.parsedName);
    SameStrings(env, later, s2.shows[id], request.parsedName);
    assert s2.shows[id := s2.shows[id]] == s2.shows;
  }

  class FeedOnboardingOrchestrator {
    /** What the session holds, and what is committed. */
    var state: State
    var saved: State

    constructor (s: State)
      ensures state == saved == s
    {
      state, saved := s, s;
    }

    /** A show that must be created is committed by the creation service. */
    method ResolveShow(request: Request, env: Env) returns (id: Option<nat>, created: bool)
      requires Valid(state, env) && state == saved
      modifies this
      ensures var resolved := Resolved(old(state), request, env);
              if resolved.None? then id.None? && state == saved == old(state)
              else id == Some(resolved.value.1) && state == saved == resolved.value.0 && created == IsNew(old(state), request)
    {
      match request.target {
        case ById(showId) =>
          id, created := if showId in state.shows then Some(showId) else None, false;
        case FromTmdb(tmdbId, _) =>
          if tmdbId in state.byTmdb {
            id, created := Some(state.byTmdb[tmdbId]), false;
          } else if env.created.None? {
            id, created := None, false;
          } else {
            state := state.(shows := state.shows[env.newShowId := env.created.value], byTmdb := state.byTmdb[tmdbId := env.newShowId]);
            saved := state;
            id, created := Some(env.newShowId), true;
          }
      }
    }

    method TeachAlias(id: nat, parsedName: string, env: Env) returns (added: bool)
      requires id in state.shows
      modifies this`state
      ensures added == AliasIsNew(env, old(state).shows[id], parsedName)
      ensures state == old(state).(shows := old(state).shows[id := Taught(env, old(state).shows[id], parsedName)])
      ensures Knowing(env, old(state).shows[id], state.shows[id], parsedName, added)
    {
      TaughtMeans(env, state.shows[id], parsedName);
      var name, show := env.strip(parsedName), state.shows[id];
      if name == "" || env.sanitize(name) == env.sanitize(show.title) {
        assert state.shows == state.shows[id := show];
        return false;
      }
      var norm := env.sanitize(name);
      added := norm !in show.aliases;
      if norm !in show.aliases {
        show := show.(aliases := show.aliases + [norm]);
      }
      var sources := show.sources;
      if show.sources == map[] {
        sources := sources["user" := show.aliases];
      }
      var user := if "user" in sources then sources["user"] else [];
      if norm !in user {
        sources := sources["user" := user + [norm]];
      }
      state := state.(shows := state.shows[id := show.(sources := sources)]);
    }

    method EnsureSubscription(feed: nat, id: nat, request: Request, env: Env) returns (at: nat, created: bool, adopted: bool)
      requires id in state.shows
      modifies this`state
      ensures var choice := FindReusable(old(state).subs, id, feed);
              var (subs, i) := Ensured(env, old(state).subs, feed, id, old(state).shows[id].title, request);
              && state == old(state).(subs := subs) && at == i < |subs|
              && created == choice.Create? && adopted == choice.Adopt?
      ensures Subscribed(env, old(state).subs, state.subs, feed, id, old(state).shows[id].title, request, state.subs[at].id, created, adopted)
    {
      hide Subscribed;
      EnsuredMeans(env, state.subs, feed, id, state.shows[id].title, request);
      var choice := FindReusable(state.subs, id, feed);
      match choice {
        case Reuse(i) =>
          return i, false, false;
        case Adopt(i) =>
          var sub := state.subs[i].(feedId := Some(feed));
          if Text(sub.regexInclude) == "" {
            sub := sub.(regexInclude := request.regexInclude, includeIgnorecase := request.includeIgnorecase);
          }
          if Text(sub.regexExclude) == "" {
            sub := sub.(regexExclude := request.regexExclude, excludeIgnorecase := request.excludeIgnorecase);
          }
          sub := sub.(active := sub.active || request.enabled, enabledInConfig := sub.enabledInConfig || request.enabled);
          state := state.(subs := state.subs[i := sub]);
          return i, false, true;
        case Create =>
          var sub := NewSubscription(env, feed, id, state.shows[id].title, request);
          state := state.(subs := state.subs + [sub]);
          return |state.subs| - 1, true, false;
      }
    }

    /** The call and the commit or rollback that ends its request. */
    method AddShowFromFeed(feed: nat, request: Request, env: Env, dryRun: bool) returns (outcome: Option<Outcome>)
      requires Valid(state, env) && state == saved && OneStubPerShow(state.subs)
      modifies this
      ensures dryRun ==> outcome == Plan(old(state), feed, request, env) && state == old(state)
      ensures state == saved && OneStubPerShow(state.subs)
      ensures var done := Onboarded(old(state), feed, request, env);
              !dryRun ==>
                && (outcome.Some? <==> done.Some?)
                && (done.Some? ==> outcome.value == done.value.1 && saved == done.value.0)
                // What is done for the show, its aliases and its subscriptions, and when nothing is;
                && (outcome.Some? ==> Onboards(old(state), state, feed, request, env, outcome.value))
                && (outcome.None? <==> Refused(old(state), feed, request, env))
                // a blocked insert costs everything but the created show.
                && (done.None? && Resolved(old(state), request, env).Some? ==> saved == Resolved(old(state), request, env).value.0)
    {
      hide Onboards, Refused;
      if dryRun {
        return Plan(state, feed, request, env);
      }
      OnboardedMeans(state, feed, request, env);
      var id, created := ResolveShow(request, env);
      if id.None? {
        return None;
      }
      ResolvedShow(old(state), request, env);
      ghost var subs, title := state.subs, state.shows[id.value].title;
      BlockedExactly(env, subs, feed, id.value, title, request);
      var blocked := Blocked(state.subs, id.value, feed);
      var added := TeachAlias(id.value, request.parsedName, env);
      var at, inserted, adopted := EnsureSubscription(feed, id.value, request, env);
      if blocked {
        // The flush meets the unique index, and the request is rolled back.
        state := saved;
        return None;
      }
      saved := state;
      return Some(Outcome(id, created, Some(state.subs[at].id), inserted, adopted, added));
    }
  }
}
