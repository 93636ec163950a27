/** Library paths in the browser: folder names, container paths and host paths. */
module Paths {
  import opened Common
  import opened Text

  datatype ContentType = Tv | Anime | Movie

  /** The container-side and host-side base of each library. */
  datatype Base = Base(container: string, host: string)
  datatype MediaPaths = MediaPaths(tv: Base, anime: Base, movie: Base) {
    function At(t: ContentType): Base {
      match t
      case Tv => tv
      case Anime => anime
      case Movie => movie
    }
  }

  // ---- Folder names ----

  predicate IsIllegal(c: char) {
    c in "\\/:*?\"<>|"
  }

  /** Illegal characters become a space, and a run of white space one space. */
  function Collapsed(s: string): string {
    if s == "" then ""
    else
      var before, c := Collapsed(s[..|s| - 1]), s[|s| - 1];
      if !IsSpace(c) && !IsIllegal(c) then before + [c]
      else if EndsInSpace(before) then before
      else before + [' ']
  }

  predicate EndsInSpace(s: string) {
    s != "" && s[|s| - 1] == ' '
  }

  /** Once collapsed, only a single space can be left at either end. */
  function Trim(s: string): string {
    RStrip(LStrip(s, ' '), ' ')
  }

  function SanitizeFolderName(title: string): string {
    var sanitized := Trim(Collapsed(title));
    if sanitized == "" then "Untitled" else sanitized
  }

  /** A folder name: only single inner spaces as white space, and no illegal character. */
  ghost predicate IsFolderName(s: string) {
    && s != "" && s[0] != ' ' && s[|s| - 1] != ' '
    && Tidy(s)
  }

  ghost predicate Tidy(s: string) {
    && (forall i :: 0 <= i < |s| ==> !IsIllegal(s[i]) && (IsSpace(s[i]) ==> s[i] == ' '))
    && (forall i :: 0 < i < |s| ==> s[i - 1] != ' ' || s[i] != ' ')
  }

  /** White space and illegal characters separate the words of a name. */
  predicate Separates(c: char) {
    IsSpace(c) || c in "\\/:*?\"<>|"
  }

  /** The words of a name, in order. */
  function Words(s: string): seq<string> {
    if s == "" then []
    else
      var before, c := Words(s[..|s| - 1]), s[|s| - 1];
      if Separates(c) then before
      else if |s| == 1 || Separates(s[|s| - 2]) || before == [] then before + [[c]]
      else before[..|before| - 1] + [before[|before| - 1] + [c]]
  }

  lemma {:induction false} CollapsedTidy(s: string)
    ensures Tidy(Collapsed(s))
  {
    if s != "" {
      CollapsedTidy(s[..|s| - 1]);
    }
  }

  lemma {:induction false} CollapsedEnd(s: string)
    ensures (Collapsed(s) == "" <==> s == "") && (EndsInSpace(Collapsed(s)) <==> s != "" && Separates(s[|s| - 1]))
  {
    if s != "" {
      CollapsedEnd(s[..|s| - 1]);
    }
  }

  lemma WordsStep(s: string, c: char)
    ensures var before := Words(s);
            Words(s + [c]) == if Separates(c) then before
                              else if s == "" || Separates(s[|s| - 1]) || before == [] then before + [[c]]
                              else before[..|before| - 1] + [before[|before| - 1] + [c]]
  {
    assert (s + [c])[..|s|] == s;
  }

  lemma SpacesSeparate(c: char)
    ensures Separates(' ') && (Separates(c) <==> IsSpace(c) || IsIllegal(c))
  {
  }

  lemma {:induction false} CollapsedWords(s: string)
    ensures Words(Collapsed(s)) == Words(s)
  {
    hide Words, Separates, IsSpace, IsIllegal;
    if s != "" {
      var before, c := s[..|s| - 1], s[|s| - 1];
      assert s == before + [c];
      CollapsedWords(before);
      CollapsedEnd(before);
      SpacesSeparate(c);
      WordsStep(before, c);
      WordsStep(Collapsed(before), c);
      WordsStep(Collapsed(before), ' ');
      CollapsedTidy(before);
      LastSeparates(Collapsed(before));
    }
  }

  /** In a collapsed name the only separator is a space. */
  lemma LastSeparates(s: string)
    ensures Tidy(s) && s != "" ==> (Separates(s[|s| - 1]) <==> EndsInSpace(s))
  {
  }

  lemma {:induction false} CollapsedKeeps(s: string)
    requires Tidy(s)
    ensures Collapsed(s) == s
  {
    if s != "" {
      CollapsedKeeps(s[..|s| - 1]);
    }
  }

  lemma {:induction false} WordsOfSuffix(s: string)
    requires s != "" && s[0] == ' '
    ensures Words(s[1..]) == Words(s)
  {
    if |s| > 1 {
      WordsOfSuffix(s[..|s| - 1]);
      assert s[..|s| - 1][1..] == s[1..][..|s| - 2];
    }
  }

  lemma TrimTidy(s: string)
    requires Tidy(s)
    ensures Tidy(Trim(s)) && Words(Trim(s)) == Words(s)
    ensures Trim(s) != "" ==> Trim(s)[0] != ' ' && Trim(s)[|Trim(s)| - 1] != ' '
  {
    var left := LStrip(s, ' ');
    if s != "" && s[0] == ' ' {
      WordsOfSuffix(s);
      assert |s| > 1 ==> s[1..][0] == s[1] != ' ';
      assert LStrip(s[1..], ' ') == s[1..];
    }
    RStripFacts(left, ' ');
    assert Trim(s) == left || Trim(s) == left[..|left| - 1];
  }

  lemma TrimKeeps(s: string)
    requires IsFolderName(s)
    ensures Trim(s) == s
  {
  }

  /** The result is a folder name made of the title's own words; a folder name is left alone, so sanitizing twice changes nothing. */
  lemma SanitizedFolderName(title: string)
    ensures var name := SanitizeFolderName(title);
            && IsFolderName(name) && (forall c :: c in name ==> c !in "\\/:*?\"<>|")
            && Words(name) == (if Words(title) == [] then ["Untitled"] else Words(title))
            && SanitizeFolderName(name) == name
  {
    hide IsSpace;
    CollapsedTidy(title);
    CollapsedWords(title);
    TrimTidy(Collapsed(title));
    var name := SanitizeFolderName(title);
    if Trim(Collapsed(title)) == "" {
      UntitledIsFolderName();
    } else {
      SomeWord(name);
    }
    CollapsedKeeps(name);
    TrimKeeps(name);
  }

  lemma SomeWord(s: string)
    requires s != "" && s[|s| - 1] != ' ' && Tidy(s)
    ensures Words(s) != []
  {
  }

  lemma UntitledIsFolderName()
    ensures IsFolderName("Untitled") && Words("Untitled") == ["Untitled"]
  {
    OneWord("Untitled");
  }

  lemma {:induction false} OneWord(s: string)
    requires s != "" && forall i :: 0 <= i < |s| ==> !Separates(s[i])
    ensures Words(s) == [s]
  {
    hide Words, Separates;
    var before, c := s[..|s| - 1], s[|s| - 1];
    assert s == before + [c];
    WordsStep(before, c);
    if before == "" {
      NoWords();
    } else {
      OneWord(before);
    }
  }

  lemma NoWords()
    ensures Words("") == []
  {
  }

  // ---- Container paths ----

  /** The folder part as it is stored. */
  function Slashed(folder: string): string {
    LStrip(Replace(folder, '\\', '/'), '/')
  }

  predicate IsSlashed(s: string) {
    '\\' !in s && (s == "" || s[0] != '/')
  }

  function ToContainerPath(t: ContentType, folder: string, media: MediaPaths): string {
    media.At(t).container + "/" + Slashed(folder)
  }

  predicate Under(base: string, path: string) {
    path == base || base + "/" <= path
  }

  /** The bases are tried in the order tv, anime, movie. */
  function Recognised(path: string, media: MediaPaths): Option<ContentType> {
    if Under(media.tv.container, path) then Some(Tv)
    else if Under(media.anime.container, path) then Some(Anime)
    else if Under(media.movie.container, path) then Some(Movie)
    else None
  }

  function WithoutSlash(s: string): string {
    if s != "" && s[0] == '/' then s[1..] else s
  }

  function NonEmptyParts(parts: seq<string>): (kept: seq<string>)
    ensures forall p :: p in kept <==> p in parts && p != ""
  {
    if parts == [] then []
    else (if parts[0] == "" then [] else [parts[0]]) + NonEmptyParts(parts[1..])
  }

  function LastName(path: string): string {
    var parts := NonEmptyParts(Split(Replace(path, '\\', '/'), '/'));
    if parts == [] then "" else parts[|parts| - 1]
  }

  /** An absent path reads as an empty anime folder; an unrecognised one as a tv folder of its last name. */
  function ParseContainerPath(path: Option<string>, media: MediaPaths): (ContentType, string) {
    if path.GetOr("") == "" then (Anime, "")
    else
      var p := path.value;
      match Recognised(p, media)
      case Some(t) => (t, WithoutSlash(p[|media.At(t).container|..]))
      case None => (Tv, LastName(p))
  }

  ghost predicate AllEmpty(parts: seq<string>) {
    forall i :: 0 <= i < |parts| ==> parts[i] == ""
  }

  lemma {:induction false} EmptyParts(parts: seq<string>)
    requires AllEmpty(parts)
    ensures NonEmptyParts(parts) == []
  {
    if parts != [] {
      EmptyParts(parts[1..]);
    }
  }

  lemma {:induction false} LastPart(parts: seq<string>, name: string, rest: seq<string>)
    requires name != "" && AllEmpty(rest)
    ensures var kept := NonEmptyParts(parts + [name] + rest);
            kept != [] && kept[|kept| - 1] == name
  {
    var all := parts + [name] + rest;
    if parts == [] {
      assert all[0] == name && all[1..] == rest;
      EmptyParts(rest);
    } else {
      LastPart(parts[1..], name, rest);
      assert all[1..] == parts[1..] + [name] + rest;
    }
  }

  /** The names before the last slash, the last name and the names after the slashes that end a path. */
  lemma SplitAround(head: string, name: string, tail: string) returns (before: seq<string>, after: seq<string>)
    requires '/' !in name && (head == "" || head[|head| - 1] == '/') && forall i :: 0 <= i < |tail| ==> tail[i] == '/'
    ensures Split(head + name + tail, '/') == before + [name] + after && AllEmpty(after) && (head == "" ==> before == [])
  {
    hide Split;
    SplitWhole(name, '/');
    before, after := [], [];
    if head != "" {
      var front := head[..|head| - 1];
      assert head == front + ['/'];
      SplitConcat(front, '/', name);
      before := Split(front, '/');
    } else {
      assert head + name == name;
    }
    if tail != "" {
      assert head + name + tail == head + name + ['/'] + tail[1..];
      SplitConcat(head + name, '/', tail[1..]);
      SlashesOnly(tail[1..]);
      after := Split(tail[1..], '/');
    } else {
      assert head + name + tail == head + name;
    }
  }

  /** An unrecognised path is a tv folder of its last name, whichever slashes it uses; of slashes alone, the empty folder. */
  lemma LastNameOf(path: string, head: string, name: string, tail: string, media: MediaPaths)
    requires path != "" && Recognised(path, media).None? && Replace(path, '\\', '/') == head + name + tail
    requires '/' !in name && (name == "" ==> head == "") && (head == "" || head[|head| - 1] == '/')
    requires forall i :: 0 <= i < |tail| ==> tail[i] == '/'
    ensures ParseContainerPath(Some(path), media) == (Tv, name)
  {
    hide Split, NonEmptyParts;
    var before, after := SplitAround(head, name, tail);
    if name == "" {
      EmptyParts(before + [name] + after);
    } else {
      LastPart(before, name, after);
    }
  }

  lemma {:induction false} SlashesOnly(s: string)
    requires forall i :: 0 <= i < |s| ==> s[i] == '/'
    ensures AllEmpty(Split(s, '/'))
  {
    if s != "" {
      SlashesOnly(s[1..]);
      assert ([""] + Split(s[1..], '/'))[1..] == Split(s[1..], '/');
    }
  }

  lemma SlashedFacts(folder: string)
    ensures IsSlashed(Slashed(folder))
    ensures IsSlashed(folder) ==> Slashed(folder) == folder
  {
    var replaced := Replace(folder, '\\', '/');
    var cut := LStripFacts(replaced, '/');
    if IsSlashed(folder) {
      assert replaced == folder;
    }
  }

  /** A folder is stored with forward slashes and without leading ones; nothing else of it changes. */
  lemma SlashedMeans(folder: string)
    ensures var cut := |folder| - |Slashed(folder)|;
            && 0 <= cut && (forall i :: 0 <= i < cut ==> folder[i] in "/\\")
            && (Slashed(folder) != "" ==> folder[cut] !in "/\\")
            && forall i :: 0 <= i < |Slashed(folder)| ==> Slashed(folder)[i] == if folder[cut + i] == '\\' then '/' else folder[cut + i]
  {
    var cut := LStripFacts(Replace(folder, '\\', '/'), '/');
  }

  /** Without a path the anime library is offered; a base itself is its own empty folder. */
  lemma NoFolder(t: ContentType, media: MediaPaths)
    ensures ParseContainerPath(None, media) == ParseContainerPath(Some(""), media) == (Anime, "")
    ensures media.At(t).container != "" && (forall e :: Earlier(e, t) ==> !Under(media.At(e).container, media.At(t).container)) ==>
      ParseContainerPath(Some(media.At(t).container), media) == (t, "")
  {
    var base := media.At(t).container;
    assert base[|base|..] == "";
    assert Earlier(Tv, Anime) && Earlier(Tv, Movie) && Earlier(Anime, Movie);
  }

  predicate Earlier(e: ContentType, t: ContentType) {
    (e.Tv? && !t.Tv?) || (e.Anime? && t.Movie?)
  }

  /** Parsing a built path gives its parts back exactly when no earlier base also covers it. */
  lemma ParseBuilt(t: ContentType, folder: string, media: MediaPaths)
    ensures var path := ToContainerPath(t, folder, media);
            ParseContainerPath(Some(path), media) == (t, Slashed(folder))
            <==> forall e :: Earlier(e, t) ==> !Under(media.At(e).container, path)
  {
    var base, path := media.At(t).container, ToContainerPath(t, folder, media);
    assert base + "/" <= path;
    assert path[|base|..] == "/" + Slashed(folder) && ("/" + Slashed(folder))[1..] == Slashed(folder);
    assert Earlier(Tv, Anime) && Earlier(Tv, Movie) && Earlier(Anime, Movie);
  }

  /** The base of `e` hides some folder of `t`: it is the same, an ancestor, or one of the folders itself. */
  ghost predicate Shadows(e: ContentType, t: ContentType, media: MediaPaths) {
    var outer, inner := media.At(e).container, media.At(t).container;
    Under(outer, inner) || (inner + "/" <= outer && IsSlashed(outer[|inner| + 1..]))
  }

  lemma ShadowsExactly(e: ContentType, t: ContentType, media: MediaPaths)
    ensures Shadows(e, t, media) <==> exists folder :: Under(media.At(e).container, ToContainerPath(t, folder, media))
  {
    var outer, inner := media.At(e).container, media.At(t).container;
    if Under(outer, inner) {
      assert Slashed("") == "" by {
        SlashedFacts("");
      }
      if outer == inner {
        assert Under(outer, ToContainerPath(t, "", media));
      } else {
        assert outer + "/" <= inner <= ToContainerPath(t, "", media);
      }
    } else if Shadows(e, t, media) {
      var folder := outer[|inner| + 1..];
      SlashedFacts(folder);
      assert outer == inner + "/" + folder;
      assert Under(outer, ToContainerPath(t, folder, media));
    }
    forall folder | Under(outer, ToContainerPath(t, folder, media)) ensures Shadows(e, t, media) {
      SlashedFacts(folder);
      CoveredFolder(outer, inner, Slashed(folder));
    }
  }

  /** A base that covers a path below another one is that one, an ancestor of it, or lies below it. */
  lemma CoveredFolder(outer: string, inner: string, rest: string)
    requires Under(outer, inner + "/" + rest) && IsSlashed(rest)
    ensures Under(outer, inner) || (inner + "/" <= outer && IsSlashed(outer[|inner| + 1..]))
  {
    var path := inner + "/" + rest;
    assert outer <= path;
    if |outer| > |inner| {
      assert outer == path[..|outer|] && inner + "/" == path[..|inner| + 1];
      assert outer[|inner| + 1..] == rest[..|outer| - |inner| - 1];
    } else if |outer| < |inner| {
      assert outer + "/" == path[..|outer| + 1] == inner[..|outer| + 1];
    }
  }

  /** All folders of a type survive the round trip exactly when no earlier base shadows its base. */
  lemma RoundTripExactly(t: ContentType, media: MediaPaths)
    ensures (forall folder :: ParseContainerPath(Some(ToContainerPath(t, folder, media)), media) == (t, Slashed(folder)))
            <==> forall e :: Earlier(e, t) ==> !Shadows(e, t, media)
  {
    forall folder
      ensures ParseContainerPath(Some(ToContainerPath(t, folder, media)), media) == (t, Slashed(folder))
              <==> forall e :: Earlier(e, t) ==> !Under(media.At(e).container, ToContainerPath(t, folder, media))
    {
      ParseBuilt(t, folder, media);
    }
    forall e ensures Shadows(e, t, media) <==> exists folder :: Under(media.At(e).container, ToContainerPath(t, folder, media)) {
      ShadowsExactly(e, t, media);
    }
  }

  /** Rebuilding a parsed path gives it back exactly when it lies below the base found for it, in stored form. */
  lemma RebuildExactly(path: Option<string>, media: MediaPaths)
    ensures var (t, folder) := ParseContainerPath(path, media);
            Some(ToContainerPath(t, folder, media)) == path
            <==> path.Some? && Recognised(path.value, media) == Some(t)
                 && path.value != media.At(t).container && IsSlashed(path.value[|media.At(t).container| + 1..])
  {
    var (t, folder) := ParseContainerPath(path, media);
    var base := media.At(t).container;
    SlashedFacts(folder);
    if path.Some? && path.value != "" {
      var p := path.value;
      if Recognised(p, media) == Some(t) {
        if p != base {
          assert p == base + "/" + p[|base| + 1..];
          assert folder == p[|base| + 1..];
        }
      } else {
        assert ToContainerPath(t, folder, media) == p ==> Under(media.tv.container, p);
      }
    }
  }

  /** A show's library path is always one level below its base, and parses back when no base shadows it. */
  lemma LibraryPath(t: ContentType, title: string, media: MediaPaths)
    requires forall e :: Earlier(e, t) ==> !Shadows(e, t, media)
    ensures var name := SanitizeFolderName(title);
            && ToContainerPath(t, name, media) == media.At(t).container + "/" + name
            && '/' !in name && '\\' !in name && name != ""
            && ParseContainerPath(Some(ToContainerPath(t, name, media)), media) == (t, name)
  {
    var name := SanitizeFolderName(title);
    SanitizedFolderName(title);
    SlashedFacts(name);
    RoundTripExactly(t, media);
  }

  // ---- Host paths ----

  function RStripAny(s: string): (r: string)
    ensures r <= s && (r == "" || r[|r| - 1] !in "/\\")
  {
    if s != "" && s[|s| - 1] in "/\\" then RStripAny(s[..|s| - 1]) else s
  }

  lemma {:induction false} RStripAnyFacts(s: string)
    ensures RStripAny(s) <= s && forall i :: |RStripAny(s)| <= i < |s| ==> s[i] in "/\\"
  {
    if s != "" && s[|s| - 1] in "/\\" {
      RStripAnyFacts(s[..|s| - 1]);
    }
  }

  function Separator(host: string): char {
    if '\\' in host then '\\' else '/'
  }

  lemma SeparatorMeans(host: string)
    ensures Separator(host) == if '\\' in host then '\\' else '/'
  {
  }

  /** The first base in `order` that covers the path decides; without one the path is left alone. */
  function ToHostPath(path: string, order: seq<Base>): string {
    if order == [] then path
    else if Under(order[0].container, path) then
      RStripAny(order[0].host) + Replace(path[|order[0].container|..], '/', Separator(order[0].host))
    else ToHostPath(path, order[1..])
  }

  lemma ReplaceSlash(s: string)
    ensures Replace(s, '/', '/') == s
  {
  }

  lemma CancelPrefix(host: string, x: string, y: string)
    ensures host + x == host + y <==> x == y
  {
    assert (host + x)[|host|..] == x && (host + y)[|host|..] == y;
  }

  /** The base at `k` of the order is the first one that covers the path. */
  ghost predicate FirstCover(path: string, order: seq<Base>, k: nat) {
    && k < |order| && Under(order[k].container, path)
    && forall i :: 0 <= i < k ==> !Under(order[i].container, path)
  }

  lemma {:induction false} CoveredBy(path: string, order: seq<Base>, k: nat)
    requires FirstCover(path, order, k)
    ensures ToHostPath(path, order)
         == RStripAny(order[k].host) + Replace(path[|order[k].container|..], '/', Separator(order[k].host))
  {
    if k > 0 {
      CoveredBy(path, order[1..], k - 1);
    }
  }

  /**
   The host path is the base's host path without its trailing slashes, then the rest of the path, with the slashes
   of the host; a path below no base is left alone.
   */
  lemma HostPathMeans(path: string, order: seq<Base>, k: nat)
    ensures FirstCover(path, order, k) ==>
      var base, host := order[k], ToHostPath(path, order);
      var n := |base.host| + |path| - |base.container| - |host|;
      && 0 <= n <= |base.host|
      && (forall i :: |base.host| - n <= i < |base.host| ==> base.host[i] in "/\\")
      && (n < |base.host| ==> base.host[|base.host| - n - 1] !in "/\\")
      && host[..|base.host| - n] == base.host[..|base.host| - n]
      && forall i :: |base.container| <= i < |path| ==>
           host[|base.host| - n + i - |base.container|] == if path[i] == '/' && '\\' in base.host then '\\' else path[i]
    ensures (forall i :: 0 <= i < |order| ==> !Under(order[i].container, path)) ==> ToHostPath(path, order) == path
  {
    hide RStripAny, ToHostPath, Separator;
    if FirstCover(path, order, k) {
      CoveredBy(path, order, k);
      RStripAnyFacts(order[k].host);
      SeparatorMeans(order[k].host);
    }
    if forall i :: 0 <= i < |order| ==> !Under(order[i].container, path) {
      Uncovered(path, order);
    }
  }

  lemma {:induction false} Uncovered(path: string, order: seq<Base>)
    requires forall i :: 0 <= i < |order| ==> !Under(order[i].container, path)
    ensures ToHostPath(path, order) == path
  {
    if order != [] {
      Uncovered(path, order[1..]);
    }
  }

  /** Below one base, two container paths share a host path only if they differ in which slash they use, and the host is Windows. */
  lemma HostPathsDistinct(a: string, b: string, order: seq<Base>, k: nat)
    requires FirstCover(a, order, k) && FirstCover(b, order, k)
    ensures var n := |order[k].container|;
            ToHostPath(a, order) == ToHostPath(b, order)
            <==> a == b || ('\\' in order[k].host && Replace(a[n..], '/', '\\') == Replace(b[n..], '/', '\\'))
  {
    var base := order[k];
    var n, sep := |base.container|, Separator(base.host);
    assert a == base.container + a[n..] && b == base.container + b[n..];
    CoveredBy(a, order, k);
    CoveredBy(b, order, k);
    CancelPrefix(base.container, a[n..], b[n..]);
    CancelPrefix(RStripAny(base.host), Replace(a[n..], '/', sep), Replace(b[n..], '/', sep));
    ReplaceSlash(a[n..]);
    ReplaceSlash(b[n..]);
  }
}
