/**
 Where a remote file is staged (`_staging_path_for`): the longest configured scan root is stripped,
 the rest is mirrored below the staging root, and a destination outside that root is refused.
 A path is its list of names; `resolve()` is taken lexically, without symbolic links.
 */
module Staging {
  import opened Common
  import opened Text

  type Path = seq<string>

  function RootName(root: string): string {
    RStrip(LStrip(root, '/'), '/')
  }

  ghost predicate AllSlashes(s: string) {
    forall i :: 0 <= i < |s| ==> s[i] == '/'
  }

  /** A root may be written with any number of slashes before and after it. */
  lemma RootWritten(left: string, core: string, right: string)
    requires AllSlashes(left) && AllSlashes(right) && (core == "" || (core[0] != '/' && core[|core| - 1] != '/'))
    ensures RootName(left + core + right) == core
  {
    StripLeft(left, core + right);
    assert left + core + right == left + (core + right);
    if core == "" {
      assert core + right == right + "";
      StripLeft(right, "");
    } else {
      StripRight(core, right);
    }
  }

  lemma {:induction false} StripLeft(left: string, rest: string)
    requires AllSlashes(left)
    ensures LStrip(left + rest, '/') == LStrip(rest, '/')
  {
    if left == "" {
      assert left + rest == rest;
    } else {
      assert (left + rest)[1..] == left[1..] + rest;
      StripLeft(left[1..], rest);
    }
  }

  lemma {:induction false} StripRight(core: string, right: string)
    requires AllSlashes(right) && (core == "" || core[|core| - 1] != '/')
    ensures RStrip(core + right, '/') == core
  {
    if right == "" {
      assert core + right == core;
    } else {
      assert (core + right)[..|core + right| - 1] == core + right[..|right| - 1];
      StripRight(core, right[..|right| - 1]);
    }
  }

  predicate Matches(relative: string, root: string) {
    var name := RootName(root);
    name != "" && (relative == name || name + "/" <= relative)
  }

  function Longest(relative: string, roots: seq<string>): string {
    if roots == [] then ""
    else
      var best, root := Longest(relative, roots[..|roots| - 1]), roots[|roots| - 1];
      if Matches(relative, root) && |RootName(root)| > |best| then RootName(root) else best
  }

  method BestMatch(relative: string, roots: seq<string>) returns (best: string)
    ensures best == Longest(relative, roots)
  {
    best := "";
    for i := 0 to |roots|
      invariant best == Longest(relative, roots[..i])
    {
      var normalized := RootName(roots[i]);
      assert roots[..i + 1][..i] == roots[..i];
      if Matches(relative, roots[i]) && |normalized| > |best| {
        best := normalized;
      }
    }
    assert roots[..|roots|] == roots;
  }

  function Remainder(remote: string, roots: seq<string>): string {
    var relative := LStrip(remote, '/');
    var best := Longest(relative, roots);
    LongestMatches(relative, roots);
    if best != "" then LStrip(relative[|best|..], '/') else relative
  }

  /** The names of a POSIX path string; empty and "." names vanish when a path is built. */
  function Names(s: string): Path {
    Kept(Split(s, '/'))
  }

  function Kept(parts: seq<string>): Path {
    if parts == [] then []
    else (if parts[0] in ["", "."] then [] else [parts[0]]) + Kept(parts[1..])
  }

  function Resolve(p: Path): Path {
    if p == [] then []
    else
      var done, name := Resolve(p[..|p| - 1]), p[|p| - 1];
      if name != ".." then done + [name] else if done == [] then [] else done[..|done| - 1]
  }

  /** Building a path drops its empty and "." names, wherever they stand, and no other. */
  lemma {:induction false} KeptExactly(before: seq<string>, name: string, after: seq<string>)
    ensures Kept(before + [name] + after) == Kept(before) + (if name == "" || name == "." then [] else [name]) + Kept(after)
  {
    var all := before + [name] + after;
    if before == [] {
      assert all == [name] + after && all[1..] == after;
    } else {
      assert all[1..] == before[1..] + [name] + after;
      KeptExactly(before[1..], name, after);
    }
  }

  /** Resolving lets ".." cancel the name before it, stay at the root, and leaves every other name. */
  lemma ResolveMeans(p: Path, name: string)
    requires name != ".."
    ensures Resolve(p + [name]) == Resolve(p) + [name]
    ensures Resolve(p + [name] + [".."]) == Resolve(p)
    ensures Resolve(p) == [] ==> Resolve(p + [".."]) == []
  {
    assert (p + [name])[..|p|] == p && (p + [".."])[..|p|] == p;
    assert (p + [name] + [".."])[..|p| + 1] == p + [name];
  }

  predicate Inside(staging: Path, destination: Path) {
    Resolve(staging) <= Resolve(destination)
  }

  function Destination(remote: string, staging: Path, roots: seq<string>): Path {
    staging + Names(Remainder(remote, roots))
  }

  /** None stands for the ValueError the source raises. */
  function StagingPath(remote: string, staging: Path, roots: seq<string>): Option<Path> {
    var destination := Destination(remote, staging, roots);
    if Inside(staging, destination) then Some(destination) else None
  }

  method StagingPathFor(remote: string, staging: Path, roots: seq<string>) returns (r: Option<Path>)
    ensures r == StagingPath(remote, staging, roots)
    ensures r.Some? ==> Resolve(staging) <= Resolve(r.value)
  {
    var relative := LStrip(remote, '/');
    if roots != [] {
      LongestMatches(relative, roots);
      var best := BestMatch(relative, roots);
      if best != "" {
        relative := LStrip(relative[|best|..], '/');
      }
    }
    var destination := staging + Names(relative);
    r := if Inside(staging, destination) then Some(destination) else None;
  }

  // ---- The stripped root is the longest match, whatever the order of the roots ----

  lemma {:induction false} LongestMatches(relative: string, roots: seq<string>)
    ensures var best := Longest(relative, roots);
            && best <= relative
            && (best != "" ==> exists root :: root in roots && Matches(relative, root) && RootName(root) == best)
            && (forall root :: root in roots && Matches(relative, root) ==> |RootName(root)| <= |best|)
  {
    if roots != [] {
      var before, root := roots[..|roots| - 1], roots[|roots| - 1];
      LongestMatches(relative, before);
      assert roots == before + [root];
      var best := Longest(relative, before);
      if Matches(relative, root) && |RootName(root)| > |best| {
        assert RootName(root) <= relative;
      } else if best != "" {
        var found :| found in before && Matches(relative, found) && RootName(found) == best;
        assert found in roots;
      }
    }
  }

  lemma OrderIrrelevant(relative: string, roots: seq<string>, others: seq<string>)
    requires forall root :: root in roots <==> root in others
    ensures Longest(relative, roots) == Longest(relative, others)
  {
    LongestMatches(relative, roots);
    LongestMatches(relative, others);
    var a, b := Longest(relative, roots), Longest(relative, others);
    assert |a| == |b| && a == relative[..|a|] && b == relative[..|b|];
  }

  // ---- Which paths are accepted ----

  /** How many levels `p` climbs above its start, and the names it then descends through. */
  function Climb(p: Path): (r: (nat, Path)) {
    if p == [] then (0, [])
    else
      var (up, down) := Climb(p[..|p| - 1]);
      var name := p[|p| - 1];
      if name != ".." then (up, down + [name])
      else if down == [] then (up + 1, [])
      else (up, down[..|down| - 1])
  }

  function Above(base: Path, levels: nat): Path {
    if levels >= |base| then [] else base[..|base| - levels]
  }

  lemma {:induction false} ResolveBelow(staging: Path, p: Path)
    ensures var (up, down) := Climb(p); Resolve(staging + p) == Above(Resolve(staging), up) + down
  {
    if p == [] {
      assert staging + p == staging;
    } else {
      var before := p[..|p| - 1];
      ResolveBelow(staging, before);
      assert (staging + p)[..|staging + p| - 1] == staging + before;
      var (up, down) := Climb(before);
      StepBelow(Resolve(staging), up, down, p[|p| - 1]);
    }
  }

  /** One more name, below what is left of the base. */
  lemma StepBelow(base: Path, up: nat, down: Path, name: string)
    ensures var all := Above(base, up) + down;
            && (name != ".." ==> all + [name] == Above(base, up) + (down + [name]))
            && (down != [] ==> all[..|all| - 1] == Above(base, up) + down[..|down| - 1])
            && (down == [] ==> Above(base, up + 1) + [] == if all == [] then [] else all[..|all| - 1])
  {
  }

  lemma PrefixCancel<T>(kept: seq<T>, tail: seq<T>, down: seq<T>)
    ensures kept + tail <= kept + down <==> tail <= down
  {
    if kept + tail <= kept + down {
      forall i | 0 <= i < |tail| ensures tail[i] == down[i] {
        assert tail[i] == (kept + tail)[|kept| + i] == (kept + down)[|kept| + i];
      }
    }
  }

  lemma InsideExactly(staging: Path, p: Path)
    ensures var (up, down) := Climb(p);
            var base := Resolve(staging);
            Inside(staging, staging + p) <==> base[|Above(base, up)|..] <= down
  {
    hide Climb, Resolve;
    var (up, down) := Climb(p);
    var base := Resolve(staging);
    ResolveBelow(staging, p);
    var kept := Above(base, up);
    assert base == kept + base[|kept|..];
    PrefixCancel(kept, base[|kept|..], down);
  }

  /** A path is accepted exactly when it descends again through every name of the root it climbed out of. */
  lemma AcceptedExactly(remote: string, staging: Path, roots: seq<string>)
    ensures var (up, down) := Climb(Names(Remainder(remote, roots)));
            var base := Resolve(staging);
            StagingPath(remote, staging, roots).Some? <==> base[|Above(base, up)|..] <= down
  {
    InsideExactly(staging, Names(Remainder(remote, roots)));
  }

  lemma {:induction false} NoClimb(p: Path)
    requires ".." !in p
    ensures Climb(p) == (0, p)
  {
    if p != [] {
      NoClimb(p[..|p| - 1]);
      assert p == p[..|p| - 1] + [p[|p| - 1]];
    }
  }

  // ---- Distinct remote files get distinct destinations, root by root ----

  /** A remote path written with one leading slash and without ".", ".." or empty names. */
  predicate Clean(remote: string) {
    && "/" <= remote
    && CleanNames(Split(remote[1..], '/'))
  }

  lemma {:induction false} KeptAll(parts: seq<string>)
    requires forall name :: name in parts ==> name !in ["", "."]
    ensures Kept(parts) == parts
  {
    if parts != [] {
      KeptAll(parts[1..]);
    }
  }

  predicate CleanNames(names: seq<string>) {
    forall name :: name in names ==> name !in ["", ".", ".."]
  }

  lemma CleanSuffix(names: seq<string>, k: nat)
    requires k <= |names| && CleanNames(names)
    ensures CleanNames(names[k..])
  {
  }

  lemma BelowPrefix(best: string, rest: string)
    requires CleanNames(Split(best + ['/'] + rest, '/'))
    ensures Split(best + ['/'] + rest, '/') == Split(best, '/') + Split(rest, '/')
    ensures Names(LStrip(['/'] + rest, '/')) == Split(rest, '/')
  {
    var first, last := Split(best, '/'), Split(rest, '/');
    SplitConcat(best, '/', rest);
    assert (first + last)[|first|..] == last;
    CleanSuffix(first + last, |first|);
    NoLeadingSlash(rest);
    assert (['/'] + rest)[1..] == rest;
    KeptAll(last);
  }

  lemma NoNames()
    ensures Names(LStrip("", '/')) == []
  {
    assert Split("", '/')[1..] == [];
  }

  lemma WholeRoot(relative: string)
    ensures var all := Split(relative, '/');
            && all[..|all|] == all && Names(LStrip(relative[|relative|..], '/')) == all[|all|..]
  {
    assert relative[|relative|..] == "";
    NoNames();
  }

  lemma TakeDrop<T>(a: seq<T>, b: seq<T>)
    ensures (a + b)[..|a|] == a && (a + b)[|a|..] == b
  {
  }

  lemma NoLeadingSlash(s: string)
    requires CleanNames(Split(s, '/'))
    ensures LStrip(s, '/') == s
  {
    assert Split(s, '/')[0] in Split(s, '/');
  }

  /** For a clean path the destination drops exactly the names of the stripped root. */
  lemma KeptNames(remote: string, roots: seq<string>)
    requires Clean(remote)
    ensures var all := Split(remote[1..], '/');
            var best := Longest(remote[1..], roots);
            var k := if best == "" then 0 else |Split(best, '/')|;
            && k <= |all| && (best != "" ==> all[..k] == Split(best, '/'))
            && Names(Remainder(remote, roots)) == all[k..]
  {
    var relative := remote[1..];
    NoLeadingSlash(relative);
    LongestMatches(relative, roots);
    var best := Longest(relative, roots);
    if best == "" {
      KeptAll(Split(relative, '/'));
    } else if best == relative {
      WholeRoot(relative);
    } else {
      var rest := relative[|best| + 1..];
      assert relative == best + ['/'] + rest && relative[|best|..] == ['/'] + rest;
      BelowPrefix(best, rest);
      TakeDrop(Split(best, '/'), Split(rest, '/'));
    }
  }

  lemma SameDestinationExactly(staging: Path, a: string, b: string, roots: seq<string>)
    requires Clean(a) && Clean(b)
    requires Longest(a[1..], roots) == Longest(b[1..], roots)
    ensures Destination(a, staging, roots) == Destination(b, staging, roots) <==> a == b
  {
    KeptNames(a, roots);
    KeptNames(b, roots);
    var na, nb := Names(Remainder(a, roots)), Names(Remainder(b, roots));
    if staging + na == staging + nb {
      PrefixCancel(staging, na, nb);
      PrefixCancel(staging, nb, na);
      assert na == nb;
      SameNames(a[1..], b[1..], if Longest(a[1..], roots) == "" then 0 else |Split(Longest(a[1..], roots), '/')|);
      assert a == ['/'] + a[1..] && b == ['/'] + b[1..];
    }
  }

  lemma SameNames(a: string, b: string, k: nat)
    requires k <= |Split(a, '/')| && k <= |Split(b, '/')|
    requires Split(a, '/')[..k] == Split(b, '/')[..k] && Split(a, '/')[k..] == Split(b, '/')[k..]
    ensures a == b
  {
    var all, all' := Split(a, '/'), Split(b, '/');
    assert all == all[..k] + all[k..] && all' == all'[..k] + all'[k..];
    JoinSplit(a, '/');
    JoinSplit(b, '/');
  }

  lemma CleanInside(staging: Path, p: Path)
    requires CleanNames(p)
    ensures Resolve(staging + p) == Resolve(staging) + p
  {
    NoClimb(p);
    ResolveBelow(staging, p);
  }

  /** A clean path is always accepted, and lands below the root under its remaining names. */
  lemma CleanAccepted(remote: string, staging: Path, roots: seq<string>)
    requires Clean(remote)
    ensures StagingPath(remote, staging, roots) == Some(Destination(remote, staging, roots))
    ensures Resolve(Destination(remote, staging, roots)) == Resolve(staging) + Names(Remainder(remote, roots))
  {
    KeptNames(remote, roots);
    var all, p := Split(remote[1..], '/'), Names(Remainder(remote, roots));
    CleanSuffix(all, |all| - |p|);
    CleanInside(staging, p);
  }

  /** How many names of a path its stripped root has. */
  function RootNames(relative: string, roots: seq<string>): nat {
    var best := Longest(relative, roots);
    if best == "" then 0 else |Split(best, '/')|
  }

  /** Clean paths share a destination exactly when the same names are left of them. */
  lemma DestinationsExactly(staging: Path, a: string, b: string, roots: seq<string>)
    requires Clean(a) && Clean(b)
    ensures var (x, y, ka, kb) := (Split(a[1..], '/'), Split(b[1..], '/'), RootNames(a[1..], roots), RootNames(b[1..], roots));
            && ka <= |x| && kb <= |y|
            && (Destination(a, staging, roots) == Destination(b, staging, roots) <==> x[ka..] == y[kb..])
  {
    KeptNames(a, roots);
    KeptNames(b, roots);
    var na, nb := Names(Remainder(a, roots)), Names(Remainder(b, roots));
    PrefixCancel(staging, na, nb);
    PrefixCancel(staging, nb, na);
  }

  // ---- Two scan roots ----

  /** A root as names, such as "data/files" for "/data/files/". */
  predicate CleanRoot(root: string) {
    CleanNames(Split(root, '/'))
  }

  lemma SlashEnds(s: string)
    ensures !CleanRoot(s + "/")
  {
    assert s + "/" == s + ['/'] + "";
    SplitConcat(s, '/', "");
    var parts := Split(s + "/", '/');
    assert parts[|parts| - 1] in parts;
  }

  lemma NoTrailingSlash(s: string)
    requires CleanRoot(s)
    ensures s != "" && RStrip(s, '/') == s
  {
    assert Split(s, '/')[0] in Split(s, '/');
    if s != "" && s[|s| - 1] == '/' {
      assert s == s[..|s| - 1] + "/";
      SlashEnds(s[..|s| - 1]);
    }
  }

  lemma RootOf(root: string)
    requires CleanRoot(root)
    ensures root != "" && RootName("/" + root) == root
  {
    NoLeadingSlash(root);
    NoTrailingSlash(root);
    assert ("/" + root)[1..] == root;
  }

  /** The longer root `s` is also a root of the file `rest` below `r`. */
  predicate Takes(r: string, s: string, rest: string) {
    |s| > |r| && (r + "/" + rest == s || s + "/" <= r + "/" + rest)
  }

  /** Of two roots, the file `rest` below `r` is stripped of `r`, unless `s` takes it. */
  lemma RootFound(r: string, s: string, rest: string, roots: seq<string>)
    requires CleanRoot(r) && CleanRoot(s) && (roots == ["/" + r, "/" + s] || roots == ["/" + s, "/" + r])
    ensures Longest(r + "/" + rest, roots) == if Takes(r, s, rest) then s else r
  {
    var relative := r + "/" + rest;
    RootOf(r);
    RootOf(s);
    LongestMatches(relative, roots);
    var best := Longest(relative, roots);
    assert ("/" + r) in roots && ("/" + s) in roots;
    assert Matches(relative, "/" + r);
    var found :| found in roots && Matches(relative, found) && RootName(found) == best;
    assert best == r || best == s;
    assert best == relative[..|best|] && r == relative[..|r|];
  }

  lemma BelowNames(r: string, rest: string)
    ensures Split(r + "/" + rest, '/') == Split(r, '/') + Split(rest, '/')
  {
    assert r + "/" + rest == r + ['/'] + rest;
    SplitConcat(r, '/', rest);
  }

  /** A root that takes a file of another one has more names. */
  lemma TakesDeeper(r: string, s: string, rest: string)
    requires Takes(r, s, rest)
    ensures |Split(s, '/')| > |Split(r, '/')|
  {
    var m := s[|r| + 1..];
    assert s == (r + "/" + rest)[..|s|];
    assert s == r + "/" + m;
    BelowNames(r, m);
  }

  /** Below two different roots the same sub-path has one destination exactly when neither root takes the other's file. */
  lemma TwoRootsExactly(r: string, s: string, rest: string, staging: Path)
    requires CleanRoot(r) && CleanRoot(s) && r != s && CleanNames(Split(rest, '/'))
    ensures var roots, a, b := ["/" + r, "/" + s], "/" + (r + "/" + rest), "/" + (s + "/" + rest);
            && a != b
            && (Destination(a, staging, roots) == Destination(b, staging, roots) <==> !Takes(r, s, rest) && !Takes(s, r, rest))
  {
    var roots, x, y := ["/" + r, "/" + s], r + "/" + rest, s + "/" + rest;
    BelowNames(r, rest);
    BelowNames(s, rest);
    var last := Split(rest, '/');
    assert ("/" + x)[1..] == x && ("/" + y)[1..] == y;
    DestinationsExactly(staging, "/" + x, "/" + y, roots);
    RootFound(r, s, rest, roots);
    RootFound(s, r, rest, roots);
    RootOf(r);
    RootOf(s);
    TakeDrop(Split(r, '/'), last);
    TakeDrop(Split(s, '/'), last);
    if Takes(r, s, rest) {
      TakesDeeper(r, s, rest);
    }
    if Takes(s, r, rest) {
      TakesDeeper(s, r, rest);
    }
    if x == y {
      CancelRest(r, s, rest);
    }
  }

  lemma CancelRest(r: string, s: string, rest: string)
    requires r + "/" + rest == s + "/" + rest
    ensures r == s
  {
    var whole := r + "/" + rest;
    assert |r| == |s| && r == whole[..|r|] && s == whole[..|s|];
  }

  /** Across two scan roots, neither of which lies below the other, every sub-path collides. */
  lemma TwoRootsCollide(r: string, s: string, rest: string, staging: Path)
    requires CleanRoot(r) && CleanRoot(s) && r != s && CleanNames(Split(rest, '/'))
    requires !(r + "/" <= s) && !(s + "/" <= r)
    ensures var roots := ["/" + r, "/" + s];
            Destination("/" + (r + "/" + rest), staging, roots) == Destination("/" + (s + "/" + rest), staging, roots)
  {
    TwoRootsExactly(r, s, rest, staging);
    if Takes(r, s, rest) {
      TakesIsBelow(r, s, rest);
    }
    if Takes(s, r, rest) {
      TakesIsBelow(s, r, rest);
    }
  }

  lemma TakesIsBelow(r: string, s: string, rest: string)
    requires Takes(r, s, rest)
    ensures r + "/" <= s
  {
    assert s == (r + "/" + rest)[..|s|];
  }
}
