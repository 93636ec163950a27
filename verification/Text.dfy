/** String operations of the two source languages, with the laws the path and list code relies on. */
module Text {
  function LStrip(s: string, c: char): string {
    if s != "" && s[0] == c then LStrip(s[1..], c) else s
  }

  function RStrip(s: string, c: char): string {
    if s != "" && s[|s| - 1] == c then RStrip(s[..|s| - 1], c) else s
  }

  function Replace(s: string, a: char, b: char): (r: string)
    ensures |r| == |s|
    ensures forall i :: 0 <= i < |s| ==> r[i] == if s[i] == a then b else s[i]
  {
    seq(|s|, i requires 0 <= i < |s| => if s[i] == a then b else s[i])
  }

  /** `s.split(c)`: at least one part, and no part contains the separator. */
  function Split(s: string, c: char): (parts: seq<string>)
    ensures |parts| >= 1
    ensures forall p :: p in parts ==> c !in p
  {
    if s == "" then [""]
    else if s[0] == c then [""] + Split(s[1..], c)
    else
      var rest := Split(s[1..], c);
      [[s[0]] + rest[0]] + rest[1..]
  }

  function Join(parts: seq<string>, c: char): string {
    if parts == [] then ""
    else if |parts| == 1 then parts[0]
    else parts[0] + [c] + Join(parts[1..], c)
  }

  lemma {:induction false} JoinSplit(s: string, c: char)
    ensures Join(Split(s, c), c) == s
  {
    if s != "" {
      JoinSplit(s[1..], c);
      var rest := Split(s[1..], c);
      if s[0] == c {
        assert ([""] + rest)[1..] == rest;
      } else {
        var parts := [[s[0]] + rest[0]] + rest[1..];
        assert parts[1..] == rest[1..];
      }
    }
  }

  /** What one more character in front does to the parts. */
  function WithFront(x: char, parts: seq<string>, c: char): seq<string>
    requires parts != []
  {
    if x == c then [""] + parts else [[x] + parts[0]] + parts[1..]
  }

  lemma SplitFront(x: char, s: string, c: char)
    ensures Split([x] + s, c) == WithFront(x, Split(s, c), c)
  {
    assert ([x] + s)[1..] == s;
  }

  lemma WithFrontConcat(x: char, first: seq<string>, last: seq<string>, c: char)
    requires first != []
    ensures WithFront(x, first + last, c) == WithFront(x, first, c) + last
  {
    assert (first + last)[1..] == first[1..] + last;
  }

  lemma {:induction false} SplitConcat(a: string, c: char, b: string)
    ensures Split(a + [c] + b, c) == Split(a, c) + Split(b, c)
  {
    hide Split;
    if a == "" {
      assert a + [c] + b == [c] + b;
      SplitFront(c, b, c);
      SplitWhole("", c);
    } else {
      var x, rest := a[0], a[1..];
      SplitConcat(rest, c, b);
      assert a == [x] + rest && a + [c] + b == [x] + (rest + [c] + b);
      SplitFront(x, rest, c);
      SplitFront(x, rest + [c] + b, c);
      WithFrontConcat(x, Split(rest, c), Split(b, c), c);
    }
  }

  lemma {:induction false} SplitWhole(s: string, c: char)
    requires c !in s
    ensures Split(s, c) == [s]
  {
    if s != "" {
      SplitWhole(s[1..], c);
      assert s == [s[0]] + s[1..];
    }
  }

  lemma {:induction false} SplitJoin(parts: seq<string>, c: char)
    requires parts != [] && forall p :: p in parts ==> c !in p
    ensures Split(Join(parts, c), c) == parts
  {
    SplitWhole(parts[0], c);
    if |parts| > 1 {
      SplitJoin(parts[1..], c);
      SplitConcat(parts[0], c, Join(parts[1..], c));
      assert parts == [parts[0]] + parts[1..];
    }
  }

  /** Stripping cuts off the leading `c`s and nothing else. */
  lemma {:induction false} LStripFacts(s: string, c: char) returns (cut: nat)
    ensures cut <= |s| && LStrip(s, c) == s[cut..]
    ensures forall i :: 0 <= i < cut ==> s[i] == c
    ensures cut < |s| ==> s[cut] != c
  {
    cut := 0;
    if s != "" && s[0] == c {
      var rest := LStripFacts(s[1..], c);
      cut := rest + 1;
    }
  }

  lemma {:induction false} RStripFacts(s: string, c: char)
    ensures RStrip(s, c) == "" || RStrip(s, c)[|RStrip(s, c)| - 1] != c
    ensures RStrip(s, c) <= s
    ensures forall i :: |RStrip(s, c)| <= i < |s| ==> s[i] == c
  {
    if s != "" && s[|s| - 1] == c {
      RStripFacts(s[..|s| - 1], c);
    }
  }

  /** ECMAScript white space and line terminators: what `\s` and `trim` mean. */
  predicate IsSpace(c: char) {
    var n := c as int;
    || 9 <= n <= 13 || n == 0x20 || n == 0xA0 || n == 0x1680 || 0x2000 <= n <= 0x200A
    || n == 0x2028 || n == 0x2029 || n == 0x202F || n == 0x205F || n == 0x3000 || n == 0xFEFF
  }

  /** White space and line terminators of ECMA-262, sections 12.2 and 12.3. */
  const WHITE_SPACE := "\U{9}\U{A}\U{B}\U{C}\U{D} \U{A0}\U{1680}\U{2000}\U{2001}\U{2002}\U{2003}\U{2004}\U{2005}\U{2006}\U{2007}\U{2008}\U{2009}\U{200A}\U{2028}\U{2029}\U{202F}\U{205F}\U{3000}\U{FEFF}"

  lemma IsSpaceExactly(c: char)
    ensures IsSpace(c) <==> c in WHITE_SPACE
  {
    forall i | 0 <= i < |WHITE_SPACE| ensures IsSpace(WHITE_SPACE[i]) {
    }
    if IsSpace(c) {
      var n := c as int;
      assert WHITE_SPACE[0] as int == 9 && WHITE_SPACE[4] as int == 13 && WHITE_SPACE[6] as int == 0xA0;
      if 9 <= n <= 13 {
        assert WHITE_SPACE[n - 9] == c;
      } else if 0x2000 <= n <= 0x200A {
        assert WHITE_SPACE[n - 0x2000 + 8] == c;
      }
    }
  }

  /** `s.trim()` */
  function Trimmed(s: string): string {
    if s == "" then ""
    else if IsSpace(s[0]) then Trimmed(s[1..])
    else if IsSpace(s[|s| - 1]) then Trimmed(s[..|s| - 1])
    else s
  }

  ghost predicate AllSpace(s: string) {
    forall i :: 0 <= i < |s| ==> IsSpace(s[i])
  }

  /** Only white space is cut off, on both sides, and all of it. */
  ghost predicate IsTrimOf(core: string, s: string) {
    && (core == "" || (!IsSpace(core[0]) && !IsSpace(core[|core| - 1])))
    && exists left, right :: s == left + core + right && AllSpace(left) && AllSpace(right)
  }

  lemma TrimOfLonger(core: string, s: string, c: char)
    requires IsTrimOf(core, s) && IsSpace(c)
    ensures IsTrimOf(core, [c] + s) && IsTrimOf(core, s + [c])
  {
    hide IsSpace;
    var left, right :| s == left + core + right && AllSpace(left) && AllSpace(right);
    assert [c] + s == ([c] + left) + core + right && AllSpace([c] + left);
    assert s + [c] == left + core + (right + [c]) && AllSpace(right + [c]);
  }

  lemma TrimOfItself(s: string)
    requires s == "" || (!IsSpace(s[0]) && !IsSpace(s[|s| - 1]))
    ensures IsTrimOf(s, s)
  {
    assert s == "" + s + "" && AllSpace("");
  }

  lemma {:induction false} TrimmedFacts(s: string)
    ensures IsTrimOf(Trimmed(s), s)
  {
    hide IsSpace, IsTrimOf;
    if s == "" {
      TrimOfItself("");
    } else if IsSpace(s[0]) {
      TrimmedFacts(s[1..]);
      TrimOfLonger(Trimmed(s), s[1..], s[0]);
      assert s == [s[0]] + s[1..];
    } else if IsSpace(s[|s| - 1]) {
      TrimmedFacts(s[..|s| - 1]);
      TrimOfLonger(Trimmed(s), s[..|s| - 1], s[|s| - 1]);
      assert s == s[..|s| - 1] + [s[|s| - 1]];
    } else {
      TrimOfItself(s);
    }
  }

  /** A string without white space at its ends is the only trim of what surrounds it with white space. */
  lemma {:induction false} TrimmedPadded(left: string, core: string, right: string)
    requires AllSpace(left) && AllSpace(right) && (core == "" || (!IsSpace(core[0]) && !IsSpace(core[|core| - 1])))
    ensures Trimmed(left + core + right) == core
    decreases |left| + |right|
  {
    var s := left + core + right;
    if left != "" {
      assert s[1..] == left[1..] + core + right;
      TrimmedPadded(left[1..], core, right);
    } else if right != "" {
      if core == "" {
        assert s[1..] == "" + core + right[1..];
        TrimmedPadded("", core, right[1..]);
      } else {
        assert s[..|s| - 1] == left + core + right[..|right| - 1];
        TrimmedPadded(left, core, right[..|right| - 1]);
      }
    } else {
      assert s == core;
    }
  }
}
