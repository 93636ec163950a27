/** The schedule-hours field of the settings form: parsing a comma-separated list, and its canonical form. */
module ScheduleHours {
  import opened Common
  import opened Text

  // ---- Decimal numbers ----

  predicate IsDigit(c: char) {
    '0' <= c <= '9'
  }

  predicate AllDigits(s: string) {
    s != "" && forall i :: 0 <= i < |s| ==> IsDigit(s[i])
  }

  function DigitValue(c: char): nat {
    if IsDigit(c) then c as int - '0' as int else 0
  }

  /** `Number(s)` for a string of digits. */
  function Value(s: string): nat {
    if s == "" then 0 else 10 * Value(s[..|s| - 1]) + DigitValue(s[|s| - 1])
  }

  function Digit(n: nat): char
    requires n < 10
  {
    ('0' as int + n) as char
  }

  /** `String(n)` */
  function Decimal(n: nat): string {
    if n < 10 then [Digit(n)] else Decimal(n / 10) + [Digit(n % 10)]
  }

  lemma {:induction false} DecimalFacts(n: nat)
    ensures AllDigits(Decimal(n)) && Value(Decimal(n)) == n
  {
    if n < 10 {
      assert Value([Digit(n)]) == 10 * Value([Digit(n)][..0]) + n;
    } else {
      DecimalFacts(n / 10);
      var s := Decimal(n);
      assert s[..|s| - 1] == Decimal(n / 10);
    }
  }

  // ---- Parsing ----

  predicate PartOk(part: string) {
    var segment := Trimmed(part);
    segment == "" || (AllDigits(segment) && Value(segment) <= 23)
  }

  /** The hours the parts name; empty parts name none. */
  function HoursNamed(parts: seq<string>): set<nat> {
    set part | part in parts && Trimmed(part) != "" :: Value(Trimmed(part))
  }

  /** The members of `hours` below `k`, smallest first. */
  function Ascending(hours: set<nat>, k: nat): seq<nat> {
    if k == 0 then []
    else if k - 1 in hours then Ascending(hours, k - 1) + [k - 1]
    else Ascending(hours, k - 1)
  }

  predicate IsValid(raw: string) {
    && (forall part :: part in Split(raw, ',') ==> PartOk(part))
    && HoursNamed(Split(raw, ',')) != {}
  }

  function Parsed(raw: string): Option<seq<nat>> {
    if IsValid(raw) then Some(Ascending(HoursNamed(Split(raw, ',')), 24)) else None
  }

  method ParseScheduleHours(raw: string) returns (r: Option<seq<nat>>)
    ensures r == Parsed(raw)
    ensures r.Some? ==> IsHourList(r.value)
  {
    var hours, parts := {}, Split(raw, ',');
    for i := 0 to |parts|
      invariant forall part :: part in parts[..i] ==> PartOk(part)
      invariant hours == HoursNamed(parts[..i])
    {
      var segment := Trimmed(parts[i]);
      assert parts[..i + 1] == parts[..i] + [parts[i]];
      NamedStep(parts[..i], parts[i]);
      if segment != "" {
        assert parts[i] in parts;
        if !AllDigits(segment) || Value(segment) > 23 {
          return None;
        }
        hours := hours + {Value(segment)};
      }
    }
    assert parts[..|parts|] == parts;
    if hours == {} {
      return None;
    }
    AscendingFacts(hours, 24);
    NamedBelow(parts);
    return Some(Ascending(hours, 24));
  }

  lemma NamedStep(parts: seq<string>, part: string)
    ensures HoursNamed(parts + [part]) ==
            if Trimmed(part) == "" then HoursNamed(parts) else HoursNamed(parts) + {Value(Trimmed(part))}
  {
    assert part in parts + [part];
    forall h | h in HoursNamed(parts) ensures h in HoursNamed(parts + [part]) {
      var p :| p in parts && Trimmed(p) != "" && Value(Trimmed(p)) == h;
      assert p in parts + [part];
    }
  }

  lemma NamedBelow(parts: seq<string>)
    requires forall part :: part in parts ==> PartOk(part)
    ensures forall h :: h in HoursNamed(parts) ==> h < 24
  {
  }

  /** A list the form can show: distinct hours of the day in ascending order, so at most 24. */
  ghost predicate IsHourList(hours: seq<nat>) {
    && 0 < |hours| <= 24
    && (forall i :: 0 <= i < |hours| ==> hours[i] <= 23)
    && StrictlyAscending(hours)
  }

  ghost predicate StrictlyAscending(s: seq<nat>) {
    forall i, j :: 0 <= i < j < |s| ==> s[i] < s[j]
  }

  lemma {:induction false} AscendingFacts(hours: set<nat>, k: nat)
    ensures var s := Ascending(hours, k);
            && |s| <= k && StrictlyAscending(s)
            && (forall i :: 0 <= i < |s| ==> s[i] < k && s[i] in hours)
            && (forall h :: h in hours && h < k ==> h in s)
            && (s == [] ==> forall h :: h in hours ==> h >= k)
  {
    if k > 0 {
      AscendingFacts(hours, k - 1);
    }
  }

  /** Every successful parse is such a list, and names exactly the hours written. */
  lemma ParsedIsHourList(raw: string)
    ensures Parsed(raw).Some? ==>
      IsHourList(Parsed(raw).value) && forall h :: h in Parsed(raw).value <==> h in HoursNamed(Split(raw, ','))
  {
    if IsValid(raw) {
      var hours := HoursNamed(Split(raw, ','));
      AscendingFacts(hours, 24);
      NamedBelow(Split(raw, ','));
      var h :| h in hours;
    }
  }

  /** The part is white space around a number of one or more digits that says `h`. */
  ghost predicate Writes(part: string, h: nat) {
    exists left, digits, right ::
      part == left + digits + right && AllSpace(left) && AllSpace(right) && AllDigits(digits) && Value(digits) == h
  }

  lemma DigitsAreTrimmed(digits: string)
    requires AllDigits(digits)
    ensures !IsSpace(digits[0]) && !IsSpace(digits[|digits| - 1])
  {
  }

  lemma PartMeans(part: string)
    ensures Trimmed(part) == "" <==> AllSpace(part)
    ensures forall h: nat :: Writes(part, h) <==> AllDigits(Trimmed(part)) && Value(Trimmed(part)) == h
  {
    TrimmedFacts(part);
    var left, right :| part == left + Trimmed(part) + right && AllSpace(left) && AllSpace(right);
    if AllSpace(part) {
      assert part == part + "" + "" && AllSpace("");
      TrimmedPadded(part, "", "");
    }
    forall h: nat | Writes(part, h) ensures AllDigits(Trimmed(part)) && Value(Trimmed(part)) == h {
      var l, digits, r :| part == l + digits + r && AllSpace(l) && AllSpace(r) && AllDigits(digits) && Value(digits) == h;
      DigitsAreTrimmed(digits);
      TrimmedPadded(l, digits, r);
    }
  }

  lemma PartOkMeans(part: string)
    ensures PartOk(part) <==> AllSpace(part) || exists h: nat :: h <= 23 && Writes(part, h)
  {
    hide Writes, AllSpace, AllDigits, Value;
    PartMeans(part);
    if PartOk(part) && Trimmed(part) != "" {
      assert Writes(part, Value(Trimmed(part)));
    }
  }

  lemma NamedMeans(parts: seq<string>, h: nat)
    requires forall part :: part in parts ==> PartOk(part)
    ensures h in HoursNamed(parts) <==> exists part :: part in parts && Writes(part, h)
  {
    hide Writes, Value, AllSpace;
    forall part | part in parts ensures Writes(part, h) <==> Trimmed(part) != "" && Value(Trimmed(part)) == h {
      PartMeans(part);
    }
  }

  lemma AllNamed(parts: seq<string>)
    requires forall part :: part in parts ==> PartOk(part)
    ensures HoursNamed(parts) != {} <==> exists part, h: nat :: part in parts && Writes(part, h)
    ensures forall h: nat :: h in Ascending(HoursNamed(parts), 24) <==> exists part :: part in parts && Writes(part, h)
  {
    hide PartOk, HoursNamed, Writes, Ascending;
    forall h: nat ensures h in HoursNamed(parts) <==> exists part :: part in parts && Writes(part, h) {
      NamedMeans(parts, h);
    }
    NamedBelow(parts);
    AscendingFacts(HoursNamed(parts), 24);
    forall part, h: nat | part in parts && Writes(part, h) ensures HoursNamed(parts) != {} {
      assert h in HoursNamed(parts);
    }
    if HoursNamed(parts) != {} {
      var h :| h in HoursNamed(parts);
      var part :| part in parts && Writes(part, h);
    }
  }

  /** An input is accepted exactly when each part is blank or a number up to 23, padded or not, and some part is one; the hours are those. */
  lemma ParsesExactly(raw: string)
    ensures Parsed(raw).Some? <==>
      && (forall part :: part in Split(raw, ',') ==> AllSpace(part) || exists h: nat :: h <= 23 && Writes(part, h))
      && exists part, h: nat :: part in Split(raw, ',') && Writes(part, h)
    ensures Parsed(raw).Some? ==> forall h: nat :: h in Parsed(raw).value <==> exists part :: part in Split(raw, ',') && Writes(part, h)
  {
    hide Split, PartOk, HoursNamed, AllSpace, Writes, Ascending;
    forall part ensures PartOk(part) <==> AllSpace(part) || exists h: nat :: h <= 23 && Writes(part, h) {
      PartOkMeans(part);
    }
    if forall part :: part in Split(raw, ',') ==> PartOk(part) {
      AllNamed(Split(raw, ','));
    }
  }

  // ---- Printing ----

  function Decimals(hours: seq<nat>): (parts: seq<string>)
    ensures |parts| == |hours| && forall i :: 0 <= i < |hours| ==> parts[i] == Decimal(hours[i])
  {
    seq(|hours|, i requires 0 <= i < |hours| => Decimal(hours[i]))
  }

  function Printed(hours: seq<nat>): string {
    Join(Decimals(hours), ',')
  }

  lemma SomeMember(s: seq<nat>)
    ensures s != [] ==> exists x :: x in s
  {
    if s != [] {
      assert s[0] in s;
    }
  }

  lemma {:induction false} SameAscending(a: seq<nat>, b: seq<nat>)
    requires StrictlyAscending(a) && StrictlyAscending(b) && forall x :: x in a <==> x in b
    ensures a == b
  {
    if a == [] || b == [] {
      SomeMember(a);
      SomeMember(b);
    } else {
      var x, y := a[|a| - 1], b[|b| - 1];
      assert x in b && y in a;
      var m, n := a[..|a| - 1], b[..|b| - 1];
      assert a == m + [x] && b == n + [y];
      forall z ensures z in m <==> z in n {
        assert z in m ==> z in a;
        assert z in n ==> z in b;
      }
      SameAscending(m, n);
    }
  }

  lemma PrintedPart(hours: seq<nat>, part: string)
    requires IsHourList(hours) && part in Decimals(hours)
    ensures ',' !in part && PartOk(part) && Trimmed(part) == part != "" && Value(part) in hours
  {
    var parts := Decimals(hours);
    var i :| 0 <= i < |parts| && parts[i] == part;
    DecimalFacts(hours[i]);
  }

  lemma PrintedHour(hours: seq<nat>, h: nat)
    requires IsHourList(hours) && h in hours
    ensures Decimal(h) in Decimals(hours) && Value(Decimal(h)) == h && Trimmed(Decimal(h)) == Decimal(h) != ""
  {
    var i :| 0 <= i < |hours| && hours[i] == h;
    DecimalFacts(h);
    assert Decimals(hours)[i] == Decimal(h);
  }

  /** The parts of a printed list are valid and name its hours. */
  lemma PrintedNames(hours: seq<nat>)
    requires IsHourList(hours)
    ensures forall part :: part in Decimals(hours) ==> ',' !in part && PartOk(part)
    ensures forall h :: h in HoursNamed(Decimals(hours)) <==> h in hours
  {
    hide Decimals, PartOk, Trimmed, Value, IsHourList;
    forall part | part in Decimals(hours)
      ensures ',' !in part && PartOk(part) && Trimmed(part) == part != "" && Value(part) in hours
    {
      PrintedPart(hours, part);
    }
    forall h | h in hours ensures h in HoursNamed(Decimals(hours)) {
      PrintedHour(hours, h);
    }
  }

  /** Parsing a printed list returns it. */
  lemma RoundTrip(hours: seq<nat>)
    requires IsHourList(hours)
    ensures Parsed(Printed(hours)) == Some(hours)
  {
    hide HoursNamed, PartOk, Split, Join, Ascending;
    var parts := Decimals(hours);
    PrintedNames(hours);
    SplitJoin(parts, ',');
    var named := HoursNamed(parts);
    assert hours[0] in named;
    AscendingFacts(named, 24);
    SameAscending(Ascending(named, 24), hours);
  }

  function Normalized(raw: string): Option<string> {
    if Parsed(raw).None? then None else Some(Printed(Parsed(raw).value))
  }

  /** Normalising a normalised list changes nothing. */
  lemma NormalizeIdempotent(raw: string)
    requires Normalized(raw).Some?
    ensures Normalized(Normalized(raw).value) == Normalized(raw)
  {
    ParsedIsHourList(raw);
    RoundTrip(Parsed(raw).value);
  }

  /** Two valid inputs have the same canonical form exactly when they name the same hours. */
  lemma NormalizeAlikeExactly(a: string, b: string)
    requires IsValid(a) && IsValid(b)
    ensures Normalized(a) == Normalized(b) <==> HoursNamed(Split(a, ',')) == HoursNamed(Split(b, ','))
  {
    ParsedIsHourList(a);
    ParsedIsHourList(b);
    if Normalized(a) == Normalized(b) {
      RoundTrip(Parsed(a).value);
      RoundTrip(Parsed(b).value);
      assert forall h :: h in HoursNamed(Split(a, ',')) <==> h in HoursNamed(Split(b, ','));
    }
  }
}
