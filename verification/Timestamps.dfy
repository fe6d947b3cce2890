/** Nanosecond timestamps: the stream's parser with its bounded memo
    (data/alpaca_market_data.py) and the REST client's parser
    (data/alpaca_rest.py). An exception is `None`.

    The two date parsers of Python's library are parameters. All that is assumed of
    them is that they read a head of the form YYYY-MM-DDTHH:MM:SS as that UTC time.
  */
module Timestamps {
  import opened Decimals
  import opened Options

  // ---------------------------------------------------------------- the calendar

  datatype Fields = Fields(year: nat, month: nat, day: nat, hour: nat, minute: nat, second: nat)

  predicate IsLeap(y: int) { y % 4 == 0 && (y % 100 != 0 || y % 400 == 0) }

  function DaysInMonth(y: int, m: int): nat {
    if m == 2 then (if IsLeap(y) then 29 else 28) else if m in {4, 6, 9, 11} then 30 else 31
  }

  predicate ValidDate(y: int, m: int, d: int) { 1 <= y <= 9999 && 1 <= m <= 12 && 1 <= d <= DaysInMonth(y, m) }

  predicate Valid(f: Fields) {
    ValidDate(f.year, f.month, f.day) && f.hour < 24 && f.minute < 60 && f.second < 60
  }

  function DaysBeforeYear(y: int): int { 365 * (y - 1) + (y - 1) / 4 - (y - 1) / 100 + (y - 1) / 400 }

  const DAYS_BEFORE: seq<nat> := [0, 31, 59, 90, 120, 151, 181, 212, 243, 273, 304, 334, 365]

  /** Days of the year before month `m`; month 13 stands for the next year. */
  function DaysBeforeMonth(y: int, m: int): nat
    requires 1 <= m <= 13
  {
    DAYS_BEFORE[m - 1] + (if m > 2 && IsLeap(y) then 1 else 0)
  }

  /** Days counted from 1 on 0001-01-01. */
  function Ordinal(y: int, m: nat, d: int): int
    requires 1 <= m <= 12
  {
    DaysBeforeYear(y) + DaysBeforeMonth(y, m) + d
  }

  const EPOCH: int := 719_163
  const DAY: int := 86_400
  const NANOS: int := 1_000_000_000

  function OfDay(f: Fields): int { f.hour * 3600 + f.minute * 60 + f.second }

  /** Seconds since 1970-01-01T00:00:00Z. */
  function Seconds(f: Fields): int
    requires Valid(f)
  {
    (Ordinal(f.year, f.month, f.day) - EPOCH) * DAY + OfDay(f)
  }

  lemma Quotients(y: int)
    requires y >= 1
    ensures y / 4 == (y - 1) / 4 + (if y % 4 == 0 then 1 else 0)
    ensures y / 100 == (y - 1) / 100 + (if y % 100 == 0 then 1 else 0)
    ensures y / 400 == (y - 1) / 400 + (if y % 400 == 0 then 1 else 0)
  {
    Quotient(y, 4);
    Quotient(y, 100);
    Quotient(y, 400);
  }

  lemma Quotient(y: int, k: int)
    requires y >= 1 && k > 1
    ensures y / k == (y - 1) / k + (if y % k == 0 then 1 else 0)
  {
    var q, r := y / k, y % k;
    assert y == q * k + r;
    if r == 0 {
      assert y - 1 == (q - 1) * k + (k - 1);
      Unique(y - 1, k, q - 1, k - 1);
    } else {
      Unique(y - 1, k, q, r - 1);
    }
  }

  lemma Unique(x: int, k: int, q: int, r: int)
    requires k > 1 && 0 <= r < k && x == q * k + r
    ensures x / k == q
  {
    var d := x / k - q;
    assert x == (x / k) * k + x % k;
    assert d * k == r - x % k;
    SmallMultiple(d, k);
  }

  lemma SmallMultiple(d: int, k: int)
    requires -k < d * k < k
    ensures d == 0
  {
    if d >= 1 { AtLeast(d, k); } else if d <= -1 { AtLeast(-d, k); }
  }

  lemma AtLeast(d: int, k: int)
    requires d >= 1 && k >= 0
    ensures d * k >= k
  {
    assert (d - 1) * k >= 0;
  }

  lemma Multiples(y: int)
    ensures y % 400 == 0 ==> y % 100 == 0
    ensures y % 100 == 0 ==> y % 4 == 0
  {
  }

  lemma YearLength(y: int)
    requires y >= 1
    ensures DaysBeforeYear(y + 1) == DaysBeforeYear(y) + (if IsLeap(y) then 366 else 365)
  {
    Quotients(y);
    Multiples(y);
  }

  lemma {:induction false} YearsAscend(a: int, b: int)
    requires 1 <= a <= b
    ensures DaysBeforeYear(a) <= DaysBeforeYear(b)
    decreases b - a
  {
    if a < b {
      YearLength(a);
      YearsAscend(a + 1, b);
    }
  }

  lemma MonthLength(y: int, m: int)
    requires 1 <= m <= 12
    ensures DaysBeforeMonth(y, m + 1) == DaysBeforeMonth(y, m) + DaysInMonth(y, m)
  {
  }

  lemma MonthsAscend(y: int, a: int, b: int)
    requires 1 <= a <= b <= 13
    ensures DaysBeforeMonth(y, a) <= DaysBeforeMonth(y, b)
    decreases b - a
  {
    if a < b { MonthsAscend(y, a + 1, b); }
  }

  /** A day lies inside its month, and its month inside its year. */
  lemma DayInYear(y: int, m: nat, d: int)
    requires ValidDate(y, m, d)
    ensures DaysBeforeYear(y) < Ordinal(y, m, d) <= DaysBeforeYear(y + 1)
    ensures DaysBeforeMonth(y, m) < Ordinal(y, m, d) - DaysBeforeYear(y) <= DaysBeforeMonth(y, m + 1)
  {
    YearLength(y);
    MonthLength(y, m);
    MonthsAscend(y, m + 1, 13);
  }

  predicate DateBefore(y: int, m: int, d: int, y': int, m': int, d': int) {
    y < y' || (y == y' && (m < m' || (m == m' && d < d')))
  }

  lemma DatesAscend(y: int, m: nat, d: int, y': int, m': nat, d': int)
    requires ValidDate(y, m, d) && ValidDate(y', m', d') && DateBefore(y, m, d, y', m', d')
    ensures Ordinal(y, m, d) < Ordinal(y', m', d')
  {
    DayInYear(y, m, d);
    DayInYear(y', m', d');
    if y < y' {
      YearsAscend(y + 1, y');
    } else if m < m' {
      MonthLength(y, m);
      MonthsAscend(y, m + 1, m');
    }
  }

  /** Chronological order, field by field. */
  predicate Before(a: Fields, b: Fields) {
    DateBefore(a.year, a.month, a.day, b.year, b.month, b.day) ||
    ((a.year, a.month, a.day) == (b.year, b.month, b.day) &&
     (a.hour < b.hour || (a.hour == b.hour && (a.minute < b.minute || (a.minute == b.minute && a.second < b.second)))))
  }

  lemma SecondsAscend(a: Fields, b: Fields)
    requires Valid(a) && Valid(b) && Before(a, b)
    ensures Seconds(a) < Seconds(b)
  {
    if DateBefore(a.year, a.month, a.day, b.year, b.month, b.day) {
      DatesAscend(a.year, a.month, a.day, b.year, b.month, b.day);
    }
  }

  lemma SecondsOf(f: Fields, days: int)
    requires Valid(f) && Ordinal(f.year, f.month, f.day) == days
    ensures Seconds(f) == (days - 719_163) * 86_400 + f.hour * 3600 + f.minute * 60 + f.second
  {
  }

  /** The count starts at the epoch. */
  lemma EpochIsZero(f: Fields)
    requires f.year == 1970 && f.month == f.day == 1 && f.hour == f.minute == f.second == 0
    ensures Valid(f) && Seconds(f) == 0
  {
    assert DaysBeforeYear(f.year) == 719_162 && DaysBeforeMonth(f.year, f.month) == 0;
    hide Seconds, DaysBeforeYear, DaysBeforeMonth;
    SecondsOf(f, 719_163);
  }

  lemma BeforeTotal(a: Fields, b: Fields)
    ensures a == b || Before(a, b) || Before(b, a)
  {
  }

  // ---------------------------------------------------------------- text

  function Head(f: Fields): string {
    Pad(f.year, 4) + "-" + Pad(f.month, 2) + "-" + Pad(f.day, 2) + "T" +
    Pad(f.hour, 2) + ":" + Pad(f.minute, 2) + ":" + Pad(f.second, 2)
  }

  /** A UTC timestamp in the 'Z' form of section 5.6 of RFC 3339, with at most
      nine fraction digits. */
  datatype Stamp = Stamp(fields: Fields, fraction: string)

  ghost predicate WellFormed(t: Stamp) { Valid(t.fields) && |t.fraction| <= 9 && AllDigits(t.fraction) }

  function Text(t: Stamp): string {
    Head(t.fields) + (if t.fraction == "" then "" else "." + t.fraction) + "Z"
  }

  const ZEROS: string := "000000000"

  /** The fraction in nanoseconds. */
  function FractionNs(fraction: string): nat
    requires AllDigits(fraction)
  {
    Value((fraction + ZEROS)[..9])
  }

  ghost function Nanos(t: Stamp): int
    requires WellFormed(t)
  {
    Seconds(t.fields) * NANOS + FractionNs(t.fraction)
  }

  lemma FractionRange(fraction: string)
    requires AllDigits(fraction)
    ensures FractionNs(fraction) < NANOS
  {
    ValuePad((fraction + ZEROS)[..9]);
    assert Pow10(9) == 1_000_000_000;
  }

  lemma FractionScaled(fraction: string)
    requires AllDigits(fraction) && |fraction| <= 9
    ensures FractionNs(fraction) == Value(fraction) * Pow10(9 - |fraction|)
  {
    hide Pow10, Value;
    var n := 9 - |fraction|;
    Padded(fraction);
    ZeroValue(n);
    ValueAppend(fraction, ZEROS[..n]);
    hide AllDigits;
  }

  lemma Padded(fraction: string)
    requires |fraction| <= 9
    ensures (fraction + ZEROS)[..9] == fraction + ZEROS[..9 - |fraction|] && |ZEROS[..9 - |fraction|]| == 9 - |fraction|
  {
  }

  /** The digits mean what they mean after the decimal point. */
  lemma FractionMeaning(fraction: string)
    requires AllDigits(fraction) && |fraction| <= 9
    ensures FractionNs(fraction) * Pow10(|fraction|) == Value(fraction) * Pow10(9)
  {
    hide *;
    FractionScaled(fraction);
    PowAdds(9 - |fraction|, |fraction|);
    Product(FractionNs(fraction), Value(fraction), Pow10(9 - |fraction|), Pow10(|fraction|));
  }

  lemma Product(n: nat, a: nat, b: nat, c: nat)
    requires n == a * b
    ensures n * c == a * (b * c)
  {
  }

  lemma {:induction false} ZeroValue(n: nat)
    requires n <= 9
    ensures AllDigits(ZEROS[..n]) && Value(ZEROS[..n]) == 0
  {
    if n > 0 {
      ZeroValue(n - 1);
      assert ZEROS[..n][..n - 1] == ZEROS[..n - 1];
    }
  }

  lemma {:induction false} PowAdds(a: nat, b: nat)
    ensures Pow10(a) * Pow10(b) == Pow10(a + b)
  {
    if a > 0 {
      PowAdds(a - 1, b);
      assert Pow10(a) * Pow10(b) == 10 * (Pow10(a - 1) * Pow10(b));
    }
  }

  // ---------------------------------------------------------------- the parsers

  datatype Library = Library(strptime: string -> Option<int>, fromisoformat: string -> Option<int>)

  ghost predicate Conforms(lib: Library) { forall f: Fields :: Valid(f) ==> ReadsHead(lib, f) }

  ghost predicate ReadsHead(lib: Library, f: Fields)
    requires Valid(f)
  {
    lib.strptime(Head(f)) == Some(Seconds(f)) && lib.fromisoformat(Head(f)) == Some(Seconds(f))
  }

  lemma {:induction false} PadDigits(n: nat, width: nat)
    ensures |Pad(n, width)| == width && AllDigits(Pad(n, width))
  {
    if width > 0 { PadDigits(n / 10, width - 1); }
  }

  lemma HeadText(f: Fields)
    ensures |Head(f)| == 19 && '.' !in Head(f) && IsDigit(Head(f)[18])
  {
    PadDigits(f.year, 4);
    PadDigits(f.month, 2);
    PadDigits(f.day, 2);
    PadDigits(f.hour, 2);
    PadDigits(f.minute, 2);
    PadDigits(f.second, 2);
  }

  lemma FieldsWidth(f: Fields)
    ensures |Head(f)| == 19
    ensures Head(f)[..4] == Pad(f.year, 4) && Head(f)[5..7] == Pad(f.month, 2) && Head(f)[8..10] == Pad(f.day, 2)
    ensures Head(f)[11..13] == Pad(f.hour, 2) && Head(f)[14..16] == Pad(f.minute, 2)
    ensures Head(f)[17..19] == Pad(f.second, 2)
  {
    HeadText(f);
    PadDigits(f.year, 4);
    PadDigits(f.month, 2);
    PadDigits(f.day, 2);
    PadDigits(f.hour, 2);
    PadDigits(f.minute, 2);
    PadDigits(f.second, 2);
    hide Pad;
  }

  /** Different times are written differently. */
  lemma HeadInjective(f: Fields, g: Fields)
    requires Valid(f) && Valid(g) && Head(f) == Head(g)
    ensures f == g
  {
    FieldsWidth(f);
    FieldsWidth(g);
    hide Head, Pad, Value;
    assert Pow10(4) == 10000 && Pow10(2) == 100;
    PadValue(f.year, 4); PadValue(g.year, 4);
    PadValue(f.month, 2); PadValue(g.month, 2);
    PadValue(f.day, 2); PadValue(g.day, 2);
    PadValue(f.hour, 2); PadValue(g.hour, 2);
    PadValue(f.minute, 2); PadValue(g.minute, 2);
    PadValue(f.second, 2); PadValue(g.second, 2);
  }

  ghost predicate Writes(f: Fields, s: string) { Valid(f) && Head(f) == s }

  ghost function TimeOf(s: string): Option<int> {
    if exists f: Fields :: Writes(f, s) then
      var f: Fields :| Writes(f, s);
      Some(Seconds(f))
    else
      None
  }

  /** What is assumed of the library can be met. */
  lemma LibraryExists() returns (lib: Library)
    ensures Conforms(lib)
  {
    lib := Library(s => TimeOf(s), s => TimeOf(s));
    forall f: Fields | Valid(f) ensures ReadsHead(lib, f) {
      assert Writes(f, Head(f));
      forall g: Fields | Writes(g, Head(f)) ensures g == f { HeadInjective(g, f); }
    }
  }

  /** `s.partition('.')`, without the separator. */
  function Partition(s: string): (string, string) {
    if s == [] then ("", "")
    else if s[0] == '.' then ("", s[1..])
    else var (head, tail) := Partition(s[1..]); ([s[0]] + head, tail)
  }

  function DropZ(s: string): string { if s != [] && s[|s| - 1] == 'Z' then s[..|s| - 1] else s }

  function FractionOf(fraction: string): Option<int> {
    if fraction == "" then Some(0) else PyInt((fraction + ZEROS)[..9])
  }

  function Combine(secs: Option<int>, fraction: Option<int>): Option<int> {
    if secs.None? || fraction.None? then None else Some(secs.value * NANOS + fraction.value)
  }

  /** `parse_rfc3339_ns` without its memo. */
  function Parse(lib: Library, ts: string): Option<int> {
    var (head, fraction) := Partition(DropZ(ts));
    Combine(lib.strptime(head), FractionOf(fraction))
  }

  function OnlyDigits(s: string): string {
    if s == [] then []
    else
      var front := OnlyDigits(s[..|s| - 1]);
      if IsDigit(s[|s| - 1]) then front + [s[|s| - 1]] else front
  }

  function FirstNine(s: string): string { if |s| <= 9 then s else s[..9] }

  /** `_ns` on a timestamp that is present. */
  function RestNs(lib: Library, ts: string): Option<int> {
    var (body, fraction) := Partition(ts);
    var base := lib.fromisoformat(DropZ(body));
    if fraction == "" then Combine(base, Some(0))
    else Combine(base, PyInt((FirstNine(OnlyDigits(fraction)) + ZEROS)[..9]))
  }

  lemma {:induction false} PartitionNone(s: string)
    requires '.' !in s
    ensures Partition(s) == (s, "")
  {
    if s != [] {
      PartitionNone(s[1..]);
      assert [s[0]] + s[1..] == s;
    }
  }

  lemma {:induction false} PartitionAt(s: string, t: string)
    requires '.' !in s
    ensures Partition(s + "." + t) == (s, t)
  {
    var all := s + "." + t;
    if s == [] {
      assert all[0] == '.' && all[1..] == t;
    } else {
      assert all[0] == s[0] && all[1..] == s[1..] + "." + t;
      PartitionAt(s[1..], t);
      assert [s[0]] + s[1..] == s;
    }
  }

  lemma {:induction false} DigitsKept(s: string)
    requires AllDigits(s)
    ensures OnlyDigits(s) == s
  {
    if s != [] {
      DigitsKept(s[..|s| - 1]);
      assert s == s[..|s| - 1] + [s[|s| - 1]];
    }
  }

  lemma {:induction false} DigitsBeforeZ(s: string)
    requires AllDigits(s)
    ensures OnlyDigits(s + "Z") == s
  {
    DigitsKept(s);
    assert (s + "Z")[..|s + "Z"| - 1] == s;
  }

  /** On well-formed text both parsers return the nanosecond count. */
  lemma ParsersAgree(lib: Library, t: Stamp)
    requires Conforms(lib) && WellFormed(t)
    ensures Parse(lib, Text(t)) == Some(Nanos(t))
    ensures RestNs(lib, Text(t)) == Some(Nanos(t))
  {
    HeadText(t.fields);
    assert ReadsHead(lib, t.fields);
    if t.fraction == "" {
      PlainText(lib, t);
    } else {
      FractionText(lib, t);
    }
  }

  lemma PlainText(lib: Library, t: Stamp)
    requires Conforms(lib) && WellFormed(t) && t.fraction == "" && ReadsHead(lib, t.fields)
    ensures Parse(lib, Text(t)) == Some(Nanos(t)) && RestNs(lib, Text(t)) == Some(Nanos(t))
  {
    hide Conforms, Partition, Head, FractionNs, Seconds, Valid, AllDigits, Pad, PyInt;
    var head := Head(t.fields);
    HeadText(t.fields);
    PartitionNone(head);
    PartitionNone(head + "Z");
    NoFraction();
    assert Text(t) == head + "Z";
    hide Text;
    assert DropZ(head + "Z") == head;
  }

  lemma NoFraction()
    ensures FractionNs("") == 0
  {
    ZeroValue(9);
    assert ("" + ZEROS)[..9] == ZEROS[..9];
  }

  lemma FractionText(lib: Library, t: Stamp)
    requires Conforms(lib) && WellFormed(t) && t.fraction != "" && ReadsHead(lib, t.fields)
    ensures Parse(lib, Text(t)) == Some(Nanos(t)) && RestNs(lib, Text(t)) == Some(Nanos(t))
  {
    hide Conforms, Partition, DropZ, OnlyDigits, Head, Text, FractionNs, Seconds, Valid, Parse, RestNs, AllDigits,
      Value, Pad, FractionOf, Combine;
    SplitText(t);
    DigitsBeforeZ(t.fraction);
    PaddedDigits(t.fraction);
    var secs, ns := Seconds(t.fields), FractionNs(t.fraction);
    ParseCut(lib, Text(t), Head(t.fields), t.fraction, secs, ns);
    RestCut(lib, Text(t), Head(t.fields), t.fraction, secs, ns);
  }

  lemma ParseCut(lib: Library, ts: string, head: string, fraction: string, secs: int, ns: int)
    requires Partition(DropZ(ts)) == (head, fraction) && fraction != ""
    requires lib.strptime(head) == Some(secs) && PyInt((fraction + ZEROS)[..9]) == Some(ns)
    ensures Parse(lib, ts) == Some(secs * NANOS + ns)
  {
    hide Partition, DropZ;
  }

  lemma RestCut(lib: Library, ts: string, head: string, fraction: string, secs: int, ns: int)
    requires Partition(ts) == (head, fraction + "Z") && DropZ(head) == head
    requires 0 < |fraction| <= 9 && OnlyDigits(fraction + "Z") == fraction
    requires lib.fromisoformat(head) == Some(secs) && PyInt((fraction + ZEROS)[..9]) == Some(ns)
    ensures RestNs(lib, ts) == Some(secs * NANOS + ns)
  {
    hide Partition, DropZ, OnlyDigits;
  }

  lemma PaddedDigits(fraction: string)
    requires AllDigits(fraction) && fraction != ""
    ensures PyInt((fraction + ZEROS)[..9]) == Some(FractionNs(fraction))
  {
    hide PyInt, Value;
    assert AllDigits((fraction + ZEROS)[..9]);
    PyIntDigits((fraction + ZEROS)[..9]);
  }

  /** Where the two parsers cut a timestamp with a fraction. */
  lemma SplitText(t: Stamp)
    requires WellFormed(t) && t.fraction != ""
    ensures Partition(DropZ(Text(t))) == (Head(t.fields), t.fraction)
    ensures Partition(Text(t)) == (Head(t.fields), t.fraction + "Z")
    ensures DropZ(Head(t.fields)) == Head(t.fields)
  {
    var head, fraction := Head(t.fields), t.fraction;
    HeadText(t.fields);
    PartitionAt(head, fraction);
    PartitionAt(head, fraction + "Z");
    hide Head, Partition, Valid;
    assert Text(t) == head + "." + fraction + "Z";
    assert Text(t) == head + "." + (fraction + "Z");
    assert DropZ(Text(t)) == head + "." + fraction;
  }

  // ---------------------------------------------------------------- order and round trip

  /** Chronological order of timestamps: the fields, then the fraction. */
  ghost predicate Earlier(a: Stamp, b: Stamp)
    requires WellFormed(a) && WellFormed(b)
  {
    Before(a.fields, b.fields) || (a.fields == b.fields && FractionNs(a.fraction) < FractionNs(b.fraction))
  }

  lemma NanosAscend(a: Stamp, b: Stamp)
    requires WellFormed(a) && WellFormed(b) && Earlier(a, b)
    ensures Nanos(a) < Nanos(b)
  {
    FractionRange(a.fraction);
    FractionRange(b.fraction);
    if Before(a.fields, b.fields) { SecondsAscend(a.fields, b.fields); }
  }

  /** Parsing is strictly order-preserving, down to the nanosecond. */
  lemma ParsePreservesOrder(lib: Library, a: Stamp, b: Stamp)
    requires Conforms(lib) && WellFormed(a) && WellFormed(b)
    ensures Parse(lib, Text(a)).Some? && Parse(lib, Text(b)).Some?
    ensures Parse(lib, Text(a)).value < Parse(lib, Text(b)).value <==> Earlier(a, b)
  {
    ParsersAgree(lib, a);
    ParsersAgree(lib, b);
    hide Seconds, FractionNs, Before, Text, Parse;
    if Earlier(a, b) {
      NanosAscend(a, b);
    } else {
      BeforeTotal(a.fields, b.fields);
      if Earlier(b, a) { NanosAscend(b, a); }
    }
  }

  /** The year that holds a day. */
  function YearOf(day: int, from: int): int
    requires 1 <= from <= 9999 && DaysBeforeYear(from) < day <= DaysBeforeYear(10000)
    decreases 9999 - from
  {
    if day <= DaysBeforeYear(from + 1) || from == 9999 then from else YearOf(day, from + 1)
  }

  function MonthOf(y: int, rest: int, from: int): int
    requires 1 <= from <= 12
    decreases 12 - from
  {
    if from == 12 || rest <= DaysBeforeMonth(y, from + 1) then from else MonthOf(y, rest, from + 1)
  }

  lemma {:induction false} YearFound(day: int, from: int)
    requires 1 <= from <= 9999 && DaysBeforeYear(from) < day <= DaysBeforeYear(10000)
    ensures from <= YearOf(day, from) <= 9999
    ensures DaysBeforeYear(YearOf(day, from)) < day <= DaysBeforeYear(YearOf(day, from) + 1)
    decreases 9999 - from
  {
    if !(day <= DaysBeforeYear(from + 1) || from == 9999) { YearFound(day, from + 1); }
  }

  lemma {:induction false} MonthFound(y: int, rest: int, from: int)
    requires 1 <= from <= 12 && DaysBeforeMonth(y, from) < rest <= DaysBeforeMonth(y, 13)
    ensures from <= MonthOf(y, rest, from) <= 12
    ensures DaysBeforeMonth(y, MonthOf(y, rest, from)) < rest <= DaysBeforeMonth(y, MonthOf(y, rest, from) + 1)
    decreases 12 - from
  {
    if from < 12 && rest > DaysBeforeMonth(y, from + 1) { MonthFound(y, rest, from + 1); }
  }

  predicate InCalendar(day: int) { 1 <= day <= DaysBeforeYear(10000) }

  /** The date of a day number. */
  function DateOf(day: int): (int, int, int)
    requires InCalendar(day)
  {
    var y := YearOf(day, 1);
    var rest := day - DaysBeforeYear(y);
    var m := MonthOf(y, rest, 1);
    (y, m, rest - (if 1 <= m <= 12 then DaysBeforeMonth(y, m) else 0))
  }

  lemma DateFound(day: int)
    requires InCalendar(day)
    ensures var (y, m, d) := DateOf(day); ValidDate(y, m, d) && Ordinal(y, m, d) == day
  {
    var y := YearOf(day, 1);
    var rest := day - DaysBeforeYear(y);
    YearFound(day, 1);
    YearLength(y);
    assert DaysBeforeMonth(y, 1) == 0 && DaysBeforeMonth(y, 13) == if IsLeap(y) then 366 else 365;
    MonthFound(y, rest, 1);
    MonthLength(y, MonthOf(y, rest, 1));
  }

  /** Nanosecond counts from 0001-01-01 up to the end of 9999. */
  predicate InRange(n: int) { InCalendar(n / NANOS / DAY + EPOCH) }

  /** The timestamp of a nanosecond count, with nine fraction digits. */
  function StampOf(n: int): Stamp
    requires InRange(n)
  {
    var secs := n / NANOS;
    var (y, m, d) := DateOf(secs / DAY + EPOCH);
    var time := secs % DAY;
    DateFound(secs / DAY + EPOCH);
    Stamp(Fields(y, m, d, time / 3600, time / 60 % 60, time % 60), Pad(n % NANOS, 9))
  }

  lemma StampFound(n: int)
    requires InRange(n)
    ensures WellFormed(StampOf(n)) && |StampOf(n).fraction| == 9 && Nanos(StampOf(n)) == n
  {
    var secs, fraction := n / NANOS, Pad(n % NANOS, 9);
    DateFound(secs / DAY + EPOCH);
    assert Pow10(9) == 1_000_000_000;
    PadValue(n % NANOS, 9);
    assert (fraction + ZEROS)[..9] == fraction;
    TimeOfDay(secs % DAY);
    hide Pow10, DateOf, Value, Pad;
    assert Seconds(StampOf(n).fields) == secs;
  }

  lemma TimeOfDay(t: int)
    requires 0 <= t < DAY
    ensures t / 3600 < 24 && t / 60 % 60 < 60 && t % 60 < 60
    ensures t / 3600 * 3600 + t / 60 % 60 * 60 + t % 60 == t
  {
    assert t / 60 / 60 == t / 3600;
  }

  lemma NanosInRange(t: Stamp)
    requires WellFormed(t)
    ensures InRange(Nanos(t))
  {
    var f := t.fields;
    FractionRange(t.fraction);
    DayInYear(f.year, f.month, f.day);
    YearsAscend(1, f.year);
    YearsAscend(f.year + 1, 10000);
    hide FractionNs, DaysBeforeYear, DaysBeforeMonth, DaysInMonth, ValidDate;
    var days := Ordinal(f.year, f.month, f.day);
    hide Ordinal;
    assert Nanos(t) / NANOS == Seconds(f);
    assert Seconds(f) / DAY + EPOCH == days;
  }

  /** Every nine-digit timestamp is the one printed for its own count. */
  lemma StampUnique(t: Stamp)
    requires WellFormed(t) && |t.fraction| == 9
    ensures InRange(Nanos(t)) && StampOf(Nanos(t)) == t
  {
    NanosInRange(t);
    StampFound(Nanos(t));
    var u := StampOf(Nanos(t));
    hide StampOf, Seconds, FractionNs, Valid, InRange;
    BeforeTotal(t.fields, u.fields);
    if Earlier(t, u) { NanosAscend(t, u); }
    if Earlier(u, t) { NanosAscend(u, t); }
    SameFraction(t.fraction, u.fraction);
  }

  lemma SameFraction(a: string, b: string)
    requires AllDigits(a) && AllDigits(b) && |a| == |b| == 9 && FractionNs(a) == FractionNs(b)
    ensures a == b
  {
    assert (a + ZEROS)[..9] == a && (b + ZEROS)[..9] == b;
    ValuePad(a);
    ValuePad(b);
  }

  /** Parsing inverts printing a nanosecond count with nine digits. */
  lemma RoundTrip(lib: Library, n: int)
    requires Conforms(lib) && InRange(n)
    ensures Parse(lib, Text(StampOf(n))) == Some(n) && RestNs(lib, Text(StampOf(n))) == Some(n)
  {
    StampFound(n);
    ParsersAgree(lib, StampOf(n));
  }

  // ---------------------------------------------------------------- the memo

  const MEMO_MAX: nat := 4096

  /** The stream's parser with its memo for the whole-second part. */
  function MemoParse(lib: Library, memo: map<string, int>, ts: string): (map<string, int>, Option<int>) {
    var (head, fraction) := Partition(DropZ(ts));
    if head in memo then (memo, Combine(Some(memo[head]), FractionOf(fraction)))
    else
      var secs := lib.strptime(head);
      if secs.None? then (memo, None)
      else
        ((if |memo| >= MEMO_MAX then map[] else memo)[head := secs.value], Combine(secs, FractionOf(fraction)))
  }

  ghost predicate MemoInv(lib: Library, memo: map<string, int>) {
    |memo| <= 4096 && forall head :: head in memo ==> lib.strptime(head) == Some(memo[head])
  }

  lemma MemoStep(lib: Library, memo: map<string, int>, ts: string)
    requires MemoInv(lib, memo)
    ensures MemoInv(lib, MemoParse(lib, memo, ts).0)
    ensures MemoParse(lib, memo, ts).1 == Parse(lib, ts)
  {
    var (head, fraction) := Partition(DropZ(ts));
    if head !in memo && lib.strptime(head).Some? {
      var kept := if |memo| >= MEMO_MAX then map[] else memo;
      var grown := kept[head := lib.strptime(head).value];
      assert grown.Keys == kept.Keys + {head};
    }
  }

  /** The memo forgets only when it is full, and then everything; a head it knows
      leaves it as it is. */
  lemma MemoForgets(lib: Library, memo: map<string, int>, ts: string)
    ensures var memo', head := MemoParse(lib, memo, ts).0, Partition(DropZ(ts)).0;
      && (head in memo ==> memo' == memo)
      && (head !in memo && lib.strptime(head).None? ==> memo' == memo)
      && (head !in memo && lib.strptime(head).Some? ==>
            memo' == (if |memo| < 4096 then memo else map[])[head := lib.strptime(head).value])
  {
  }

  /** The memo and the answers after a sequence of calls on an empty memo. */
  function MemoRun(lib: Library, calls: seq<string>): (r: (map<string, int>, seq<Option<int>>))
    ensures |r.1| == |calls|
  {
    if calls == [] then (map[], [])
    else
      var n := |calls| - 1;
      var (memo, answers) := MemoRun(lib, calls[..n]);
      var (memo', answer) := MemoParse(lib, memo, calls[n]);
      (memo', answers + [answer])
  }

  /** In any sequence of calls, good or bad text, the memo never changes an answer
      and never exceeds its bound. */
  lemma {:induction false} MemoTransparent(lib: Library, calls: seq<string>)
    ensures MemoInv(lib, MemoRun(lib, calls).0)
    ensures forall i :: 0 <= i < |calls| ==> MemoRun(lib, calls).1[i] == Parse(lib, calls[i])
  {
    if calls != [] {
      var n := |calls| - 1;
      MemoTransparent(lib, calls[..n]);
      MemoStep(lib, MemoRun(lib, calls[..n]).0, calls[n]);
    }
  }

  class TimestampParser {
    const lib: Library
    var memo: map<string, int>

    constructor (lib: Library)
      ensures this.lib == lib && memo == map[]
    {
      this.lib, memo := lib, map[];
    }

    /** `parse_rfc3339_ns`. */
    method ParseRfc3339Ns(ts: string) returns (ns: Option<int>)
      requires MemoInv(lib, memo)
      modifies this
      ensures MemoInv(lib, memo)
      ensures (memo, ns) == MemoParse(lib, old(memo), ts)
      ensures ns == Parse(lib, ts)
    {
      MemoStep(lib, memo, ts);
      var body := ts;
      if body != [] && body[|body| - 1] == 'Z' {
        body := body[..|body| - 1];
      }
      var (head, fraction) := Partition(body);
      var secs: int;
      if head in memo {
        secs := memo[head];
      } else {
        var parsed := lib.strptime(head);
        if parsed.None? {
          return None;
        }
        secs := parsed.value;
        if |memo| >= MEMO_MAX {
          memo := map[];
        }
        memo := memo[head := secs];
      }
      var nanos := Some(0);
      if fraction != "" {
        nanos := PyInt((fraction + ZEROS)[..9]);
      }
      if nanos.None? {
        return None;
      }
      return Some(secs * NANOS + nanos.value);
    }
  }
}
