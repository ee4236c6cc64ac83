// The stored form of instants: fixed-width UTC ISO-8601 text with microseconds, over the
// proleptic Gregorian calendar of years 1 to 9999.
module Timestamps {
  import opened Wrappers
  import Text

  const MAX_YEAR := 9999
  const MAX_DAYS := 3652059
  const MICROS_PER_DAY := 24 * 60 * 60 * 1000000

  /* ---------- Calendar ---------- */

  predicate IsLeap(year: nat) {
    year % 4 == 0 && (year % 100 != 0 || year % 400 == 0)
  }

  function DaysInMonth(year: nat, month: nat): (days: nat)
    requires 1 <= month <= 12
  {
    if month == 2 then (if IsLeap(year) then 29 else 28)
    else if month in {4, 6, 9, 11} then 30
    else 31
  }

  // Days of the year before the first of `month`; month 13 stands for the end of the year.
  function DaysBeforeMonth(year: nat, month: nat): (days: nat)
    requires 1 <= month <= 13
  {
    if month == 1 then 0 else DaysBeforeMonth(year, month - 1) + DaysInMonth(year, month - 1)
  }

  function DaysBeforeYear(year: nat): (days: nat)
    requires 1 <= year
  {
    (year - 1) * 365 + (year - 1) / 4 - (year - 1) / 100 + (year - 1) / 400
  }

  datatype Date = Date(year: nat, month: nat, day: nat)

  predicate ValidDate(d: Date) {
    && 1 <= d.year <= MAX_YEAR
    && 1 <= d.month <= 12
    && 1 <= d.day <= DaysInMonth(d.year, d.month)
  }

  function Ordinal(d: Date): (days: nat)
    requires ValidDate(d)
  {
    DaysBeforeYear(d.year) + DaysBeforeMonth(d.year, d.month) + d.day - 1
  }

  lemma {:induction false} MonthsMonotone(year: nat, m: nat, n: nat)
    requires 1 <= m <= n <= 13
    ensures DaysBeforeMonth(year, m) <= DaysBeforeMonth(year, n)
  {
    if m < n {
      MonthsMonotone(year, m, n - 1);
    }
  }

  lemma {:induction false} MonthTotals(year: nat)
    ensures DaysBeforeMonth(year, 13) == if IsLeap(year) then 366 else 365
  {
    assert DaysBeforeMonth(year, 3) == if IsLeap(year) then 60 else 59 by {
      assert DaysBeforeMonth(year, 2) == 31;
    }
    assert DaysBeforeMonth(year, 5) == DaysBeforeMonth(year, 3) + 61;
    assert DaysBeforeMonth(year, 7) == DaysBeforeMonth(year, 5) + 61;
    assert DaysBeforeMonth(year, 9) == DaysBeforeMonth(year, 7) + 62;
    assert DaysBeforeMonth(year, 11) == DaysBeforeMonth(year, 9) + 61;
  }

  lemma {:induction false} MultiplesCounted(n: nat, k: nat)
    requires 1 <= n && k > 0
    ensures n / k == (n - 1) / k + if n % k == 0 then 1 else 0
  {
    var q, r := n / k, n % k;
    assert n == q * k + r;
    if r == 0 {
      assert q >= 1;
      assert n - 1 == (q - 1) * k + (k - 1);
      QuotientIs(n - 1, q - 1, k - 1, k);
    } else {
      assert n - 1 == q * k + (r - 1);
      QuotientIs(n - 1, q, r - 1, k);
    }
  }

  lemma {:induction false} QuotientIs(n: nat, q: nat, r: nat, k: nat)
    requires k > 0 && r < k && n == q * k + r
    ensures n / k == q
  {
    var d := n / k - q;
    assert n == n / k * k + n % k;
    assert d * k == r - n % k;
  }

  // Consecutive years are one year's months apart.
  lemma {:induction false} YearStep(year: nat)
    requires 1 <= year
    ensures DaysBeforeYear(year + 1) == DaysBeforeYear(year) + DaysBeforeMonth(year, 13)
  {
    MonthTotals(year);
    MultiplesCounted(year, 4);
    MultiplesCounted(year, 100);
    MultiplesCounted(year, 400);
    assert year % 400 == 0 ==> year % 100 == 0;
    assert year % 100 == 0 ==> year % 4 == 0;
  }

  lemma {:induction false} YearsMonotone(y: nat, z: nat)
    requires 1 <= y <= z
    ensures DaysBeforeYear(y) <= DaysBeforeYear(z)
  {
    if y < z {
      YearsMonotone(y, z - 1);
      YearStep(z - 1);
    }
  }

  lemma {:induction false} OrdinalBounds(d: Date)
    requires ValidDate(d)
    ensures DaysBeforeMonth(d.year, d.month) + d.day <= DaysBeforeMonth(d.year, d.month + 1)
    ensures DaysBeforeYear(d.year) <= Ordinal(d) < DaysBeforeYear(d.year + 1)
    ensures Ordinal(d) < MAX_DAYS
  {
    MonthsMonotone(d.year, d.month + 1, 13);
    YearStep(d.year);
    YearsMonotone(d.year + 1, MAX_YEAR + 1);
  }

  lemma {:induction false} OrdinalMonotone(a: Date, b: Date)
    requires ValidDate(a) && ValidDate(b)
    requires LexLess([a.year, a.month, a.day], [b.year, b.month, b.day])
    ensures Ordinal(a) < Ordinal(b)
  {
    LexLessThree(a.year, a.month, a.day, b.year, b.month, b.day);
    OrdinalBounds(a);
    OrdinalBounds(b);
    if a.year < b.year {
      YearsMonotone(a.year + 1, b.year);
    } else if a.month < b.month {
      MonthsMonotone(a.year, a.month + 1, b.month);
    }
  }

  function YearOf(days: nat, from: nat): (year: nat)
    requires 1 <= from <= MAX_YEAR
    requires DaysBeforeYear(from) <= days < MAX_DAYS
    ensures from <= year <= MAX_YEAR
    ensures DaysBeforeYear(year) <= days < DaysBeforeYear(year + 1)
    decreases MAX_YEAR - from, days
  {
    if days < DaysBeforeYear(from + 1) then from
    else
      YearOf(days, from + 1)
  }

  function MonthOf(year: nat, days: nat, from: nat): (month: nat)
    requires 1 <= from <= 12
    requires DaysBeforeMonth(year, from) <= days < DaysBeforeMonth(year, 13)
    ensures from <= month <= 12
    ensures DaysBeforeMonth(year, month) <= days < DaysBeforeMonth(year, month + 1)
    decreases 12 - from, days
  {
    if days < DaysBeforeMonth(year, from + 1) then from else MonthOf(year, days, from + 1)
  }

  function DateOf(days: nat): (d: Date)
    requires days < MAX_DAYS
    ensures ValidDate(d) && Ordinal(d) == days
  {
    var year := YearOf(days, 1);
    var within := days - DaysBeforeYear(year);
    YearStep(year);
    var month := MonthOf(year, within, 1);
    Date(year, month, within - DaysBeforeMonth(year, month) + 1)
  }

  /* ---------- Instants ---------- */

  // A UTC wall-clock reading.
  datatype DateTime = DateTime(date: Date, hour: nat, minute: nat, second: nat, micro: nat)

  predicate Valid(t: DateTime) {
    ValidDate(t.date) && t.hour < 24 && t.minute < 60 && t.second < 60 && t.micro < 1000000
  }

  type Utc = t: DateTime | Valid(t) witness DateTime(Date(1, 1, 1), 0, 0, 0, 0)

  function Fields(t: DateTime): (fs: seq<nat>)
    ensures |fs| == 7
  {
    [t.date.year, t.date.month, t.date.day, t.hour, t.minute, t.second, t.micro]
  }

  function OfFields(fs: seq<nat>): DateTime
    requires |fs| == 7
  {
    DateTime(Date(fs[0], fs[1], fs[2]), fs[3], fs[4], fs[5], fs[6])
  }

  // Two readings in one timezone compare field by field.
  predicate Before(s: DateTime, t: DateTime) {
    LexLess(Fields(s), Fields(t))
  }

  function TimeOfDay(t: DateTime): nat {
    ((t.hour * 60 + t.minute) * 60 + t.second) * 1000000 + t.micro
  }

  // Microseconds since the beginning of year 1.
  function Micros(t: DateTime): nat
    requires Valid(t)
  {
    Ordinal(t.date) * MICROS_PER_DAY + TimeOfDay(t)
  }

  function OfDayAndTime(days: nat, rest: nat): (t: DateTime)
    requires days < MAX_DAYS && rest < MICROS_PER_DAY
    ensures Valid(t) && Micros(t) == days * MICROS_PER_DAY + rest
  {
    var s := rest / 1000000;
    assert s / 3600 == s / 60 / 60;
    DateTime(DateOf(days), s / 3600, s / 60 % 60, s % 60, rest % 1000000)
  }

  function OfMicros(n: nat): (t: DateTime)
    requires n < MAX_DAYS * MICROS_PER_DAY
    ensures Valid(t)
  {
    OfDayAndTime(n / MICROS_PER_DAY, n % MICROS_PER_DAY)
  }

  lemma {:induction false} MicrosOfMicros(n: nat)
    requires n < MAX_DAYS * MICROS_PER_DAY
    ensures Micros(OfMicros(n)) == n
  {
    hide Micros, OfDayAndTime;
    assert n == n / MICROS_PER_DAY * MICROS_PER_DAY + n % MICROS_PER_DAY;
  }

  // A timezone-aware moment: a wall-clock reading and its offset from UTC, in microseconds.
  datatype Moment = Moment(local: Utc, offset: int)

  function Instant(m: Moment): int {
    Micros(m.local) - m.offset
  }

  // Conversion to UTC overflows outside years 1 to 9999.
  function ToUtc(m: Moment): (t: Option<DateTime>)
    ensures t.Some? ==> Valid(t.value) && Micros(t.value) == Instant(m)
  {
    if 0 <= Instant(m) < MAX_DAYS * MICROS_PER_DAY then
      MicrosOfMicros(Instant(m));
      Some(OfMicros(Instant(m)))
    else None
  }

  /* ---------- Lexicographic order on field values ---------- */

  predicate LexLess(a: seq<nat>, b: seq<nat>)
    requires |a| == |b|
  {
    a != [] && (a[0] < b[0] || (a[0] == b[0] && LexLess(a[1..], b[1..])))
  }

  lemma {:induction false} LexLessThree(a: nat, b: nat, c: nat, x: nat, y: nat, z: nat)
    ensures LexLess([a, b, c], [x, y, z]) <==> a < x || (a == x && (b < y || (b == y && c < z)))
  {
    assert [a, b, c][1..] == [b, c] && [x, y, z][1..] == [y, z];
    assert [b, c][1..] == [c] && [y, z][1..] == [z];
    assert LexLess([c], [z]) <==> c < z;
    assert LexLess([b, c], [y, z]) <==> b < y || (b == y && c < z);
  }

  lemma {:induction false} LexLessConcat(a: seq<nat>, b: seq<nat>, c: seq<nat>, d: seq<nat>)
    requires |a| == |b| && |c| == |d|
    ensures LexLess(a + c, b + d) <==> LexLess(a, b) || (a == b && LexLess(c, d))
  {
    if a == [] {
      assert a + c == c && b + d == d;
    } else {
      assert (a + c)[1..] == a[1..] + c && (b + d)[1..] == b[1..] + d;
      assert a == [a[0]] + a[1..] && b == [b[0]] + b[1..];
      LexLessConcat(a[1..], b[1..], c, d);
    }
  }

  lemma {:induction false} LexLessTotal(a: seq<nat>, b: seq<nat>)
    requires |a| == |b|
    ensures a == b || LexLess(a, b) || LexLess(b, a)
  {
    if a == [] {
    } else {
      LexLessTotal(a[1..], b[1..]);
      assert a == [a[0]] + a[1..] && b == [b[0]] + b[1..];
    }
  }

  lemma {:induction false} BeforeByDateThenTime(s: DateTime, t: DateTime)
    requires Before(s, t)
    ensures
      || LexLess([s.date.year, s.date.month, s.date.day], [t.date.year, t.date.month, t.date.day])
      || (s.date == t.date && LexLess([s.hour, s.minute, s.second, s.micro], [t.hour, t.minute, t.second, t.micro]))
  {
    var a, b := [s.date.year, s.date.month, s.date.day], [t.date.year, t.date.month, t.date.day];
    var c, d := [s.hour, s.minute, s.second, s.micro], [t.hour, t.minute, t.second, t.micro];
    assert Fields(s) == a + c && Fields(t) == b + d;
    LexLessConcat(a, b, c, d);
    if a == b {
      assert a[0] == b[0] && a[1] == b[1] && a[2] == b[2];
    }
  }

  lemma {:induction false} TimeOfDayMonotone(s: DateTime, t: DateTime)
    requires Valid(s) && Valid(t)
    requires LexLess([s.hour, s.minute, s.second, s.micro], [t.hour, t.minute, t.second, t.micro])
    ensures TimeOfDay(s) < TimeOfDay(t)
  {
    var c, d := [s.hour, s.minute, s.second, s.micro], [t.hour, t.minute, t.second, t.micro];
    assert c[1..] == [s.minute, s.second, s.micro] && d[1..] == [t.minute, t.second, t.micro];
    LexLessThree(s.minute, s.second, s.micro, t.minute, t.second, t.micro);
  }

  lemma {:induction false} MicrosMonotone(s: DateTime, t: DateTime)
    requires Valid(s) && Valid(t) && Before(s, t)
    ensures Micros(s) < Micros(t)
  {
    hide Ordinal;
    BeforeByDateThenTime(s, t);
    if s.date == t.date {
      LexLessThree(s.date.year, s.date.month, s.date.day, s.date.year, s.date.month, s.date.day);
      TimeOfDayMonotone(s, t);
    } else {
      OrdinalMonotone(s.date, t.date);
    }
  }

  // Field order is the order of elapsed microseconds.
  lemma {:induction false} BeforeIsChronological(s: DateTime, t: DateTime)
    requires Valid(s) && Valid(t)
    ensures Before(s, t) <==> Micros(s) < Micros(t)
  {
    hide Micros;
    LexLessTotal(Fields(s), Fields(t));
    if Before(s, t) {
      MicrosMonotone(s, t);
    } else if Before(t, s) {
      MicrosMonotone(t, s);
    } else {
      SameFields(s, t);
    }
  }

  lemma {:induction false} SameFields(s: DateTime, t: DateTime)
    requires Fields(s) == Fields(t)
    ensures s == t
  {
    assert OfFields(Fields(s)) == OfFields(Fields(t));
  }

  /* ---------- Fixed-width text ---------- */

  function Pow10(width: nat): (p: nat)
    ensures p > 0
  {
    if width == 0 then 1 else 10 * Pow10(width - 1)
  }

  function Digit(n: nat): (c: char)
    requires n < 10
    ensures '0' <= c <= '9'
  {
    '0' + n as char
  }

  function Pad(n: nat, width: nat): (s: string)
    ensures |s| == width
  {
    if width == 0 then "" else Pad(n / 10, width - 1) + [Digit(n % 10)]
  }

  function Unpad(s: string): (n: Option<nat>) {
    if s == "" then Some(0)
    else
      var last := s[|s| - 1];
      var rest := Unpad(s[..|s| - 1]);
      if rest.Some? && '0' <= last <= '9' then Some(rest.value * 10 + (last - '0') as nat) else None
  }

  lemma {:induction false} UnpadPad(n: nat, width: nat)
    requires n < Pow10(width)
    ensures Unpad(Pad(n, width)) == Some(n)
  {
    if width > 0 {
      UnpadPad(n / 10, width - 1);
      var s := Pad(n, width);
      assert s[..|s| - 1] == Pad(n / 10, width - 1);
    }
  }

  lemma {:induction false} PadOrder(m: nat, n: nat, width: nat)
    requires m < Pow10(width) && n < Pow10(width)
    ensures Text.Less(Pad(m, width), Pad(n, width)) <==> m < n
    ensures Pad(m, width) == Pad(n, width) <==> m == n
  {
    UnpadPad(m, width);
    UnpadPad(n, width);
    if width > 0 {
      PadOrder(m / 10, n / 10, width - 1);
      Text.LessConcat(Pad(m / 10, width - 1), Pad(n / 10, width - 1), [Digit(m % 10)], [Digit(n % 10)]);
      assert m == m / 10 * 10 + m % 10 && n == n / 10 * 10 + n % 10;
    }
  }

  // Width and trailing separator of each field of `YYYY-MM-DDTHH:MM:SS.ffffff+00:00`.
  datatype Slot = Slot(width: nat, mark: string)

  const LAYOUT: seq<Slot> :=
    [Slot(4, "-"), Slot(2, "-"), Slot(2, "T"), Slot(2, ":"), Slot(2, ":"), Slot(2, "."), Slot(6, "+00:00")]

  function Render(fs: seq<nat>, layout: seq<Slot>): string
    requires |fs| == |layout|
  {
    if fs == [] then "" else Pad(fs[0], layout[0].width) + layout[0].mark + Render(fs[1..], layout[1..])
  }

  function Scan(s: string, layout: seq<Slot>): (fs: Option<seq<nat>>) {
    if layout == [] then (if s == "" then Some([]) else None)
    else
      var w, k := layout[0].width, |layout[0].mark|;
      if |s| < w + k || s[w..w + k] != layout[0].mark then None
      else
        var head := Unpad(s[..w]);
        var tail := Scan(s[w + k..], layout[1..]);
        if head.Some? && tail.Some? then Some([head.value] + tail.value) else None
  }

  ghost predicate Fits(fs: seq<nat>, layout: seq<Slot>) {
    |fs| == |layout| && forall i :: 0 <= i < |fs| ==> fs[i] < Pow10(layout[i].width)
  }

  lemma {:induction false} ScanRender(fs: seq<nat>, layout: seq<Slot>)
    requires Fits(fs, layout)
    ensures Scan(Render(fs, layout), layout) == Some(fs)
  {
    if fs == [] {
    } else {
      var w, k := layout[0].width, |layout[0].mark|;
      var s := Render(fs, layout);
      UnpadPad(fs[0], w);
      ScanRender(fs[1..], layout[1..]);
      assert s[..w] == Pad(fs[0], w);
      assert s[w..w + k] == layout[0].mark;
      assert s[w + k..] == Render(fs[1..], layout[1..]);
      assert fs == [fs[0]] + fs[1..];
    }
  }

  lemma {:induction false} RenderOrder(fs: seq<nat>, gs: seq<nat>, layout: seq<Slot>)
    requires Fits(fs, layout) && Fits(gs, layout)
    ensures Text.Less(Render(fs, layout), Render(gs, layout)) <==> LexLess(fs, gs)
  {
    if fs == [] {
    } else {
      var w, mark := layout[0].width, layout[0].mark;
      PadOrder(fs[0], gs[0], w);
      RenderOrder(fs[1..], gs[1..], layout[1..]);
      var r, t := Render(fs[1..], layout[1..]), Render(gs[1..], layout[1..]);
      Text.LessConcat(Pad(fs[0], w) + mark, Pad(gs[0], w) + mark, r, t);
      Text.LessConcat(Pad(fs[0], w), Pad(gs[0], w), mark, mark);
      Text.LessIrreflexive(mark);
      MarkedEqual(Pad(fs[0], w), Pad(gs[0], w), mark);
    }
  }

  lemma {:induction false} MarkedEqual(p: string, q: string, mark: string)
    requires |p| == |q|
    ensures p + mark == q + mark <==> p == q
  {
    assert (p + mark)[..|p|] == p && (q + mark)[..|q|] == q;
  }

  lemma {:induction false} FieldsFit(t: DateTime)
    requires Valid(t)
    ensures Fits(Fields(t), LAYOUT)
  {
    assert Pow10(2) == 100 && Pow10(4) == 10000 && Pow10(6) == 1000000 by {
      assert Pow10(3) == 1000;
      assert Pow10(5) == 100000;
    }
  }

  /* ---------- format_timestamp and parse_timestamp ---------- */

  function Format(t: Utc): string {
    Render(Fields(t), LAYOUT)
  }

  function Parse(s: string): (t: Option<Utc>) {
    var fs := Scan(s, LAYOUT);
    if fs.Some? && |fs.value| == |LAYOUT| && Valid(OfFields(fs.value)) then Some(OfFields(fs.value)) else None
  }

  lemma {:induction false} ParseFormat(t: Utc)
    ensures Parse(Format(t)) == Some(t)
  {
    FieldsFit(t);
    ScanRender(Fields(t), LAYOUT);
  }

  lemma {:induction false} FormatOrder(s: Utc, t: Utc)
    ensures Text.Less(Format(s), Format(t)) <==> Before(s, t)
  {
    FieldsFit(s);
    FieldsFit(t);
    RenderOrder(Fields(s), Fields(t), LAYOUT);
  }

  function FormatTimestamp(m: Moment): Option<string> {
    if ToUtc(m).Some? then Some(Format(ToUtc(m).value)) else None
  }

  // Text order is chronological order whatever timezones the two moments were read in, and the
  // text names the instant.
  lemma {:induction false} TimestampsOrderIsomorphic(m: Moment, n: Moment)
    requires FormatTimestamp(m).Some? && FormatTimestamp(n).Some?
    ensures Text.Less(FormatTimestamp(m).value, FormatTimestamp(n).value) <==> Instant(m) < Instant(n)
    ensures FormatTimestamp(m) == FormatTimestamp(n) <==> Instant(m) == Instant(n)
    ensures Parse(FormatTimestamp(m).value) == ToUtc(m)
  {
    hide Format, Parse, Micros, Before;
    var s, t := ToUtc(m).value, ToUtc(n).value;
    FormatOrder(s, t);
    BeforeIsChronological(s, t);
    BeforeIsChronological(t, s);
    ParseFormat(s);
    ParseFormat(t);
    MicrosInjective(s, t);
  }

  lemma {:induction false} MicrosInjective(s: DateTime, t: DateTime)
    requires Valid(s) && Valid(t)
    ensures Micros(s) == Micros(t) <==> s == t
  {
    hide Micros;
    BeforeIsChronological(s, t);
    BeforeIsChronological(t, s);
    LexLessTotal(Fields(s), Fields(t));
    if Fields(s) == Fields(t) {
      SameFields(s, t);
    }
  }
}
