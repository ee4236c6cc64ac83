// The calendar and the text behind stored timestamps, against their usual closed forms.
module Calendar {
  import opened Wrappers
  import opened Timestamps

  // Days before a month: thirty and a half on average, less a short February.
  lemma {:induction false} MonthsClosedForm(year: nat, month: nat)
    requires 1 <= month <= 12
    ensures DaysBeforeMonth(year, month) ==
      (367 * month - 362) / 12 - (if month <= 2 then 0 else if IsLeap(year) then 1 else 2)
  {
    if month == 1 {
    } else {
      MonthsClosedForm(year, month - 1);
      assert month == 2 || month == 3 || month == 4 || month == 5 || month == 6 || month == 7 || month == 8
             || month == 9 || month == 10 || month == 11 || month == 12;
    }
  }

  // A leap year has one day more.
  lemma {:induction false} YearLength(year: nat)
    requires year >= 1
    ensures DaysBeforeYear(year + 1) - DaysBeforeYear(year) ==
      if year % 400 == 0 || (year % 4 == 0 && year % 100 != 0) then 366 else 365
  {
    YearStep(year);
    MonthsClosedForm(year, 12);
    hide DaysBeforeYear;
    assert DaysBeforeMonth(year, 13) == DaysBeforeMonth(year, 12) + 31;
    assert year % 400 == 0 ==> year % 4 == 0;
  }

  // The epoch of the usual clocks, as a check on the whole count.
  lemma {:induction false} UnixEpoch()
    ensures ValidDate(Date(1970, 1, 1)) && Ordinal(Date(1970, 1, 1)) == 719162
  {
  }

  // A moment can be stored exactly when it is an instant of the years 1 to 9999.
  lemma {:induction false} StoredIff(m: Moment)
    ensures FormatTimestamp(m).Some? <==> exists t: Utc :: Micros(t) == Instant(m)
  {
    hide Format, Micros;
    if ToUtc(m).Some? {
      assert Micros(ToUtc(m).value) == Instant(m);
    }
    if t: Utc :| Micros(t) == Instant(m) {
      MicrosInRange(t);
    }
  }

  lemma {:induction false} MicrosInRange(t: Utc)
    ensures 0 <= Micros(t) < MAX_DAYS * MICROS_PER_DAY
  {
    OrdinalBounds(t.date);
    hide Ordinal;
    assert TimeOfDay(t) < MICROS_PER_DAY;
  }

  // The decimal digits of a number, most significant first.
  predicate IsDecimal(s: string, n: nat)
    decreases |s|
  {
    if s == "" then n == 0
    else '0' <= s[|s| - 1] <= '9' && (s[|s| - 1] as int - '0' as int) == n % 10 && IsDecimal(s[..|s| - 1], n / 10)
  }

  lemma {:induction false} PadIsDecimal(n: nat, width: nat)
    requires n < Pow10(width)
    ensures IsDecimal(Pad(n, width), n)
  {
    if width == 0 {
    } else {
      PadIsDecimal(n / 10, width - 1);
      assert Pad(n, width)[..width - 1] == Pad(n / 10, width - 1);
    }
  }

  // One field of a layout and what follows it.
  lemma {:induction false} RenderFirst(fs: seq<nat>, layout: seq<Slot>, k: nat)
    requires k < |fs| == |layout|
    ensures Render(fs[k..], layout[k..])
            == Pad(fs[k], layout[k].width) + layout[k].mark + Render(fs[k + 1..], layout[k + 1..])
  {
    assert fs[k..][1..] == fs[k + 1..] && layout[k..][1..] == layout[k + 1..];
  }

  // The text is `YYYY-MM-DDTHH:MM:SS.ffffff+00:00`, every field in decimal.
  lemma {:induction false} FormatIsIso(t: Utc)
    ensures
      var (y, m, d) := (Pad(t.date.year, 4), Pad(t.date.month, 2), Pad(t.date.day, 2));
      var (hour, minute, second, micro) := (Pad(t.hour, 2), Pad(t.minute, 2), Pad(t.second, 2), Pad(t.micro, 6));
      && IsDecimal(y, t.date.year) && IsDecimal(m, t.date.month) && IsDecimal(d, t.date.day)
      && IsDecimal(hour, t.hour) && IsDecimal(minute, t.minute) && IsDecimal(second, t.second)
      && IsDecimal(micro, t.micro)
      && Format(t) == (y + "-") + ((m + "-") + ((d + "T") + ((hour + ":") + ((minute + ":") + ((second + ".")
           + ((micro + "+00:00") + ""))))))
  {
    hide IsDecimal, Pad, Format;
    FieldsDecimal(t);
    FormatSpelled(t);
  }

  lemma {:induction false} FieldsDecimal(t: Utc)
    ensures IsDecimal(Pad(t.date.year, 4), t.date.year) && IsDecimal(Pad(t.date.month, 2), t.date.month)
    ensures IsDecimal(Pad(t.date.day, 2), t.date.day) && IsDecimal(Pad(t.hour, 2), t.hour)
    ensures IsDecimal(Pad(t.minute, 2), t.minute) && IsDecimal(Pad(t.second, 2), t.second)
    ensures IsDecimal(Pad(t.micro, 6), t.micro)
  {
    PowersOfTen();
    hide IsDecimal, Pad, Pow10;
    PadIsDecimal(t.date.year, 4);
    PadIsDecimal(t.date.month, 2);
    PadIsDecimal(t.date.day, 2);
    PadIsDecimal(t.hour, 2);
    PadIsDecimal(t.minute, 2);
    PadIsDecimal(t.second, 2);
    PadIsDecimal(t.micro, 6);
  }

  lemma {:induction false} PowersOfTen()
    ensures Pow10(2) == 100 && Pow10(4) == 10000 && Pow10(6) == 1000000
  {
    assert Pow10(3) == 1000;
    assert Pow10(5) == 100000;
  }

  lemma {:induction false} FormatSpelled(t: Utc)
    ensures
      Format(t) == (Pad(t.date.year, 4) + "-") + ((Pad(t.date.month, 2) + "-") + ((Pad(t.date.day, 2) + "T")
        + ((Pad(t.hour, 2) + ":") + ((Pad(t.minute, 2) + ":") + ((Pad(t.second, 2) + ".")
        + ((Pad(t.micro, 6) + "+00:00") + ""))))))
  {
    hide Pad, Render;
    var (fs, l) := (Fields(t), LAYOUT);
    assert fs[0..] == fs && l[0..] == l && fs[7..] == [] && l[7..] == [];
    RenderFirst(fs, l, 0);
    RenderFirst(fs, l, 1);
    RenderFirst(fs, l, 2);
    RenderFirst(fs, l, 3);
    RenderFirst(fs, l, 4);
    RenderFirst(fs, l, 5);
    RenderFirst(fs, l, 6);
    RenderNothing();
  }

  lemma {:induction false} RenderNothing()
    ensures Render([], []) == ""
  {
  }
}
