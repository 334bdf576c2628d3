/**
 Times are stored as the text of `datetime.isoformat()` in UTC and compared as text
 (radar_v08/store.py, pending_forward_returns): the text omits the microseconds when
 they are zero, so instants differ in length as well as in digits.
 */
module IsoText {
  // --- text order ------------------------------------------------------------------------

  // SQLite's BINARY collation, on plain ASCII text.
  predicate Less(a: string, b: string) {
    if b == "" then false
    else if a == "" then true
    else if a[0] != b[0] then a[0] < b[0]
    else Less(a[1..], b[1..])
  }

  // Heads of one length decide, unless they are equal.
  lemma {:induction false} LessByHead(a: string, b: string, x: string, y: string)
    requires |a| == |b|
    ensures Less(a + x, b + y) <==> if a == b then Less(x, y) else Less(a, b)
  {
    if a == "" {
      assert a + x == x && b + y == y;
    } else {
      assert (a + x)[1..] == a[1..] + x && (b + y)[1..] == b[1..] + y;
      LessByHead(a[1..], b[1..], x, y);
      assert a == [a[0]] + a[1..] && b == [b[0]] + b[1..];
    }
  }

  // --- digits ----------------------------------------------------------------------------------

  function Pow10(k: nat): nat { if k == 0 then 1 else 10 * Pow10(k - 1) }

  function Digit(n: nat): char
    requires n < 10
  {
    '0' + n as char
  }

  // Zero-padded to k digits.
  function Pad(n: nat, k: nat): (s: string)
    ensures |s| == k
  {
    if k == 0 then "" else Pad(n / 10, k - 1) + [Digit(n % 10)]
  }

  lemma {:induction false} PadOrder(m: nat, n: nat, k: nat)
    requires m < Pow10(k) && n < Pow10(k)
    ensures (Pad(m, k) == Pad(n, k) <==> m == n) && (Less(Pad(m, k), Pad(n, k)) <==> m < n)
  {
    if k > 0 {
      PadOrder(m / 10, n / 10, k - 1);
      var a, b := Pad(m / 10, k - 1), Pad(n / 10, k - 1);
      LessByHead(a, b, [Digit(m % 10)], [Digit(n % 10)]);
      assert Pad(m, k)[..k - 1] == a && Pad(n, k)[..k - 1] == b;
      assert Pad(m, k)[k - 1] == Digit(m % 10) && Pad(n, k)[k - 1] == Digit(n % 10);
    }
  }

  // A padded number decides before what follows it.
  lemma FieldOrder(m: nat, n: nat, k: nat, x: string, y: string)
    requires m < Pow10(k) && n < Pow10(k)
    ensures Less(Pad(m, k) + x, Pad(n, k) + y) <==> if m == n then Less(x, y) else m < n
  {
    PadOrder(m, n, k);
    LessByHead(Pad(m, k), Pad(n, k), x, y);
  }

  lemma SeparatorOrder(c: char, x: string, y: string)
    ensures Less([c] + x, [c] + y) <==> Less(x, y)
  {
    LessByHead([c], [c], x, y);
  }

  // --- civil time ----------------------------------------------------------------------------------

  // A UTC datetime.
  datatype Civil = Civil(year: nat, month: nat, day: nat, hour: nat, minute: nat, second: nat, micro: nat)

  predicate Leap(y: nat) { y % 4 == 0 && (y % 100 != 0 || y % 400 == 0) }

  function DaysInMonth(y: nat, m: nat): nat
    requires 1 <= m <= 12
  {
    if m == 2 then if Leap(y) then 29 else 28
    else if m == 4 || m == 6 || m == 9 || m == 11 then 30
    else 31
  }

  predicate Valid(c: Civil) {
    && 1 <= c.year <= 9999 && 1 <= c.month <= 12 && 1 <= c.day <= DaysInMonth(c.year, c.month)
    && c.hour < 24 && c.minute < 60 && c.second < 60 && c.micro < 1_000_000
  }

  // datetime.isoformat() of an aware UTC datetime.
  function Text(c: Civil): string { Pad(c.year, 4) + ("-" + (Pad(c.month, 2) + ("-" + (Pad(c.day, 2) + ("T" + TimeText(c)))))) }

  function TimeText(c: Civil): string {
    Pad(c.hour, 2) + (":" + (Pad(c.minute, 2) + (":" + (Pad(c.second, 2) + MicroText(c.micro)))))
  }

  function MicroText(micro: nat): string { if micro == 0 then "+00:00" else "." + (Pad(micro, 6) + "+00:00") }

  // --- text order is field order -----------------------------------------------------------------------

  predicate TimeBefore(c: Civil, d: Civil) {
    if c.hour != d.hour then c.hour < d.hour
    else if c.minute != d.minute then c.minute < d.minute
    else if c.second != d.second then c.second < d.second
    else c.micro < d.micro
  }

  predicate Before(c: Civil, d: Civil) {
    if c.year != d.year then c.year < d.year
    else if c.month != d.month then c.month < d.month
    else if c.day != d.day then c.day < d.day
    else TimeBefore(c, d)
  }

  // A '+' sorts before a '.', and the common zone after the digits does not matter.
  lemma MicroOrder(m: nat, n: nat)
    requires m < 1_000_000 && n < 1_000_000
    ensures Less(MicroText(m), MicroText(n)) <==> m < n
  {
    assert Pow10(6) == 1_000_000;
    if m != 0 && n != 0 {
      SeparatorOrder('.', Pad(m, 6) + "+00:00", Pad(n, 6) + "+00:00");
      FieldOrder(m, n, 6, "+00:00", "+00:00");
      Irreflexive("+00:00");
    } else if m == n {
      Irreflexive("+00:00");
    }
  }

  lemma {:induction false} Irreflexive(a: string)
    ensures !Less(a, a)
  {
    if a != "" {
      Irreflexive(a[1..]);
    }
  }

  lemma TimeTextOrder(c: Civil, d: Civil)
    requires Valid(c) && Valid(d)
    ensures Less(TimeText(c), TimeText(d)) <==> TimeBefore(c, d)
  {
    hide Less, Pad, MicroText;
    assert Pow10(2) == 100;
    var s, t := Pad(c.second, 2) + MicroText(c.micro), Pad(d.second, 2) + MicroText(d.micro);
    MicroOrder(c.micro, d.micro);
    FieldOrder(c.second, d.second, 2, MicroText(c.micro), MicroText(d.micro));
    SeparatorOrder(':', s, t);
    FieldOrder(c.minute, d.minute, 2, ":" + s, ":" + t);
    SeparatorOrder(':', Pad(c.minute, 2) + (":" + s), Pad(d.minute, 2) + (":" + t));
    FieldOrder(c.hour, d.hour, 2, ":" + (Pad(c.minute, 2) + (":" + s)), ":" + (Pad(d.minute, 2) + (":" + t)));
  }

  lemma TextOrder(c: Civil, d: Civil)
    requires Valid(c) && Valid(d)
    ensures Less(Text(c), Text(d)) <==> Before(c, d)
  {
    hide Less, Pad, TimeText, TimeBefore;
    assert Pow10(2) == 100 && Pow10(4) == 10_000;
    var s, t := "T" + TimeText(c), "T" + TimeText(d);
    TimeTextOrder(c, d);
    SeparatorOrder('T', TimeText(c), TimeText(d));
    FieldOrder(c.day, d.day, 2, s, t);
    SeparatorOrder('-', Pad(c.day, 2) + s, Pad(d.day, 2) + t);
    FieldOrder(c.month, d.month, 2, "-" + (Pad(c.day, 2) + s), "-" + (Pad(d.day, 2) + t));
    SeparatorOrder('-', Pad(c.month, 2) + ("-" + (Pad(c.day, 2) + s)), Pad(d.month, 2) + ("-" + (Pad(d.day, 2) + t)));
    FieldOrder(c.year, d.year, 4, "-" + (Pad(c.month, 2) + ("-" + (Pad(c.day, 2) + s))),
               "-" + (Pad(d.month, 2) + ("-" + (Pad(d.day, 2) + t))));
  }

  // --- field order is time order ------------------------------------------------------------------------

  // Days of the proleptic Gregorian calendar before a year, from year 1.
  function DaysBeforeYear(y: nat): nat
    requires y >= 1
  {
    (y - 1) * 365 + (y - 1) / 4 - (y - 1) / 100 + (y - 1) / 400
  }

  function DaysBeforeMonth(y: nat, m: nat): nat
    requires 1 <= m <= 12
  {
    if m == 1 then 0 else DaysBeforeMonth(y, m - 1) + DaysInMonth(y, m - 1)
  }

  function DayNumber(c: Civil): nat
    requires Valid(c)
  {
    DaysBeforeYear(c.year) + DaysBeforeMonth(c.year, c.month) + c.day - 1
  }

  function TimeOfDay(c: Civil): nat { ((c.hour * 60 + c.minute) * 60 + c.second) * 1_000_000 + c.micro }

  // Microseconds since the start of year 1.
  function Micros(c: Civil): nat
    requires Valid(c)
  {
    DayNumber(c) * 86_400_000_000 + TimeOfDay(c)
  }

  lemma Fours(y: nat)
    requires y >= 1
    ensures y / 4 - (y - 1) / 4 == if y % 4 == 0 then 1 else 0
  {
  }

  lemma Centuries(y: nat)
    requires y >= 1
    ensures y / 100 - (y - 1) / 100 == if y % 100 == 0 then 1 else 0
    ensures y % 100 == 0 ==> y % 4 == 0
  {
    assert y == 100 * (y / 100) + y % 100;
  }

  lemma Cycles(y: nat)
    requires y >= 1
    ensures y / 400 - (y - 1) / 400 == if y % 400 == 0 then 1 else 0
    ensures y % 400 == 0 ==> y % 100 == 0
  {
    assert y == 400 * (y / 400) + y % 400;
  }

  lemma NextYear(y: nat)
    requires y >= 1
    ensures DaysBeforeYear(y + 1) == DaysBeforeYear(y) + if Leap(y) then 366 else 365
  {
    Fours(y);
    Centuries(y);
    Cycles(y);
  }

  lemma {:induction false} YearsOrdered(a: nat, b: nat)
    requires 1 <= a < b
    ensures DaysBeforeYear(a) + (if Leap(a) then 366 else 365) <= DaysBeforeYear(b)
    decreases b
  {
    hide DaysBeforeYear;
    NextYear(b - 1);
    if a < b - 1 {
      YearsOrdered(a, b - 1);
    }
  }

  lemma {:induction false} MonthsOrdered(y: nat, a: nat, b: nat)
    requires 1 <= a < b <= 12
    ensures DaysBeforeMonth(y, a) + DaysInMonth(y, a) <= DaysBeforeMonth(y, b)
    decreases b
  {
    if a < b - 1 {
      MonthsOrdered(y, a, b - 1);
    }
  }

  lemma YearLength(y: nat)
    ensures DaysBeforeMonth(y, 12) + DaysInMonth(y, 12) == if Leap(y) then 366 else 365
  {
    hide Leap;
    var extra := if Leap(y) then 1 else 0;
    assert DaysBeforeMonth(y, 2) == 31;
    assert DaysBeforeMonth(y, 3) == 59 + extra;
    assert DaysBeforeMonth(y, 5) == 120 + extra;
    assert DaysBeforeMonth(y, 7) == 181 + extra;
    assert DaysBeforeMonth(y, 9) == 243 + extra;
    assert DaysBeforeMonth(y, 11) == 304 + extra;
  }

  lemma WithinYear(c: Civil)
    requires Valid(c)
    ensures DaysBeforeMonth(c.year, c.month) + c.day <= if Leap(c.year) then 366 else 365
  {
    hide Leap, DaysBeforeMonth, DaysInMonth;
    YearLength(c.year);
    if c.month < 12 {
      MonthsOrdered(c.year, c.month, 12);
    }
  }

  lemma DaysOrdered(c: Civil, d: Civil)
    requires Valid(c) && Valid(d)
    requires c.year < d.year || (c.year == d.year && (c.month < d.month || (c.month == d.month && c.day < d.day)))
    ensures DayNumber(c) < DayNumber(d)
  {
    hide Leap, DaysBeforeMonth, DaysInMonth, DaysBeforeYear;
    if c.year < d.year {
      YearsOrdered(c.year, d.year);
      WithinYear(c);
    } else if c.month < d.month {
      MonthsOrdered(c.year, c.month, d.month);
    }
  }

  lemma TimesOrdered(c: Civil, d: Civil)
    requires Valid(c) && Valid(d)
    ensures TimeOfDay(c) < 86_400_000_000 && (TimeBefore(c, d) <==> TimeOfDay(c) < TimeOfDay(d))
  {
  }

  lemma BeforeIsEarlier(c: Civil, d: Civil)
    requires Valid(c) && Valid(d) && Before(c, d)
    ensures Micros(c) < Micros(d)
  {
    hide DayNumber, TimeOfDay, DaysInMonth, TimeBefore;
    TimesOrdered(c, d);
    TimesOrdered(d, c);
    if c.year == d.year && c.month == d.month && c.day == d.day {
      assert DayNumber(c) == DayNumber(d) by {
        SameDay(c, d);
      }
    } else {
      DaysOrdered(c, d);
    }
  }

  lemma SameDay(c: Civil, d: Civil)
    requires Valid(c) && Valid(d) && c.year == d.year && c.month == d.month && c.day == d.day
    ensures DayNumber(c) == DayNumber(d)
  {
  }

  /** Text order is time order: for all UTC datetimes, with or without microseconds. */
  lemma TextSortsByTime(c: Civil, d: Civil)
    requires Valid(c) && Valid(d)
    ensures Less(Text(c), Text(d)) <==> Micros(c) < Micros(d)
  {
    hide Less, Text, Micros;
    TextOrder(c, d);
    if Before(c, d) {
      BeforeIsEarlier(c, d);
    } else if c != d {
      BeforeIsEarlier(d, c);
    }
  }

  /** Two datetimes have one text only if they are the same instant. */
  lemma TextIsInjective(c: Civil, d: Civil)
    requires Valid(c) && Valid(d) && Text(c) == Text(d)
    ensures c == d
  {
    hide Less, Text, Micros;
    Irreflexive(Text(c));
    TextOrder(c, d);
    TextOrder(d, c);
  }

  /**
   The per-horizon test `ts <= (now - horizon).isoformat()` selects exactly the rows
   whose horizon has passed, to the microsecond.
   */
  lemma DueIffHorizonPassed(ts: Civil, now: Civil, cutoff: Civil, minutes: int)
    requires Valid(ts) && Valid(now) && Valid(cutoff) && Micros(cutoff) == Micros(now) - minutes * 60_000_000
    ensures !Less(Text(cutoff), Text(ts)) <==> Micros(ts) + minutes * 60_000_000 <= Micros(now)
  {
    hide Less, Text, Micros;
    TextSortsByTime(cutoff, ts);
  }
}
