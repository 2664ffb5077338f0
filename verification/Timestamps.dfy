/** The store's timestamps are ISO-8601 UTC text, compared as text. Section 5.1 of RFC 3339 makes that
    chronological only for equal numbers of fraction digits, which `isoformat` does not give.
    This module proves that the text order is the chronological order, for stamps with
    and without the six-digit fraction. */
module Timestamps {

  /** The fields of a UTC-aware Python `datetime`. */
  datatype Stamp = Stamp(year: nat, month: nat, day: nat, hour: nat, minute: nat, second: nat, micro: nat)

  predicate Leap(year: nat) {
    year % 4 == 0 && (year % 100 != 0 || year % 400 == 0)
  }

  function DaysIn(year: nat, month: nat): nat {
    if month == 2 then (if Leap(year) then 29 else 28)
    else if month in {4, 6, 9, 11} then 30
    else 31
  }

  predicate Valid(s: Stamp) {
    && 1 <= s.year <= 9999 && 1 <= s.month <= 12 && 1 <= s.day <= DaysIn(s.year, s.month)
    && s.hour < 24 && s.minute < 60 && s.second < 60 && s.micro < 1_000_000
  }

  // ---- Chronological position ----

  function DaysBeforeYear(year: nat): int
    requires 1 <= year
  {
    365 * (year - 1) + (year - 1) / 4 - (year - 1) / 100 + (year - 1) / 400
  }

  function DaysBeforeMonth(year: nat, month: nat): nat
    requires 1 <= month <= 12
  {
    if month == 1 then 0 else DaysBeforeMonth(year, month - 1) + DaysIn(year, month - 1)
  }

  function DayNumber(s: Stamp): int
    requires Valid(s)
  {
    DaysBeforeYear(s.year) + DaysBeforeMonth(s.year, s.month) + s.day - 1
  }

  /** Microseconds since 0001-01-01T00:00:00+00:00 in the proleptic Gregorian calendar. */
  function Micros(s: Stamp): int
    requires Valid(s)
  {
    (((DayNumber(s) * 24 + s.hour) * 60 + s.minute) * 60 + s.second) * 1_000_000 + s.micro
  }

  lemma EveryFourth(year: nat)
    requires 1 <= year
    ensures year / 4 == (year - 1) / 4 + (if year % 4 == 0 then 1 else 0)
  {
  }

  lemma EveryHundredth(year: nat)
    requires 1 <= year
    ensures year / 100 == (year - 1) / 100 + (if year % 100 == 0 then 1 else 0)
  {
  }

  lemma EveryFourHundredth(year: nat)
    requires 1 <= year
    ensures year / 400 == (year - 1) / 400 + (if year % 400 == 0 then 1 else 0)
  {
  }

  lemma {:induction false} CenturiesAreFourths(year: nat)
    ensures year % 400 == 0 ==> year % 100 == 0
    ensures year % 100 == 0 ==> year % 4 == 0
  {
    if year % 400 == 0 {
      assert year == 100 * (4 * (year / 400));
    }
    if year % 100 == 0 {
      assert year == 4 * (25 * (year / 100));
    }
  }

  lemma {:induction false} YearLength(year: nat)
    requires 1 <= year
    ensures DaysBeforeYear(year + 1) == DaysBeforeYear(year) + (if Leap(year) then 366 else 365)
  {
    EveryFourth(year);
    EveryHundredth(year);
    EveryFourHundredth(year);
    CenturiesAreFourths(year);
  }

  lemma {:induction false} YearsGrow(a: nat, b: nat)
    requires 1 <= a < b
    ensures DaysBeforeYear(b) >= DaysBeforeYear(a) + (if Leap(a) then 366 else 365)
    decreases b
  {
    if b == a + 1 {
      YearLength(a);
    } else {
      YearsGrow(a, b - 1);
      YearLength(b - 1);
    }
  }

  lemma {:induction false} MonthsGrow(year: nat, a: nat, b: nat)
    requires 1 <= a < b <= 12
    ensures DaysBeforeMonth(year, b) >= DaysBeforeMonth(year, a) + DaysIn(year, a)
    decreases b
  {
    if a < b - 1 {
      MonthsGrow(year, a, b - 1);
    }
  }

  lemma DayOfYearBound(s: Stamp)
    requires Valid(s)
    ensures DaysBeforeMonth(s.year, s.month) + s.day <= (if Leap(s.year) then 366 else 365)
  {
    MonthsFillYear(s.year);
    if s.month < 12 {
      MonthsGrow(s.year, s.month, 12);
    }
  }

  lemma MonthsFillYear(y: nat)
    ensures DaysBeforeMonth(y, 12) + 31 == (if Leap(y) then 366 else 365)
  {
    assert DaysBeforeMonth(y, 3) == (if Leap(y) then 60 else 59) by {
      assert DaysBeforeMonth(y, 2) == 31;
    }
    assert DaysBeforeMonth(y, 6) == DaysBeforeMonth(y, 3) + 92 by {
      assert DaysBeforeMonth(y, 5) == DaysBeforeMonth(y, 4) + 30 == DaysBeforeMonth(y, 3) + 61;
    }
    assert DaysBeforeMonth(y, 9) == DaysBeforeMonth(y, 6) + 92 by {
      assert DaysBeforeMonth(y, 8) == DaysBeforeMonth(y, 7) + 31 == DaysBeforeMonth(y, 6) + 61;
    }
    assert DaysBeforeMonth(y, 12) == DaysBeforeMonth(y, 9) + 91 by {
      assert DaysBeforeMonth(y, 11) == DaysBeforeMonth(y, 10) + 31 == DaysBeforeMonth(y, 9) + 61;
    }
  }

  // ---- The range of dates ----

  const DAYS := 3_652_059
  const MICROS_PER_DAY := 86_400_000_000

  /** The instants a `datetime` can hold: years 1 to 9999. Arithmetic that leaves them raises. */
  predicate Representable(at: int) {
    0 <= at < DAYS * MICROS_PER_DAY
  }

  lemma {:induction false} DateOfDay(n: nat) returns (s: Stamp)
    requires n < DAYS
    ensures Valid(s) && DayNumber(s) == n && s.hour == s.minute == s.second == s.micro == 0
  {
    if n == 0 {
      s := Stamp(1, 1, 1, 0, 0, 0, 0);
    } else {
      var t := DateOfDay(n - 1);
      if t.day < DaysIn(t.year, t.month) {
        s := t.(day := t.day + 1);
      } else if t.month < 12 {
        s := t.(month := t.month + 1, day := 1);
      } else {
        YearLength(t.year);
        MonthsFillYear(t.year);
        s := Stamp(t.year + 1, 1, 1, 0, 0, 0, 0);
      }
    }
  }

  lemma SecondsSplit(seconds: nat)
    requires seconds < 86_400
    ensures seconds / 3600 < 24 && seconds == (seconds / 3600 * 60 + seconds / 60 % 60) * 60 + seconds % 60
  {
    var minutes := seconds / 60;
    assert seconds == minutes * 60 + seconds % 60;
    assert minutes == minutes / 60 * 60 + minutes % 60;
    assert seconds / 3600 == minutes / 60;
  }

  lemma DaySplit(at: int)
    requires Representable(at)
    ensures 0 <= at / MICROS_PER_DAY < DAYS && at == at / MICROS_PER_DAY * MICROS_PER_DAY + at % MICROS_PER_DAY
    ensures at % MICROS_PER_DAY / 1_000_000 < 86_400
    ensures at % MICROS_PER_DAY == at % MICROS_PER_DAY / 1_000_000 * 1_000_000 + at % MICROS_PER_DAY % 1_000_000
  {
  }

  /** Every representable instant has a date, and every date is representable. */
  lemma {:induction false} StampOf(at: int) returns (s: Stamp)
    requires Representable(at)
    ensures Valid(s) && Micros(s) == at
  {
    hide DaysBeforeYear, DaysBeforeMonth, DaysIn;
    DaySplit(at);
    var day, micros := at / MICROS_PER_DAY, at % MICROS_PER_DAY;
    var seconds, micro := micros / 1_000_000, micros % 1_000_000;
    SecondsSplit(seconds);
    var date := DateOfDay(day);
    s := date.(hour := seconds / 3600, minute := seconds / 60 % 60, second := seconds % 60, micro := micro);
    assert DayNumber(s) == day;
    assert seconds == (s.hour * 60 + s.minute) * 60 + s.second;
  }

  lemma {:induction false} DatesAreRepresentable(s: Stamp)
    requires Valid(s)
    ensures Representable(Micros(s))
  {
    DayOfYearBound(s);
    if s.year < 9999 {
      YearsGrow(s.year, 9999);
    }
    if 1 < s.year {
      YearsGrow(1, s.year);
    }
    if 1 < s.month {
      MonthsGrow(s.year, 1, s.month);
    }
    assert 0 <= DayNumber(s) < DAYS;
  }

  /** Calendar order: the most significant differing field decides. */
  predicate FieldsBefore(a: Stamp, b: Stamp) {
    if a.year != b.year then a.year < b.year
    else if a.month != b.month then a.month < b.month
    else if a.day != b.day then a.day < b.day
    else if a.hour != b.hour then a.hour < b.hour
    else if a.minute != b.minute then a.minute < b.minute
    else if a.second != b.second then a.second < b.second
    else a.micro < b.micro
  }

  lemma FieldsBeforeIsEarlier(a: Stamp, b: Stamp)
    requires Valid(a) && Valid(b) && FieldsBefore(a, b)
    ensures Micros(a) < Micros(b)
  {
    var da, db := DayNumber(a), DayNumber(b);
    if a.year < b.year {
      YearsGrow(a.year, b.year);
      DayOfYearBound(a);
      assert da < db;
    } else if a.month < b.month {
      MonthsGrow(a.year, a.month, b.month);
      assert da < db;
    }
  }

  // ---- Text ----

  function Pow10(width: nat): nat {
    if width == 0 then 1 else 10 * Pow10(width - 1)
  }

  function Digit(d: nat): char
    requires d < 10
  {
    ('0' as int + d) as char
  }

  /** `n` in decimal, zero-padded to exactly `width` digits. */
  function Digits(n: nat, width: nat): (s: string)
    requires n < Pow10(width)
    ensures |s| == width
  {
    if width == 0 then "" else Digits(n / 10, width - 1) + [Digit(n % 10)]
  }

  function DateText(s: Stamp): (text: string)
    requires Valid(s)
    ensures |text| == 19
  {
    Digits(s.year, 4) + "-" + Digits(s.month, 2) + "-" + Digits(s.day, 2) + "T"
    + Digits(s.hour, 2) + ":" + Digits(s.minute, 2) + ":" + Digits(s.second, 2)
  }

  /** What follows the seconds: `isoformat` drops a zero fraction altogether. */
  function Tail(micro: nat): string
    requires micro < 1_000_000
  {
    (if micro == 0 then "" else "." + Digits(micro, 6)) + "+00:00"
  }

  /** `datetime.isoformat()` of a UTC-aware datetime. */
  function IsoFormat(s: Stamp): string
    requires Valid(s)
  {
    DateText(s) + Tail(s.micro)
  }

  /** Code-point order on text. */
  predicate TextBefore(a: string, b: string) {
    |b| > 0 && (|a| == 0 || a[0] < b[0] || (a[0] == b[0] && TextBefore(a[1..], b[1..])))
  }

  predicate TextAtMost(a: string, b: string) {
    a == b || TextBefore(a, b)
  }

  lemma {:induction false} EqualLengthPrefix(x: string, y: string, u: string, v: string)
    requires |x| == |y|
    ensures TextBefore(x + u, y + v) <==> TextBefore(x, y) || (x == y && TextBefore(u, v))
  {
    if x == "" {
      assert x + u == u && y + v == v;
    } else {
      assert (x + u)[1..] == x[1..] + u && (y + v)[1..] == y[1..] + v;
      EqualLengthPrefix(x[1..], y[1..], u, v);
    }
  }

  lemma {:induction false} DigitsOrder(m: nat, n: nat, width: nat)
    requires m < Pow10(width) && n < Pow10(width)
    ensures Digits(m, width) == Digits(n, width) <==> m == n
    ensures TextBefore(Digits(m, width), Digits(n, width)) <==> m < n
  {
    if width > 0 {
      var p, q := Digits(m / 10, width - 1), Digits(n / 10, width - 1);
      var c, d := [Digit(m % 10)], [Digit(n % 10)];
      DigitsOrder(m / 10, n / 10, width - 1);
      EqualLengthPrefix(p, q, c, d);
      assert (p + c)[..width - 1] == p && (q + d)[..width - 1] == q;
      assert (p + c)[width - 1] == c[0] && (q + d)[width - 1] == d[0];
      assert TextBefore(c, d) <==> m % 10 < n % 10;
    }
  }

  /** One zero-padded field followed by the rest of the text. */
  lemma FieldFirst(m: nat, n: nat, width: nat, u: string, v: string)
    requires m < Pow10(width) && n < Pow10(width)
    ensures TextBefore(Digits(m, width) + u, Digits(n, width) + v)
       <==> m < n || (m == n && TextBefore(u, v))
  {
    DigitsOrder(m, n, width);
    EqualLengthPrefix(Digits(m, width), Digits(n, width), u, v);
  }

  lemma SeparatorSkipped(c: char, u: string, v: string)
    ensures TextBefore([c] + u, [c] + v) <==> TextBefore(u, v)
  {
    assert ([c] + u)[1..] == u && ([c] + v)[1..] == v;
  }

  lemma TailOrder(m: nat, n: nat)
    requires m < 1_000_000 && n < 1_000_000
    ensures TextBefore(Tail(m), Tail(n)) <==> m < n
  {
    assert Pow10(6) == 1_000_000;
    if m > 0 && n > 0 {
      assert Tail(m) == ['.'] + (Digits(m, 6) + "+00:00");
      assert Tail(n) == ['.'] + (Digits(n, 6) + "+00:00");
      SeparatorSkipped('.', Digits(m, 6) + "+00:00", Digits(n, 6) + "+00:00");
      FieldFirst(m, n, 6, "+00:00", "+00:00");
      Irreflexive("+00:00");
    } else if m == 0 && n == 0 {
      Irreflexive(Tail(0));
    } else {
      // '+' sorts before '.', which is why a dropped fraction is still in order.
      assert Tail(if m == 0 then m else n)[0] == '+';
      assert Tail(if m == 0 then n else m)[0] == '.';
    }
  }

  lemma {:induction false} Irreflexive(a: string)
    ensures !TextBefore(a, a)
  {
    if a != "" {
      Irreflexive(a[1..]);
    }
  }

  /** The text from the hour on. */
  function ClockText(s: Stamp): string
    requires Valid(s)
  {
    Digits(s.hour, 2) + (":" + (Digits(s.minute, 2) + (":" + (Digits(s.second, 2) + Tail(s.micro)))))
  }

  lemma ClockOrder(a: Stamp, b: Stamp)
    requires Valid(a) && Valid(b)
    ensures TextBefore(ClockText(a), ClockText(b)) <==>
            (a.hour < b.hour || (a.hour == b.hour && (a.minute < b.minute || (a.minute == b.minute &&
             (a.second < b.second || (a.second == b.second && a.micro < b.micro))))))
  {
    var sa, sb := Digits(a.second, 2) + Tail(a.micro), Digits(b.second, 2) + Tail(b.micro);
    TailOrder(a.micro, b.micro);
    FieldFirst(a.second, b.second, 2, Tail(a.micro), Tail(b.micro));
    SeparatorSkipped(':', sa, sb);
    FieldFirst(a.minute, b.minute, 2, ":" + sa, ":" + sb);
    var ma, mb := Digits(a.minute, 2) + (":" + sa), Digits(b.minute, 2) + (":" + sb);
    SeparatorSkipped(':', ma, mb);
    FieldFirst(a.hour, b.hour, 2, ":" + ma, ":" + mb);
  }

  lemma IsoFormatSplits(s: Stamp)
    requires Valid(s)
    ensures Pow10(4) == 10000
    ensures IsoFormat(s)
         == Digits(s.year, 4) + ("-" + (Digits(s.month, 2) + ("-" + (Digits(s.day, 2) + ("T" + ClockText(s))))))
  {
  }

  lemma {:induction false} TextOrderIsFieldOrder(a: Stamp, b: Stamp)
    requires Valid(a) && Valid(b)
    ensures TextBefore(IsoFormat(a), IsoFormat(b)) <==> FieldsBefore(a, b)
  {
    IsoFormatSplits(a);
    IsoFormatSplits(b);
    ClockOrder(a, b);
    var ca, cb := ClockText(a), ClockText(b);
    SeparatorSkipped('T', ca, cb);
    FieldFirst(a.day, b.day, 2, "T" + ca, "T" + cb);
    var da, db := Digits(a.day, 2) + ("T" + ca), Digits(b.day, 2) + ("T" + cb);
    SeparatorSkipped('-', da, db);
    FieldFirst(a.month, b.month, 2, "-" + da, "-" + db);
    var ma, mb := Digits(a.month, 2) + ("-" + da), Digits(b.month, 2) + ("-" + db);
    SeparatorSkipped('-', ma, mb);
    FieldFirst(a.year, b.year, 4, "-" + ma, "-" + mb);
  }

  /** Comparing two stored timestamps as text is comparing the instants they name. */
  lemma {:induction false} TextOrderIsChronological(a: Stamp, b: Stamp)
    requires Valid(a) && Valid(b)
    ensures TextBefore(IsoFormat(a), IsoFormat(b)) <==> Micros(a) < Micros(b)
    ensures IsoFormat(a) == IsoFormat(b) <==> Micros(a) == Micros(b)
    ensures TextAtMost(IsoFormat(a), IsoFormat(b)) <==> Micros(a) <= Micros(b)
  {
    TextOrderIsFieldOrder(a, b);
    TextOrderIsFieldOrder(b, a);
    Irreflexive(IsoFormat(a));
    if FieldsBefore(a, b) {
      FieldsBeforeIsEarlier(a, b);
    } else if FieldsBefore(b, a) {
      FieldsBeforeIsEarlier(b, a);
    } else {
      assert a == b;
    }
  }
}
