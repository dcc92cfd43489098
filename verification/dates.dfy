/**
  The date strings of lines 32-33. "Today" is an abstract calendar date
  (reading the clock is left out); `strftime('%Y-%m-%d')` renders it as
  `YYYY-MM-DD` and `strftime('%Y-%m-01')` as the first of its month.
 */
module Dates {
  import opened Wrappers

  /** A calendar date as Python's `datetime` holds it. */
  datatype Date = Date(year: int, month: int, day: int)

  predicate IsLeapYear(y: int)
  {
    y % 4 == 0 && (y % 100 != 0 || y % 400 == 0)
  }

  function DaysInMonth(year: int, month: int): int
  {
    if month == 2 then (if IsLeapYear(year) then 29 else 28)
    else if month == 4 || month == 6 || month == 9 || month == 11 then 30
    else 31
  }

  /** The dates `datetime` can represent (years 1 to 9999). */
  predicate ValidDate(d: Date)
  {
    1 <= d.year <= 9999 && 1 <= d.month <= 12 && 1 <= d.day <= DaysInMonth(d.year, d.month)
  }

  /** Chronological order. */
  predicate DateLe(a: Date, b: Date)
  {
    a.year < b.year || (a.year == b.year && (a.month < b.month || (a.month == b.month && a.day <= b.day)))
  }

  /** Python's `<=` on strings: lexicographic by code point. */
  predicate LexLe(a: string, b: string)
  {
    if |a| == 0 then true
    else if |b| == 0 then false
    else a[0] < b[0] || (a[0] == b[0] && LexLe(a[1..], b[1..]))
  }

  function Pow10(w: nat): nat
  {
    if w == 0 then 1 else 10 * Pow10(w - 1)
  }

  predicate IsDigit(c: char)
  {
    '0' <= c <= '9'
  }

  predicate AllDigits(s: string)
  {
    forall i :: 0 <= i < |s| ==> IsDigit(s[i])
  }

  function DigitChar(n: nat): (c: char)
    requires n < 10
    ensures IsDigit(c)
  {
    ('0' as int + n) as char
  }

  /** `n` in decimal, zero-padded to `width` digits. */
  function Pad(n: nat, width: nat): (s: string)
    requires n < Pow10(width)
    ensures |s| == width
    ensures AllDigits(s)
  {
    if width == 0 then "" else Pad(n / 10, width - 1) + [DigitChar(n % 10)]
  }

  /** The number a string of decimal digits denotes. */
  function DigitsValue(s: string): nat
    requires AllDigits(s)
  {
    if |s| == 0 then 0
    else DigitsValue(s[..|s| - 1]) * 10 + (s[|s| - 1] as int - '0' as int)
  }

  /** Reading back a padded number gives the number. */
  lemma {:induction false} PadValue(n: nat, width: nat)
    requires n < Pow10(width)
    ensures DigitsValue(Pad(n, width)) == n
    decreases width
  {
    if width > 0 {
      PadValue(n / 10, width - 1);
      var s := Pad(n, width);
      assert s[..|s| - 1] == Pad(n / 10, width - 1);
    }
  }

  /** `strftime('%Y-%m-%d')`. */
  function FormatDate(d: Date): (s: string)
    requires ValidDate(d)
    ensures |s| == 10 && s[4] == '-' && s[7] == '-'
  {
    Pad(d.year, 4) + "-" + Pad(d.month, 2) + "-" + Pad(d.day, 2)
  }

  /** Reads a `YYYY-MM-DD` string back, if it denotes a valid date. */
  function ParseDate(s: string): Option<Date>
  {
    if |s| == 10 && s[4] == '-' && s[7] == '-'
       && AllDigits(s[..4]) && AllDigits(s[5..7]) && AllDigits(s[8..])
    then
      var d := Date(DigitsValue(s[..4]), DigitsValue(s[5..7]), DigitsValue(s[8..]));
      if ValidDate(d) then Some(d) else None
    else None
  }

  /** `FormatDate` loses nothing: parsing its output gives the date back. */
  lemma ParseFormat(d: Date)
    requires ValidDate(d)
    ensures ParseDate(FormatDate(d)) == Some(d)
  {
    var s := FormatDate(d);
    assert s[..4] == Pad(d.year, 4);
    assert s[5..7] == Pad(d.month, 2);
    assert s[8..] == Pad(d.day, 2);
    PadValue(d.year, 4);
    PadValue(d.month, 2);
    PadValue(d.day, 2);
  }

  /** `start_of_month` of line 32: `today` with the day fixed to `01`. */
  function StartOfMonth(today: Date): (s: string)
    requires ValidDate(today)
    ensures s == FormatDate(Date(today.year, today.month, 1))
  {
    Pad(today.year, 4) + "-" + Pad(today.month, 2) + "-01"
  }

  /** `end_of_period` of line 33: `today` itself. */
  function EndOfPeriod(today: Date): (s: string)
    requires ValidDate(today)
    ensures ParseDate(s) == Some(today)
  {
    ParseFormat(today);
    FormatDate(today)
  }

  /** The first date `datetime` can represent. */
  const FirstDate: Date := Date(1, 1, 1)

  /** The last date whose thirtieth successor is still in year 9999. */
  const LastForecastStart: Date := Date(9999, 12, 1)

  /** The message of the `OverflowError` that `datetime` arithmetic raises outside years 1 to 9999. */
  const DateRangeMessage: string := "date value out of range"

  /**
    Whether the date arithmetic of lines 31 and 35 (`today - 1 day`,
    `today + 30 days`) stays within the dates `datetime` can represent.
   */
  predicate ShiftsInRange(today: Date)
  {
    today != FirstDate && DateLe(today, LastForecastStart)
  }

  /** `today - timedelta(days=1)` of line 31, as a calendar date; year 0 when it leaves the range. */
  function PrevDay(d: Date): (p: Date)
    requires ValidDate(d)
    ensures ValidDate(p) <==> d != FirstDate
    ensures DateLe(p, d) && p != d
    ensures p.year == d.year || p.year == d.year - 1
  {
    if d.day > 1 then Date(d.year, d.month, d.day - 1)
    else if d.month > 1 then Date(d.year, d.month - 1, DaysInMonth(d.year, d.month - 1))
    else Date(d.year - 1, 12, 31)
  }

  /** `PrevDay` is the day just before: every valid date earlier than `d` is at most `PrevDay(d)`. */
  lemma PrevDayIsLatestBefore(d: Date, q: Date)
    requires ValidDate(d) && ValidDate(q)
    requires DateLe(q, d) && q != d
    ensures DateLe(q, PrevDay(d))
  {
  }

  /** Comparing equal-length heads first, then the tails. */
  lemma {:induction false} LexLeConcat(a1: string, a2: string, b1: string, b2: string)
    requires |a1| == |b1|
    ensures LexLe(a1 + a2, b1 + b2) <==> (a1 != b1 && LexLe(a1, b1)) || (a1 == b1 && LexLe(a2, b2))
    decreases |a1|
  {
    if |a1| > 0 {
      assert (a1 + a2)[1..] == a1[1..] + a2;
      assert (b1 + b2)[1..] == b1[1..] + b2;
      LexLeConcat(a1[1..], a2, b1[1..], b2);
      if a1[0] == b1[0] {
        assert a1 == b1 <==> a1[1..] == b1[1..] by {
          assert a1 == [a1[0]] + a1[1..];
          assert b1 == [b1[0]] + b1[1..];
        }
      }
    } else {
      assert a1 + a2 == a2;
      assert b1 + b2 == b2;
    }
  }

  /** Zero padding keeps numeric order: equal-width numerals compare like their values. */
  lemma {:induction false} PadOrder(a: nat, b: nat, width: nat)
    requires a < Pow10(width) && b < Pow10(width)
    ensures LexLe(Pad(a, width), Pad(b, width)) <==> a <= b
    decreases width
  {
    if width > 0 {
      PadOrder(a / 10, b / 10, width - 1);
      PadValue(a / 10, width - 1);
      PadValue(b / 10, width - 1);
      LexLeConcat(Pad(a / 10, width - 1), [DigitChar(a % 10)], Pad(b / 10, width - 1), [DigitChar(b % 10)]);
      assert LexLe([DigitChar(a % 10)], [DigitChar(b % 10)]) <==> a % 10 <= b % 10;
    }
  }

  /** A formatted date read as year field, then the rest. */
  lemma FormatParts(d: Date)
    requires ValidDate(d)
    ensures FormatDate(d) == Pad(d.year, 4) + ("-" + (Pad(d.month, 2) + ("-" + Pad(d.day, 2))))
  {
  }

  /** Equal-width zero-padded numerals are equal exactly when the numbers are. */
  lemma PadInjective(a: nat, b: nat, width: nat)
    requires a < Pow10(width) && b < Pow10(width)
    ensures Pad(a, width) == Pad(b, width) <==> a == b
  {
    PadValue(a, width);
    PadValue(b, width);
  }

  /** Comparing two strings that start with the same separator. */
  lemma LexLeDash(x: string, y: string)
    ensures LexLe("-" + x, "-" + y) <==> LexLe(x, y)
  {
    assert ("-" + x)[1..] == x;
    assert ("-" + y)[1..] == y;
  }

  /** `YYYY-MM-DD` strings compare like the dates they denote, in both directions. */
  lemma FormatKeepsOrder(a: Date, b: Date)
    requires ValidDate(a) && ValidDate(b)
    ensures LexLe(FormatDate(a), FormatDate(b)) <==> DateLe(a, b)
  {
    var ya, yb := Pad(a.year, 4), Pad(b.year, 4);
    var ma, mb := Pad(a.month, 2), Pad(b.month, 2);
    var da, db := Pad(a.day, 2), Pad(b.day, 2);
    FormatParts(a);
    FormatParts(b);
    var ta, tb := ma + ("-" + da), mb + ("-" + db);
    assert LexLe(FormatDate(a), FormatDate(b)) <==> (ya != yb && LexLe(ya, yb)) || (ya == yb && LexLe(ta, tb)) by {
      LexLeConcat(ya, "-" + ta, yb, "-" + tb);
      LexLeDash(ta, tb);
    }
    assert LexLe(ta, tb) <==> (ma != mb && LexLe(ma, mb)) || (ma == mb && LexLe(da, db)) by {
      LexLeConcat(ma, "-" + da, mb, "-" + db);
      LexLeDash(da, db);
    }
    PadOrder(a.year, b.year, 4);
    PadOrder(a.month, b.month, 2);
    PadOrder(a.day, b.day, 2);
    PadInjective(a.year, b.year, 4);
    PadInjective(a.month, b.month, 2);
  }

  /**
    The month-to-date window of lines 32-33 is well formed: both ends share
    the `YYYY-MM-` prefix and the start does not come after the end; on the
    first day of a month the two ends coincide.
   */
  lemma MonthToDateWindow(today: Date)
    requires ValidDate(today)
    ensures StartOfMonth(today)[..8] == EndOfPeriod(today)[..8]
    ensures LexLe(StartOfMonth(today), EndOfPeriod(today))
    ensures StartOfMonth(today) == EndOfPeriod(today) <==> today.day == 1
    ensures ParseDate(StartOfMonth(today)) == Some(Date(today.year, today.month, 1))
  {
    var first := Date(today.year, today.month, 1);
    FormatKeepsOrder(first, today);
    ParseFormat(first);
    ParseFormat(today);
  }
}
