/**
 Instants, the Gregorian calendar and the 15-digit time stamp.

 An instant is a number of nanoseconds since the start of year 0, in UTC. The stamp is the
 concatenation of fixed-width fields. Its order, read as a string, is the order of the tenths of a
 second since the start of year 0, up to the end of year 9999.

 The proof goes from the outside in. Two instants in different tenths of a second differ in some field;
 in the first field in which they differ, the later instant has the larger number (the year and month
 from the day count, the clock fields from the time of day). Numbers written with the same number of
 digits are ordered like the strings, and the first different field decides the order of the stamps.
 */
module Calendar {
  import opened Text

  const NANOS_PER_TENTH: nat := 100000000

  function Tenth(t: nat): nat {
    t / NANOS_PER_TENTH
  }

  // ---------------------------------------------------------------- days

  predicate IsLeap(y: nat) {
    y % 4 == 0 && (y % 100 != 0 || y % 400 == 0)
  }

  function YearDays(y: nat): nat {
    if IsLeap(y) then 366 else 365
  }

  function MonthDays(y: nat, m: nat): nat {
    if m == 2 then (if IsLeap(y) then 29 else 28)
    else if m == 4 || m == 6 || m == 9 || m == 11 then 30
    else 31
  }

  /** The year and the day within it, counting from day 0 of year y. */
  function YearAndDay(day: nat, y: nat): (nat, nat)
    decreases day
  {
    if day < YearDays(y) then (y, day) else YearAndDay(day - YearDays(y), y + 1)
  }

  /** The month and the day of the month, counting from day 0 of month m. */
  function MonthAndDay(day: nat, y: nat, m: nat): (nat, nat)
    decreases day
  {
    if day < MonthDays(y, m) || m >= 12 then (m, day + 1) else MonthAndDay(day - MonthDays(y, m), y, m + 1)
  }

  function DaysFrom(y: nat, m: nat): nat
    decreases 13 - m
  {
    if m > 12 then 0 else MonthDays(y, m) + DaysFrom(y, m + 1)
  }

  /** The months of a year have the year's days. */
  lemma MonthsFillYear(y: nat)
    ensures DaysFrom(y, 1) == YearDays(y)
  {
    assert DaysFrom(y, 7) == 184 by {
      assert DaysFrom(y, 10) == 92;
      assert DaysFrom(y, 8) == 153;
    }
    assert DaysFrom(y, 4) == 275 by { assert DaysFrom(y, 5) == 245; }
    assert DaysFrom(y, 2) == 275 + 31 + MonthDays(y, 2);
  }

  lemma {:induction false} YearBounds(day: nat, y: nat)
    ensures var (y', d) := YearAndDay(day, y); y <= y' && d < YearDays(y')
    decreases day
  {
    if day >= YearDays(y) { YearBounds(day - YearDays(y), y + 1); }
  }

  lemma {:induction false} YearMonotone(a: nat, b: nat, y: nat)
    requires a < b
    ensures var (ya, da) := YearAndDay(a, y); var (yb, db) := YearAndDay(b, y);
            ya < yb || (ya == yb && da < db)
    decreases a
  {
    if a >= YearDays(y) {
      YearMonotone(a - YearDays(y), b - YearDays(y), y + 1);
    } else if b >= YearDays(y) {
      YearBounds(b - YearDays(y), y + 1);
    }
  }

  lemma {:induction false} MonthBounds(day: nat, y: nat, m: nat)
    requires 1 <= m <= 12 && day < DaysFrom(y, m)
    ensures var (m', d) := MonthAndDay(day, y, m); m <= m' <= 12 && 1 <= d <= MonthDays(y, m')
    decreases day
  {
    if !(day < MonthDays(y, m) || m >= 12) {
      MonthBounds(day - MonthDays(y, m), y, m + 1);
    } else if m == 12 {
      assert DaysFrom(y, 13) == 0;
    }
  }

  lemma {:induction false} MonthMonotone(a: nat, b: nat, y: nat, m: nat)
    requires a < b && 1 <= m <= 12 && b < DaysFrom(y, m)
    ensures var (ma, da) := MonthAndDay(a, y, m); var (mb, db) := MonthAndDay(b, y, m);
            ma < mb || (ma == mb && da < db)
    decreases a
  {
    if m == 12 {
    } else if a >= MonthDays(y, m) {
      MonthMonotone(a - MonthDays(y, m), b - MonthDays(y, m), y, m + 1);
    } else if b >= MonthDays(y, m) {
      MonthBounds(b - MonthDays(y, m), y, m + 1);
    }
  }

  // ---------------------------------------------------------------- the fields of a stamp

  function Year(t: nat): nat {
    YearAndDay(Tenth(t) / 864000, 0).0
  }

  function Month(t: nat): nat {
    var (y, d) := YearAndDay(Tenth(t) / 864000, 0);
    MonthAndDay(d, y, 1).0
  }

  function Day(t: nat): nat {
    var (y, d) := YearAndDay(Tenth(t) / 864000, 0);
    MonthAndDay(d, y, 1).1
  }

  function Hour(t: nat): nat { Tenth(t) % 864000 / 36000 }

  function Minute(t: nat): nat { Tenth(t) % 36000 / 600 }

  function Second(t: nat): nat { Tenth(t) % 600 / 10 }

  function TenthOfSecond(t: nat): nat { Tenth(t) % 10 }

  function Fields(t: nat): (fs: seq<nat>)
    ensures |fs| == 7
  {
    [Year(t), Month(t), Day(t), Hour(t), Minute(t), Second(t), TenthOfSecond(t)]
  }

  /** The minimal width of the i-th field. */
  function Width(i: nat): nat {
    if i == 0 then 4 else if i == 6 then 1 else 2
  }

  lemma FieldBounds(t: nat)
    ensures 1 <= Month(t) <= 12 && 1 <= Day(t) <= 31
    ensures Hour(t) < 24 && Minute(t) < 60 && Second(t) < 60 && TenthOfSecond(t) < 10
  {
    var (y, d) := YearAndDay(Tenth(t) / 864000, 0);
    YearBounds(Tenth(t) / 864000, 0);
    MonthsFillYear(y);
    MonthBounds(d, y, 1);
  }

  /** fs and gs agree before position k, and fs is smaller there. */
  predicate SmallerAt(fs: seq<nat>, gs: seq<nat>, k: nat) {
    k < |fs| && k < |gs| && fs[..k] == gs[..k] && fs[k] < gs[k]
  }

  lemma DateSmaller(a: nat, b: nat) returns (k: nat)
    requires Tenth(a) / 864000 < Tenth(b) / 864000
    ensures k < 3 && SmallerAt(Fields(a), Fields(b), k)
  {
    var da, db := Tenth(a) / 864000, Tenth(b) / 864000;
    YearMonotone(da, db, 0);
    YearBounds(da, 0);
    YearBounds(db, 0);
    MonthsFillYear(Year(a));
    MonthsFillYear(Year(b));
    if Year(a) == Year(b) {
      MonthMonotone(YearAndDay(da, 0).1, YearAndDay(db, 0).1, Year(a), 1);
      k := if Month(a) < Month(b) then 1 else 2;
    } else {
      k := 0;
    }
  }

  lemma Nested(k: nat)
    ensures k % 864000 == k % 864000 / 36000 * 36000 + k % 36000
    ensures k % 36000 == k % 36000 / 600 * 600 + k % 600
    ensures k % 600 == k % 600 / 10 * 10 + k % 10
  {
    var q, r := k / 864000, k % 864000;
    assert k == 36000 * (24 * q + r / 36000) + r % 36000;
    HourRest(24 * q + r / 36000, r % 36000);
    var p, u := k / 36000, k % 36000;
    assert k == 600 * (60 * p + u / 600) + u % 600;
    MinuteRest(60 * p + u / 600, u % 600);
    var n, v := k / 600, k % 600;
    assert k == 10 * (60 * n + v / 10) + v % 10;
    SecondRest(60 * n + v / 10, v % 10);
  }

  lemma HourRest(q: nat, r: nat)
    requires r < 36000
    ensures (36000 * q + r) % 36000 == r
  {
  }

  lemma MinuteRest(q: nat, r: nat)
    requires r < 600
    ensures (600 * q + r) % 600 == r
  {
  }

  lemma SecondRest(q: nat, r: nat)
    requires r < 10
    ensures (10 * q + r) % 10 == r
  {
  }

  lemma ClockSmaller(a: nat, b: nat) returns (k: nat)
    requires Tenth(a) / 864000 == Tenth(b) / 864000 && Tenth(a) < Tenth(b)
    ensures SmallerAt(Fields(a), Fields(b), k)
  {
    Nested(Tenth(a));
    Nested(Tenth(b));
    k := if Hour(a) != Hour(b) then 3
         else if Minute(a) != Minute(b) then 4
         else if Second(a) != Second(b) then 5 else 6;
  }

  // ---------------------------------------------------------------- digits

  function Power10(w: nat): (p: nat)
    ensures p >= 1
  {
    if w == 0 then 1 else 10 * Power10(w - 1)
  }

  function Digit(d: nat): char
    requires d < 10
  {
    '0' + d as char
  }

  /** n with exactly w digits. */
  function Digits(w: nat, n: nat): (s: string)
    ensures |s| == w
  {
    if w == 0 then "" else Digits(w - 1, n / 10) + [Digit(n % 10)]
  }

  /** n with at least w digits, as the format %0wd prints it. */
  function Padded(w: nat, n: nat): string
    decreases n
  {
    if n < Power10(w) then Digits(w, n) else Padded(if w == 0 then 0 else w - 1, n / 10) + [Digit(n % 10)]
  }

  /** The fields from the i-th on, one after the other. */
  function Render(fs: seq<nat>, i: nat): string
    decreases |fs|
  {
    if fs == [] then "" else Padded(Width(i), fs[0]) + Render(fs[1..], i + 1)
  }

  /** The stamp: YYYYMMDDHHMMSSL. */
  function Format(t: nat): string {
    Render(Fields(t), 0)
  }

  predicate LexLess(a: string, b: string) {
    LexLeq(a, b) && a != b
  }

  /** The first of two equally long strings decides, else what follows. */
  lemma {:induction false} LexConcat(a: string, b: string, u: string, v: string)
    requires |a| == |b| && (LexLess(a, b) || (a == b && LexLess(u, v)))
    ensures LexLess(a + u, b + v)
    decreases |a|
  {
    if a == "" {
      assert a + u == u && b + v == v;
    } else {
      assert (a + u)[1..] == a[1..] + u && (b + v)[1..] == b[1..] + v;
      assert (a + u)[0] == a[0] && (b + v)[0] == b[0];
      if a[0] == b[0] {
        assert a == [a[0]] + a[1..] && b == [b[0]] + b[1..];
        LexConcat(a[1..], b[1..], u, v);
      }
    }
  }

  /** Among numbers of equal width the order of the digits is the order of the numbers. */
  lemma {:induction false} DigitsOrdered(w: nat, a: nat, b: nat)
    requires a < b < Power10(w)
    ensures LexLess(Digits(w, a), Digits(w, b))
    decreases w
  {
    assert w > 0;
    if a / 10 < b / 10 {
      DigitsOrdered(w - 1, a / 10, b / 10);
    }
    LexConcat(Digits(w - 1, a / 10), Digits(w - 1, b / 10), [Digit(a % 10)], [Digit(b % 10)]);
  }

  ghost predicate Fits(fs: seq<nat>, i: nat) {
    forall j | 0 <= j < |fs| :: fs[j] < Power10(Width(i + j))
  }

  function TotalWidth(i: nat, n: nat): nat
    decreases n
  {
    if n == 0 then 0 else Width(i) + TotalWidth(i + 1, n - 1)
  }

  lemma {:induction false} RenderLength(fs: seq<nat>, i: nat)
    requires Fits(fs, i)
    ensures |Render(fs, i)| == TotalWidth(i, |fs|)
    decreases |fs|
  {
    if fs != [] {
      assert fs[0] < Power10(Width(i + 0));
      assert forall j | 0 <= j < |fs[1..]| :: fs[1..][j] == fs[j + 1] && i + 1 + j == i + (j + 1);
      RenderLength(fs[1..], i + 1);
    }
  }

  lemma {:induction false} RenderOrdered(fs: seq<nat>, gs: seq<nat>, i: nat, k: nat)
    requires Fits(fs, i) && Fits(gs, i) && |fs| == |gs| && SmallerAt(fs, gs, k)
    ensures LexLess(Render(fs, i), Render(gs, i))
    decreases |fs|
  {
    var w := Width(i);
    assert fs[0] < Power10(Width(i + 0)) && gs[0] < Power10(Width(i + 0));
    if k == 0 {
      DigitsOrdered(w, fs[0], gs[0]);
    } else {
      assert fs[0] == fs[..k][0] == gs[..k][0];
      assert forall j | 0 <= j < |fs[1..]| :: fs[1..][j] == fs[j + 1] && i + 1 + j == i + (j + 1);
      assert forall j | 0 <= j < |gs[1..]| :: gs[1..][j] == gs[j + 1];
      assert fs[1..][..k - 1] == fs[..k][1..] && gs[1..][..k - 1] == gs[..k][1..];
      RenderOrdered(fs[1..], gs[1..], i + 1, k - 1);
    }
    LexConcat(Padded(w, fs[0]), Padded(w, gs[0]), Render(fs[1..], i + 1), Render(gs[1..], i + 1));
  }

  lemma FieldsFit(t: nat)
    requires Year(t) <= 9999
    ensures Fits(Fields(t), 0)
  {
    FieldBounds(t);
    assert Power10(1) == 10 && Power10(2) == 100;
    assert Power10(4) == 10000 by { assert Power10(3) == 1000; }
  }

  /** Up to year 9999 a stamp has 15 characters. */
  lemma FormatLength(t: nat)
    requires Year(t) <= 9999
    ensures |Format(t)| == 15
  {
    FieldsFit(t);
    RenderLength(Fields(t), 0);
    assert TotalWidth(4, 3) == 5;
    assert TotalWidth(2, 5) == 9;
    assert TotalWidth(0, 7) == 15;
  }

  /** Stamps of different tenths of a second are different and sort in the order of time. */
  lemma FormatOrdered(t: nat, u: nat)
    requires Tenth(t) < Tenth(u) && Year(t) <= 9999 && Year(u) <= 9999
    ensures LexLess(Format(t), Format(u))
  {
    FieldsFit(t);
    FieldsFit(u);
    var k: nat;
    if Tenth(t) / 864000 < Tenth(u) / 864000 {
      k := DateSmaller(t, u);
    } else {
      k := ClockSmaller(t, u);
    }
    RenderOrdered(Fields(t), Fields(u), 0, k);
  }

  // ---------------------------------------------------------------- reading a stamp

  predicate Decimal(s: string) {
    forall i | 0 <= i < |s| :: '0' <= s[i] <= '9'
  }

  /** The number that a decimal string denotes. */
  function ReadDecimal(s: string): int
    decreases |s|
  {
    if s == "" then 0 else 10 * ReadDecimal(s[..|s| - 1]) + (s[|s| - 1] as int - '0' as int)
  }

  lemma {:induction false} DigitsRead(w: nat, n: nat)
    requires n < Power10(w)
    ensures Decimal(Digits(w, n)) && ReadDecimal(Digits(w, n)) == n
    decreases w
  {
    if w > 0 {
      DigitsRead(w - 1, n / 10);
      assert Digits(w, n)[..w - 1] == Digits(w - 1, n / 10);
    }
  }

  /** The first field, and what follows it. */
  lemma FirstField(fs: seq<nat>, i: nat)
    requires Fits(fs, i) && fs != []
    ensures var r, w := Render(fs, i), Width(i);
            && |r| >= w && Decimal(r[..w]) && ReadDecimal(r[..w]) == fs[0] && r[w..] == Render(fs[1..], i + 1)
    ensures Fits(fs[1..], i + 1)
  {
    assert fs[0] < Power10(Width(i + 0));
    DigitsRead(Width(i), fs[0]);
    assert forall j | 0 <= j < |fs[1..]| :: fs[1..][j] == fs[j + 1] && i + 1 + j == i + (j + 1);
  }

  /** The number n stands in r at position p, with width w. */
  ghost predicate Stands(r: string, p: nat, w: nat, n: nat) {
    p + w <= |r| && ReadDecimal(r[p..p + w]) == n
  }

  lemma StandsLater(r: string, a: nat, p: nat, w: nat, n: nat)
    requires a <= |r| && Stands(r[a..], p, w, n)
    ensures Stands(r, a + p, w, n)
  {
    SliceOfTail(r, a, a + p, a + p + w);
  }

  /** Field k of the fields from the i-th on, cut out of their text. */
  lemma {:induction false} FieldAt(fs: seq<nat>, i: nat, k: nat)
    requires Fits(fs, i) && k < |fs|
    ensures Stands(Render(fs, i), TotalWidth(i, k), Width(i + k), fs[k])
    decreases k
  {
    FirstField(fs, i);
    if k == 0 {
      assert Render(fs, i)[0..Width(i)] == Render(fs, i)[..Width(i)];
    } else {
      FieldAt(fs[1..], i + 1, k - 1);
      assert fs[1..][k - 1] == fs[k] && i + 1 + (k - 1) == i + k;
      StandsLater(Render(fs, i), Width(i), TotalWidth(i + 1, k - 1), Width(i + k), fs[k]);
    }
  }

  lemma SliceOfTail(r: string, a: nat, p: nat, q: nat)
    requires a <= p <= q <= |r|
    ensures r[p..q] == r[a..][p - a..q - a]
  {
  }

  lemma {:induction false} RenderDecimal(fs: seq<nat>, i: nat)
    requires Fits(fs, i)
    ensures Decimal(Render(fs, i))
    decreases |fs|
  {
    if fs != [] {
      FirstField(fs, i);
      RenderDecimal(fs[1..], i + 1);
      var r := Render(fs, i);
      assert r == r[..Width(i)] + r[Width(i)..];
    }
  }

  /** The leap days before year y: every fourth year, but only every fourth of the hundreds. */
  function LeapDays(y: int): int {
    (y + 3) / 4 - (y + 99) / 100 + (y + 399) / 400
  }

  /** The days of year y before the first of month m, in closed form. */
  function DaysOfMonths(y: int, m: int): int {
    (367 * m - 362) / 12
    + if m <= 2 then 0 else if y % 4 == 0 && (y % 100 != 0 || y % 400 == 0) then -1 else -2
  }

  /** The days before the first of month m of year y. */
  function DaysBefore(y: int, m: int): int {
    365 * y + LeapDays(y) + DaysOfMonths(y, m)
  }

  function DaysBeforeNext(y: int, m: int): int {
    if m < 12 then DaysBefore(y, m + 1) else DaysBefore(y + 1, 1)
  }

  lemma Fourth(y: nat)
    ensures (y + 4) / 4 == (y + 3) / 4 + if y % 4 == 0 then 1 else 0
  {
  }

  lemma Hundredth(y: nat)
    ensures (y + 100) / 100 == (y + 99) / 100 + if y % 100 == 0 then 1 else 0
  {
  }

  lemma FourHundredth(y: nat)
    ensures (y + 400) / 400 == (y + 399) / 400 + if y % 400 == 0 then 1 else 0
  {
  }

  lemma LeapDivisors(y: nat)
    ensures y % 400 == 0 ==> y % 100 == 0
    ensures y % 100 == 0 ==> y % 4 == 0
  {
    if y % 400 == 0 { assert y == 100 * (4 * (y / 400)); }
    if y % 100 == 0 { assert y == 4 * (25 * (y / 100)); }
  }

  lemma NextLeap(y: nat)
    ensures LeapDays(y + 1) == LeapDays(y) + if IsLeap(y) then 1 else 0
  {
    Fourth(y);
    Hundredth(y);
    FourHundredth(y);
    LeapDivisors(y);
  }

  lemma NextYear(y: nat)
    ensures DaysBefore(y + 1, 1) == DaysBefore(y, 1) + YearDays(y)
  {
    NextLeap(y);
  }

  lemma NextMonth(y: nat, m: nat)
    requires 1 <= m < 12
    ensures DaysBefore(y, m + 1) == DaysBefore(y, m) + MonthDays(y, m)
  {
  }

  lemma {:induction false} YearCounted(day: nat, y: nat)
    ensures var (y', d) := YearAndDay(day, y); DaysBefore(y', 1) + d == DaysBefore(y, 1) + day
    decreases day
  {
    if day >= YearDays(y) {
      NextYear(y);
      YearCounted(day - YearDays(y), y + 1);
    }
  }

  lemma {:induction false} MonthCounted(day: nat, y: nat, m: nat)
    requires 1 <= m <= 12 && day < DaysFrom(y, m)
    ensures var (m', d) := MonthAndDay(day, y, m); DaysBefore(y, m') + d - 1 == DaysBefore(y, m) + day
    decreases day
  {
    if !(day < MonthDays(y, m) || m >= 12) {
      NextMonth(y, m);
      MonthCounted(day - MonthDays(y, m), y, m + 1);
    }
  }

  /** The date of an instant is a date of the calendar, and counts its days. */
  lemma DateCounted(t: nat)
    ensures var days := t / 86400000000000;
            && 1 <= Month(t) <= 12 && DaysBefore(Year(t), Month(t)) <= days < DaysBeforeNext(Year(t), Month(t))
            && DaysBefore(Year(t), Month(t)) + Day(t) - 1 == days
  {
    var days := Tenth(t) / 864000;
    DivDiv(t);
    var (y, d) := YearAndDay(days, 0);
    YearBounds(days, 0);
    YearFromZero(days);
    DayCounted(y, d);
  }

  lemma YearFromZero(day: nat)
    ensures var (y, d) := YearAndDay(day, 0); DaysBefore(y, 1) + d == day
  {
    YearCounted(day, 0);
    assert DaysBefore(0, 1) == 0;
  }

  /** The month and the day of the month of day d of year y. */
  lemma DayCounted(y: nat, d: nat)
    requires d < YearDays(y)
    ensures var (m, k) := MonthAndDay(d, y, 1);
            && 1 <= m <= 12 && 1 <= k && DaysBefore(y, m) + k - 1 == DaysBefore(y, 1) + d
            && DaysBefore(y, m) + k - 1 < DaysBeforeNext(y, m)
  {
    MonthsFillYear(y);
    MonthBounds(d, y, 1);
    MonthCounted(d, y, 1);
    var m := MonthAndDay(d, y, 1).0;
    if m < 12 { NextMonth(y, m); } else { DecemberLast(y); }
  }

  lemma DecemberLast(y: nat)
    ensures DaysBefore(y + 1, 1) == DaysBefore(y, 12) + 31
  {
    NextYear(y);
  }

  lemma DivDiv(t: nat)
    ensures t / 100000000 / 864000 == t / 86400000000000
  {
  }

  /** The fields are a date and a time of day, and count the tenths of a second. */
  ghost predicate Counts(y: int, m: int, d: int, hour: int, minute: int, second: int, tenth: int, t: nat) {
    && 1 <= m <= 12 && DaysBefore(y, m) <= DaysBefore(y, m) + d - 1 < DaysBeforeNext(y, m)
    && 0 <= hour < 24 && 0 <= minute < 60 && 0 <= second < 60 && 0 <= tenth < 10
    && ((((DaysBefore(y, m) + d - 1) * 24 + hour) * 60 + minute) * 60 + second) * 10 + tenth == t / 100000000
  }

  /** s is the stamp of the instant t: fifteen digits that read as its date and its time of day. */
  ghost predicate StampOf(s: string, t: nat) {
    && |s| == 15 && Decimal(s)
    && Counts(ReadDecimal(s[..4]), ReadDecimal(s[4..6]), ReadDecimal(s[6..8]), ReadDecimal(s[8..10]),
              ReadDecimal(s[10..12]), ReadDecimal(s[12..14]), ReadDecimal(s[14..]), t)
  }

  lemma Offsets()
    ensures TotalWidth(0, 0) == 0 && TotalWidth(0, 1) == 4 && TotalWidth(0, 2) == 6 && TotalWidth(0, 3) == 8
    ensures TotalWidth(0, 4) == 10 && TotalWidth(0, 5) == 12 && TotalWidth(0, 6) == 14
  {
    assert TotalWidth(3, 3) == 6 && TotalWidth(2, 4) == 8 && TotalWidth(1, 5) == 10;
    assert TotalWidth(3, 2) == 4 && TotalWidth(2, 3) == 6 && TotalWidth(1, 4) == 8;
    assert TotalWidth(3, 1) == 2 && TotalWidth(2, 2) == 4 && TotalWidth(1, 3) == 6;
  }

  /** The date and the clock fields of a stamp. */
  lemma FieldsCut(t: nat, k: nat)
    requires Year(t) <= 9999 && k < 7
    ensures |Format(t)| == 15 && Decimal(Format(t))
    ensures Stands(Format(t), if k == 0 then 0 else 2 + 2 * k, Width(k), Fields(t)[k])
  {
    FieldsFit(t);
    FormatLength(t);
    RenderDecimal(Fields(t), 0);
    FieldAt(Fields(t), 0, k);
    OffsetOf(k);
  }

  lemma OffsetOf(k: nat)
    requires k < 7
    ensures TotalWidth(0, k) == if k == 0 then 0 else 2 + 2 * k
  {
    Offsets();
  }

  lemma FieldsRead(t: nat)
    requires Year(t) <= 9999
    ensures var s := Format(t);
            && |s| == 15 && Decimal(s)
            && ReadDecimal(s[..4]) == Year(t) && ReadDecimal(s[4..6]) == Month(t) && ReadDecimal(s[6..8]) == Day(t)
            && ReadDecimal(s[8..10]) == Hour(t) && ReadDecimal(s[10..12]) == Minute(t)
            && ReadDecimal(s[12..14]) == Second(t) && ReadDecimal(s[14..]) == TenthOfSecond(t)
  {
    FieldsCut(t, 0);
    FieldsCut(t, 1);
    FieldsCut(t, 2);
    FieldsCut(t, 3);
    FieldsCut(t, 4);
    FieldsCut(t, 5);
    FieldsCut(t, 6);
    var s := Format(t);
    assert s[0..4] == s[..4] && s[14..15] == s[14..];
  }

  lemma FieldsCount(t: nat)
    ensures Counts(Year(t), Month(t), Day(t), Hour(t), Minute(t), Second(t), TenthOfSecond(t), t)
  {
    FieldBounds(t);
    DateCounted(t);
    ClockCounted(t);
  }

  /** The format prints the date and the time of day of the instant in decimal digits. */
  lemma FormatStamps(t: nat)
    requires Year(t) <= 9999
    ensures StampOf(Format(t), t)
  {
    FieldsRead(t);
    FieldsCount(t);
  }

  lemma ClockCounted(t: nat)
    ensures ((((t / 86400000000000) * 24 + Hour(t)) * 60 + Minute(t)) * 60 + Second(t)) * 10 + TenthOfSecond(t)
         == t / 100000000
  {
    Nested(Tenth(t));
    DivDiv(t);
  }
}
