/** Instants, the proleptic Gregorian calendar and the store's fixed-width UTC text.

    The store keeps every time as text and lets SQLite compare the text byte by byte.
    This module proves that, for the years 0000 to 9999, byte order is time order and
    that parsing undoes printing. */
module Timestamp {

  datatype Parsed = Malformed | Fields(values: seq<nat>)
  datatype ParsedInstant = NoInstant | At(instant: Instant)

  const NANOS_PER_SECOND: nat := 1_000_000_000
  const NANOS_PER_DAY: nat := 86_400 * NANOS_PER_SECOND
  const DAYS_TO_YEAR_10000: nat := 3_652_425

  /** Nanoseconds since 0000-01-01T00:00:00Z, up to the end of the year 9999. */
  type Instant = t: nat | t < DAYS_TO_YEAR_10000 * NANOS_PER_DAY

  // ---------------------------------------------------------------- calendar

  predicate Leap(y: nat) {
    y % 4 == 0 && (y % 100 != 0 || y % 400 == 0)
  }

  function DaysInYear(y: nat): nat {
    if Leap(y) then 366 else 365
  }

  function DaysInMonth(y: nat, m: nat): nat {
    if m == 2 then (if Leap(y) then 29 else 28)
    else if m == 4 || m == 6 || m == 9 || m == 11 then 30
    else 31
  }

  function DaysBeforeYear(y: nat): nat {
    if y == 0 then 0 else DaysBeforeYear(y - 1) + DaysInYear(y - 1)
  }

  function DaysBeforeMonth(y: nat, m: nat): nat {
    if m <= 1 then 0 else DaysBeforeMonth(y, m - 1) + DaysInMonth(y, m - 1)
  }

  function LeapYearsBefore(y: nat): int {
    (y + 3) / 4 - (y + 99) / 100 + (y + 399) / 400
  }

  lemma LeapYearStep(y: nat)
    ensures LeapYearsBefore(y + 1) == LeapYearsBefore(y) + if Leap(y) then 1 else 0
  {
    DivisionBy4(y);
    DivisionBy100(y);
    DivisionBy400(y);
    if y % 100 == 0 { CenturiesAreFours(y / 100); }
    if y % 400 == 0 { CenturiesAreFours(y / 400); }
  }

  lemma CenturiesAreFours(c: nat)
    ensures (100 * c) % 4 == 0 && (400 * c) % 100 == 0
  {
    assert 100 * c == 4 * (25 * c) && 400 * c == 100 * (4 * c);
  }

  lemma DivisionBy4(y: nat)
    ensures (y + 4) / 4 == (y + 3) / 4 + if y % 4 == 0 then 1 else 0
  {
    var q, r := y / 4, y % 4;
    assert y == 4 * q + r;
    assert y + 4 == 4 * (q + 1) + r;
    if r > 0 { assert y + 3 == 4 * (q + 1) + (r - 1); } else { assert y + 3 == 4 * q + 3; }
  }

  lemma DivisionBy100(y: nat)
    ensures (y + 100) / 100 == (y + 99) / 100 + if y % 100 == 0 then 1 else 0
  {
    var q, r := y / 100, y % 100;
    assert y == 100 * q + r;
    assert y + 100 == 100 * (q + 1) + r;
    if r > 0 { assert y + 99 == 100 * (q + 1) + (r - 1); } else { assert y + 99 == 100 * q + 99; }
  }

  lemma DivisionBy400(y: nat)
    ensures (y + 400) / 400 == (y + 399) / 400 + if y % 400 == 0 then 1 else 0
  {
    var q, r := y / 400, y % 400;
    assert y == 400 * q + r;
    assert y + 400 == 400 * (q + 1) + r;
    if r > 0 { assert y + 399 == 400 * (q + 1) + (r - 1); } else { assert y + 399 == 400 * q + 399; }
  }

  lemma {:induction false} DaysBeforeYearClosedForm(y: nat)
    ensures DaysBeforeYear(y) == 365 * y + LeapYearsBefore(y)
  {
    if y > 0 {
      DaysBeforeYearClosedForm(y - 1);
      LeapYearStep(y - 1);
    }
  }

  lemma DaysOfWholeYear(y: nat)
    ensures DaysBeforeMonth(y, 13) == DaysInYear(y)
  {
    var quarter := DaysBeforeMonth(y, 2) + DaysInMonth(y, 2) + DaysInMonth(y, 3);
    assert DaysBeforeMonth(y, 3) == DaysBeforeMonth(y, 2) + DaysInMonth(y, 2);
    assert DaysBeforeMonth(y, 4) == quarter;
    assert DaysBeforeMonth(y, 5) == quarter + 30;
    assert DaysBeforeMonth(y, 6) == quarter + 61;
    assert DaysBeforeMonth(y, 7) == quarter + 91;
    assert DaysBeforeMonth(y, 8) == quarter + 122;
    assert DaysBeforeMonth(y, 9) == quarter + 153;
    assert DaysBeforeMonth(y, 10) == quarter + 183;
    assert DaysBeforeMonth(y, 11) == quarter + 214;
    assert DaysBeforeMonth(y, 12) == quarter + 244;
  }

  lemma {:induction false} YearsAreMonotone(a: nat, b: nat)
    requires a <= b
    ensures DaysBeforeYear(a) <= DaysBeforeYear(b)
    decreases b
  {
    if a < b {
      YearsAreMonotone(a, b - 1);
    }
  }

  lemma {:induction false} MonthsAreMonotone(y: nat, a: nat, b: nat)
    requires a <= b
    ensures DaysBeforeMonth(y, a) <= DaysBeforeMonth(y, b)
    decreases b
  {
    if a < b {
      MonthsAreMonotone(y, a, b - 1);
    }
  }

  /** The year that holds day number d, searching upwards from y. */
  function YearOf(d: nat, y: nat): (r: nat)
    requires DaysBeforeYear(y) <= d
    ensures DaysBeforeYear(r) <= d < DaysBeforeYear(r + 1)
    decreases d - DaysBeforeYear(y)
  {
    if d < DaysBeforeYear(y + 1) then y else YearOf(d, y + 1)
  }

  /** The month that holds day n of year y (counted from 0), searching upwards from m. */
  function MonthOf(y: nat, n: nat, m: nat): (r: nat)
    requires 1 <= m <= 12 && DaysBeforeMonth(y, m) <= n < DaysBeforeMonth(y, 13)
    ensures m <= r <= 12 && DaysBeforeMonth(y, r) <= n < DaysBeforeMonth(y, r + 1)
    decreases 13 - m
  {
    if n < DaysBeforeMonth(y, m + 1) then m else MonthOf(y, n, m + 1)
  }

  function DayNumber(y: nat, m: nat, d: nat): nat
    requires d >= 1
  {
    DaysBeforeYear(y) + DaysBeforeMonth(y, m) + d - 1
  }

  // ------------------------------------------------- instants and their fields

  /** Year, month, day, hour, minute, second, nanosecond. */
  predicate IsCivil(f: seq<nat>) {
    && |f| == 7
    && 1 <= f[1] <= 12
    && 1 <= f[2] <= DaysInMonth(f[0], f[1])
    && f[3] < 24 && f[4] < 60 && f[5] < 60 && f[6] < NANOS_PER_SECOND
  }

  function SecondOfDay(f: seq<nat>): nat
    requires IsCivil(f)
  {
    (f[3] * 60 + f[4]) * 60 + f[5]
  }

  function ToNanos(f: seq<nat>): nat
    requires IsCivil(f)
  {
    (DayNumber(f[0], f[1], f[2]) * 86_400 + SecondOfDay(f)) * NANOS_PER_SECOND + f[6]
  }

  /** The year, month and day of a day number. */
  function CivilDay(day: nat): (f: (nat, nat, nat))
    ensures 1 <= f.1 <= 12 && 1 <= f.2 <= DaysInMonth(f.0, f.1) && DayNumber(f.0, f.1, f.2) == day
  {
    var y := YearOf(day, 0);
    DaysOfWholeYear(y);
    var n := day - DaysBeforeYear(y);
    var m := MonthOf(y, n, 1);
    (y, m, n - DaysBeforeMonth(y, m) + 1)
  }

  /** The hour, minute and second of a second of the day. */
  function Clock(sod: nat): (f: (nat, nat, nat))
    requires sod < 86_400
    ensures f.0 < 24 && f.1 < 60 && f.2 < 60 && (f.0 * 60 + f.1) * 60 + f.2 == sod
  {
    (sod / 3600, (sod / 60) % 60, sod % 60)
  }

  function Civil(t: nat): (f: seq<nat>)
    ensures IsCivil(f) && ToNanos(f) == t
  {
    var secs := t / NANOS_PER_SECOND;
    var (y, m, d) := CivilDay(secs / 86_400);
    var (hh, mm, ss) := Clock(secs % 86_400);
    [y, m, d, hh, mm, ss, t % NANOS_PER_SECOND]
  }

  lemma YearsUpTo9999(t: Instant)
    ensures Civil(t)[0] <= 9999
  {
    var y := Civil(t)[0];
    var day := t / NANOS_PER_SECOND / 86_400;
    assert day < DAYS_TO_YEAR_10000;
    if y > 9999 {
      YearsAreMonotone(10000, y);
      DaysBeforeYearClosedForm(10000);
      assert false;
    }
  }

  /** Dictionary order on tuples of equal length. */
  predicate TupleLess(f: seq<nat>, g: seq<nat>)
    requires |f| == |g|
  {
    if f == [] then false
    else f[0] < g[0] || (f[0] == g[0] && TupleLess(f[1..], g[1..]))
  }

  lemma {:induction false} TupleTotal(f: seq<nat>, g: seq<nat>)
    requires |f| == |g|
    ensures TupleLess(f, g) || f == g || TupleLess(g, f)
  {
    if f != [] && f[0] == g[0] {
      TupleTotal(f[1..], g[1..]);
      assert f == [f[0]] + f[1..] && g == [g[0]] + g[1..];
    }
  }

  lemma DayOrder(f: seq<nat>, g: seq<nat>)
    requires IsCivil(f) && IsCivil(g)
    requires f[0] < g[0] || (f[0] == g[0] && (f[1] < g[1] || (f[1] == g[1] && f[2] < g[2])))
    ensures DayNumber(f[0], f[1], f[2]) < DayNumber(g[0], g[1], g[2])
  {
    if f[0] < g[0] {
      MonthsAreMonotone(f[0], f[1] + 1, 13);
      DaysOfWholeYear(f[0]);
      YearsAreMonotone(f[0] + 1, g[0]);
    } else if f[1] < g[1] {
      MonthsAreMonotone(f[0], f[1] + 1, g[1]);
    }
  }

  lemma {:induction false} FirstDifference(f: seq<nat>, g: seq<nat>) returns (k: nat)
    requires |f| == |g| && TupleLess(f, g)
    ensures k < |f| && f[..k] == g[..k] && f[k] < g[k]
  {
    if f[0] < g[0] {
      k := 0;
    } else {
      var j := FirstDifference(f[1..], g[1..]);
      k := j + 1;
      assert f[..k] == [f[0]] + f[1..][..j];
      assert g[..k] == [g[0]] + g[1..][..j];
    }
  }

  lemma CivilOrderIsTimeOrder(f: seq<nat>, g: seq<nat>)
    requires IsCivil(f) && IsCivil(g) && TupleLess(f, g)
    ensures ToNanos(f) < ToNanos(g)
  {
    var k := FirstDifference(f, g);
    assert forall i :: 0 <= i < k ==> f[i] == f[..k][i] && g[i] == g[..k][i];
    var df, dg := DayNumber(f[0], f[1], f[2]), DayNumber(g[0], g[1], g[2]);
    assert SecondOfDay(f) < 86_400 && SecondOfDay(g) < 86_400;
    if k < 3 {
      DayOrder(f, g);
      assert df + 1 <= dg;
    } else {
      assert df == dg;
      if k < 6 {
        assert SecondOfDay(f) + 1 <= SecondOfDay(g);
      }
    }
  }

  lemma InstantOrder(s: nat, t: nat)
    ensures s < t <==> TupleLess(Civil(s), Civil(t))
  {
    TupleTotal(Civil(s), Civil(t));
    if TupleLess(Civil(s), Civil(t)) {
      CivilOrderIsTimeOrder(Civil(s), Civil(t));
    } else if TupleLess(Civil(t), Civil(s)) {
      CivilOrderIsTimeOrder(Civil(t), Civil(s));
    }
  }

  // -------------------------------------------------------------------- text

  /** SQLite's comparison of two ASCII texts. */
  predicate TextLess(a: string, b: string) {
    if b == [] then false
    else if a == [] then true
    else a[0] < b[0] || (a[0] == b[0] && TextLess(a[1..], b[1..]))
  }

  predicate TextAtMost(a: string, b: string) {
    a == b || TextLess(a, b)
  }

  const DIGITS: string := "0123456789"

  function Power10(w: nat): nat {
    if w == 0 then 1 else 10 * Power10(w - 1)
  }

  /** n in decimal, the last w digits. */
  function Decimal(n: nat, w: nat): (s: string)
    ensures |s| == w
  {
    if w == 0 then "" else Decimal(n / 10, w - 1) + [DIGITS[n % 10]]
  }

  function DigitValue(c: char): (v: int)
    ensures v == -1 || 0 <= v < 10
  {
    if '0' <= c <= '9' then c as int - '0' as int else -1
  }

  function ReadDecimal(s: string): (v: int)
    ensures v >= -1
  {
    if s == "" then 0
    else
      var hi := ReadDecimal(s[..|s| - 1]);
      var lo := DigitValue(s[|s| - 1]);
      if hi < 0 || lo < 0 then -1 else hi * 10 + lo
  }

  /** The decimal width Go uses for a year: at least four digits, more from 10000 on. */
  function YearWidth(y: nat): nat {
    if y < 10_000 then 4 else 1 + YearWidth(y / 10)
  }

  /** Fields of the given widths, each closed by its separator. */
  function Render(f: seq<nat>, widths: seq<nat>, seps: string): (s: string)
    requires |f| == |widths| == |seps|
  {
    if f == [] then ""
    else Decimal(f[0], widths[0]) + [seps[0]] + Render(f[1..], widths[1..], seps[1..])
  }

  function Unrender(s: string, widths: seq<nat>, seps: string): (r: Parsed)
    requires |widths| == |seps|
    ensures r.Fields? ==> |r.values| == |widths|
    decreases |widths|
  {
    if widths == [] then (if s == "" then Fields([]) else Malformed)
    else if |s| <= widths[0] || s[widths[0]] != seps[0] then Malformed
    else
      var v := ReadDecimal(s[..widths[0]]);
      var rest := Unrender(s[widths[0] + 1..], widths[1..], seps[1..]);
      if v < 0 || rest.Malformed? then Malformed else Fields([v] + rest.values)
  }

  const TIME_SEPARATORS: string := "--T::.Z"

  function TimeWidths(y: nat): seq<nat> {
    [YearWidth(y), 2, 2, 2, 2, 2, 9]
  }

  /** The store's time text. */
  function Format(t: nat): string {
    Render(Civil(t), TimeWidths(Civil(t)[0]), TIME_SEPARATORS)
  }

  function Parse(s: string): ParsedInstant {
    var r := Unrender(s, [4, 2, 2, 2, 2, 2, 9], TIME_SEPARATORS);
    if r.Malformed? || !IsCivil(r.values) then NoInstant
    else if ToNanos(r.values) < DAYS_TO_YEAR_10000 * NANOS_PER_DAY then At(ToNanos(r.values))
    else NoInstant
  }

  lemma {:induction false} TextLessOfConcat(a: string, x: string, b: string, y: string)
    requires |a| == |b|
    ensures TextLess(a + x, b + y) <==> TextLess(a, b) || (a == b && TextLess(x, y))
  {
    if a == "" {
      assert a + x == x && b + y == y;
    } else {
      TextLessOfConcat(a[1..], x, b[1..], y);
      assert (a + x)[1..] == a[1..] + x && (b + y)[1..] == b[1..] + y;
      assert a == [a[0]] + a[1..] && b == [b[0]] + b[1..];
    }
  }

  lemma {:induction false} DecimalOrder(m: nat, n: nat, w: nat)
    requires m < Power10(w) && n < Power10(w)
    ensures TextLess(Decimal(m, w), Decimal(n, w)) <==> m < n
    ensures Decimal(m, w) == Decimal(n, w) <==> m == n
  {
    if w > 0 {
      DecimalOrder(m / 10, n / 10, w - 1);
      var a, b := Decimal(m / 10, w - 1), Decimal(n / 10, w - 1);
      var x, y := [DIGITS[m % 10]], [DIGITS[n % 10]];
      TextLessOfConcat(a, x, b, y);
      assert TextLess(x, y) <==> m % 10 < n % 10;
      assert (a + x)[..w - 1] == a && (b + y)[..w - 1] == b;
      assert (a + x)[w - 1] == x[0] && (b + y)[w - 1] == y[0];
    }
  }

  lemma {:induction false} ReadUndoesDecimal(n: nat, w: nat)
    requires n < Power10(w)
    ensures ReadDecimal(Decimal(n, w)) == n
  {
    if w > 0 {
      ReadUndoesDecimal(n / 10, w - 1);
      var s := Decimal(n, w);
      assert s[..|s| - 1] == Decimal(n / 10, w - 1);
      assert s[|s| - 1] == DIGITS[n % 10];
    }
  }

  predicate Fits(f: seq<nat>, widths: seq<nat>) {
    |f| == |widths| && forall i :: 0 <= i < |f| ==> f[i] < Power10(widths[i])
  }

  lemma {:induction false} RenderOrder(f: seq<nat>, g: seq<nat>, widths: seq<nat>, seps: string)
    requires Fits(f, widths) && Fits(g, widths) && |seps| == |widths|
    ensures TextLess(Render(f, widths, seps), Render(g, widths, seps)) <==> TupleLess(f, g)
    decreases |widths|
  {
    if f != [] {
      assert f[0] < Power10(widths[0]) && g[0] < Power10(widths[0]);
      DecimalOrder(f[0], g[0], widths[0]);
      var a, b := Decimal(f[0], widths[0]), Decimal(g[0], widths[0]);
      var x, y := Render(f[1..], widths[1..], seps[1..]), Render(g[1..], widths[1..], seps[1..]);
      RenderOrder(f[1..], g[1..], widths[1..], seps[1..]);
      TextLessOfConcat(a + [seps[0]], x, b + [seps[0]], y);
      TextLessOfConcat(a, [seps[0]], b, [seps[0]]);
      assert (a + [seps[0]])[..|a|] == a && (b + [seps[0]])[..|b|] == b;
    }
  }

  lemma {:induction false} UnrenderUndoesRender(f: seq<nat>, widths: seq<nat>, seps: string)
    requires Fits(f, widths) && |seps| == |widths|
    ensures Unrender(Render(f, widths, seps), widths, seps) == Fields(f)
    decreases |widths|
  {
    if f != [] {
      assert f[0] < Power10(widths[0]);
      ReadUndoesDecimal(f[0], widths[0]);
      UnrenderUndoesRender(f[1..], widths[1..], seps[1..]);
      var s := Render(f, widths, seps);
      assert s[..widths[0]] == Decimal(f[0], widths[0]);
      assert s[widths[0] + 1..] == Render(f[1..], widths[1..], seps[1..]);
      assert f == [f[0]] + f[1..];
    }
  }

  lemma InstantFits(t: Instant)
    ensures TimeWidths(Civil(t)[0]) == [4, 2, 2, 2, 2, 2, 9]
    ensures Fits(Civil(t), [4, 2, 2, 2, 2, 2, 9])
  {
    YearsUpTo9999(t);
    assert Power10(2) == 100 && Power10(4) == 10_000;
    assert Power10(9) == NANOS_PER_SECOND by {
      assert Power10(9) == 1000 * Power10(6) && Power10(6) == 1000 * Power10(3);
    }
  }

  // ------------------------------------------------------------ main theorems

  lemma FormatIsFixedWidth(t: Instant)
    ensures Format(t) == Render(Civil(t), [4, 2, 2, 2, 2, 2, 9], TIME_SEPARATORS)
    ensures Fits(Civil(t), [4, 2, 2, 2, 2, 2, 9])
  {
    InstantFits(t);
  }

  lemma ParseUndoesFormat(t: Instant)
    ensures Parse(Format(t)) == At(t)
  {
    FormatIsFixedWidth(t);
    UnrenderUndoesRender(Civil(t), [4, 2, 2, 2, 2, 2, 9], TIME_SEPARATORS);
  }

  lemma StrictTextOrder(s: Instant, t: Instant)
    ensures TextLess(Format(s), Format(t)) <==> s < t
  {
    FormatIsFixedWidth(s);
    FormatIsFixedWidth(t);
    InstantOrder(s, t);
    RenderOrder(Civil(s), Civil(t), [4, 2, 2, 2, 2, 2, 9], TIME_SEPARATORS);
  }

  /** Comparing stored texts compares the instants. */
  lemma TextOrderIsTimeOrder(s: Instant, t: Instant)
    ensures TextLess(Format(s), Format(t)) <==> s < t
    ensures TextAtMost(Format(s), Format(t)) <==> s <= t
  {
    StrictTextOrder(s, t);
    ParseUndoesFormat(s);
    ParseUndoesFormat(t);
    assert Format(s) == Format(t) ==> At(s) == At(t);
  }

  lemma YearOfDay(d: nat, y: nat)
    requires DaysBeforeYear(y) <= d < DaysBeforeYear(y + 1)
    ensures Civil(d * NANOS_PER_DAY)[0] == y
  {
    var t := d * NANOS_PER_DAY;
    assert t / NANOS_PER_SECOND / 86_400 == d;
    YearIsUnique(d, Civil(t)[0], y);
  }

  lemma FormatStartsWithYear(t: nat, y: nat)
    requires Civil(t)[0] == y
    ensures Format(t) != "" && Decimal(y, YearWidth(y)) != "" && Format(t)[0] == Decimal(y, YearWidth(y))[0]
  {
  }

  /** The bound is needed: the first instant of the year 10000 sorts before the year 2000. */
  lemma TextOrderFailsFromYear10000()
    ensures TextLess(Format(DAYS_TO_YEAR_10000 * NANOS_PER_DAY), Format(730_485 * NANOS_PER_DAY))
  {
    DaysBeforeYearClosedForm(10_000);
    DaysBeforeYearClosedForm(10_001);
    DaysBeforeYearClosedForm(2_000);
    DaysBeforeYearClosedForm(2_001);
    YearOfDay(DAYS_TO_YEAR_10000, 10_000);
    YearOfDay(730_485, 2_000);
    FormatStartsWithYear(DAYS_TO_YEAR_10000 * NANOS_PER_DAY, 10_000);
    FormatStartsWithYear(730_485 * NANOS_PER_DAY, 2_000);
    assert YearWidth(10_000) == 5 && YearWidth(2_000) == 4;
    DecimalPrefix();
  }

  /** Text order is time order for all times before this one. */
  ghost predicate IsOrderedBelow(end: nat) {
    forall s: nat, t: nat :: s < end && t < end ==>
      (TextLess(Format(s), Format(t)) <==> s < t) && (TextAtMost(Format(s), Format(t)) <==> s <= t)
  }

  /** The bound is exact: the order holds up to the end of the year 9999 and no further. */
  lemma OrderedUpToYear10000(end: nat)
    ensures IsOrderedBelow(end) <==> end <= DAYS_TO_YEAR_10000 * NANOS_PER_DAY
  {
    if end <= DAYS_TO_YEAR_10000 * NANOS_PER_DAY {
      forall s: nat, t: nat | s < end && t < end
        ensures (TextLess(Format(s), Format(t)) <==> s < t) && (TextAtMost(Format(s), Format(t)) <==> s <= t)
      {
        TextOrderIsTimeOrder(s, t);
      }
    } else {
      TextOrderFailsFromYear10000();
      hide Format, TextLess;
      var late, early: nat := DAYS_TO_YEAR_10000 * NANOS_PER_DAY, 730_485 * NANOS_PER_DAY;
      assert late < end && early < end && TextLess(Format(late), Format(early)) && !(late < early);
    }
  }

  lemma DecimalPrefix()
    ensures Decimal(10_000, 5)[0] == '1' && Decimal(2_000, 4)[0] == '2'
  {
    assert Decimal(1, 1) == "1";
    assert Decimal(10, 2) == "10";
    assert Decimal(100, 3) == "100";
    assert Decimal(1_000, 4) == "1000";
    assert Decimal(10_000, 5) == "10000";
    assert Decimal(2, 1) == "2";
    assert Decimal(20, 2) == "20";
    assert Decimal(200, 3) == "200";
  }

  lemma YearIsUnique(d: nat, y: nat, z: nat)
    requires DaysBeforeYear(y) <= d < DaysBeforeYear(y + 1)
    requires DaysBeforeYear(z) <= d < DaysBeforeYear(z + 1)
    ensures y == z
  {
    if y < z {
      YearsAreMonotone(y + 1, z);
    } else if z < y {
      YearsAreMonotone(z + 1, y);
    }
  }
}
