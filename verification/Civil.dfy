/** The proleptic Gregorian calendar as a day count, and back (crates/core/src/lib.rs).
    Months and days are plain integers, as in the source; division there truncates towards zero. */
module Civil {

  datatype Date = Date(year: int, month: int, day: int)

  /** Rust's `/`, which truncates towards zero where Dafny's floors for a positive divisor. */
  function TruncDiv(a: int, b: int): int
    requires b > 0
  {
    if a >= 0 then a / b else -((-a) / b)
  }

  predicate IsLeap(year: int) {
    (year % 4 == 0 && year % 100 != 0) || year % 400 == 0
  }

  function LastDayOfMonth(year: int, month: int): int {
    if month in {1, 3, 5, 7, 8, 10, 12} then 31
    else if month in {4, 6, 9, 11} then 30
    else if month == 2 then (if IsLeap(year) then 29 else 28)
    else 0
  }

  predicate IsDate(d: Date) {
    1 <= d.month <= 12 && 1 <= d.day <= LastDayOfMonth(d.year, d.month)
  }

  function DaysFromCivil(d: Date): int {
    var y := if d.month <= 2 then d.year - 1 else d.year;
    var era := TruncDiv(if y >= 0 then y else y - 399, 400);
    var yoe := y - era * 400;
    var mp := (d.month + 9) % 12;
    var doy := TruncDiv(153 * mp + 2, 5) + d.day - 1;
    var doe := yoe * 365 + TruncDiv(yoe, 4) - TruncDiv(yoe, 100) + doy;
    era * 146097 + doe - 719468
  }

  function CivilFromDays(days: int): Date {
    var z := days + 719468;
    var era := TruncDiv(if z >= 0 then z else z - 146096, 146097);
    var doe := z - era * 146097;
    var yoe := TruncDiv(doe - TruncDiv(doe, 1460) + TruncDiv(doe, 36524) - TruncDiv(doe, 146096), 365);
    var y := yoe + era * 400;
    var doy := doe - (365 * yoe + TruncDiv(yoe, 4) - TruncDiv(yoe, 100));
    var mp := TruncDiv(5 * doy + 2, 153);
    var d := doy - TruncDiv(153 * mp + 2, 5) + 1;
    var m := if mp < 10 then mp + 3 else mp - 9;
    Date(if m <= 2 then y + 1 else y, m, d)
  }

  /** The calendar's own successor, with no day count in it: the reference the count is held to. */
  function NextDay(d: Date): Date
    requires IsDate(d)
  {
    if d.day < LastDayOfMonth(d.year, d.month) then Date(d.year, d.month, d.day + 1)
    else if d.month < 12 then Date(d.year, d.month + 1, 1)
    else Date(d.year + 1, 1, 1)
  }

  // --- The count in parts: an era of 400 March-based years, a year of it, a day of the year ---

  /** Days before March-based month `mp` in its year. */
  function MonthStart(mp: int): int { (153 * mp + 2) / 5 }

  /** Days before March-based year `yoe` in its era. */
  function YearStart(yoe: int): int { yoe * 365 + yoe / 4 - yoe / 100 }

  /** The length of March-based year `yoe`: the leap day ends it, in the February of the next. */
  function YearLength(yoe: int): int {
    if IsLeap(yoe + 1) then 366 else 365
  }

  lemma EraIsFloor(n: int, size: int)
    requires size > 0
    ensures TruncDiv(if n >= 0 then n else n - (size - 1), size) == n / size
  {
    if n < 0 {
      var k := (size - 1) - n;
      assert n == (n / size) * size + n % size;
      assert k == (-(n / size)) * size + (size - 1 - n % size);
      DivUnique(k, size, -(n / size), size - 1 - n % size);
    }
  }

  lemma DivUnique(n: int, size: int, q: int, r: int)
    requires size > 0 && n == q * size + r && 0 <= r < size
    ensures n / size == q && n % size == r
  {
    var e := n / size - q;
    assert n == (n / size) * size + n % size;
    assert e * size == r - n % size;
    assert e >= 1 ==> e * size >= size;
    assert e <= -1 ==> e * size <= -size;
  }

  lemma YearStartNext(yoe: int)
    requires 0 <= yoe < 400
    ensures YearStart(yoe) + YearLength(yoe) == if yoe == 399 then 146097 else YearStart(yoe + 1)
  {
    var n := yoe + 1;
    DivStep(yoe, 4);
    DivStep(yoe, 100);
    assert n % 400 == 0 <==> n == 400;
    assert n % 100 == 0 ==> n % 4 == 0;
  }

  lemma DivStep(n: int, size: int)
    requires size > 1
    ensures (n + 1) / size == n / size + if (n + 1) % size == 0 then 1 else 0
  {
    if n % size == size - 1 {
      DivUnique(n + 1, size, n / size + 1, 0);
    } else {
      DivUnique(n + 1, size, n / size, n % size + 1);
    }
  }

  lemma YearOfEra(yoe: int, doy: int)
    requires 0 <= yoe < 400 && 0 <= doy < YearLength(yoe)
    ensures 0 <= YearStart(yoe) + doy < 146097
    ensures YearOfDay(YearStart(yoe) + doy) == yoe
  {
    hide YearStart, YearOfDay;
    var c, q, s := yoe / 100, yoe % 100 / 4, yoe % 4;
    PartsOfYear(yoe);
    assert doy == 365 ==> s == 3 && (q < 24 || c == 3);
    YearOfParts(c, q, s, doy);
  }

  lemma PartsOfYear(yoe: int)
    requires 0 <= yoe < 400
    ensures var c, q, s := yoe / 100, yoe % 100 / 4, yoe % 4;
      && 0 <= c < 4 && 0 <= q < 25 && yoe == 100 * c + 4 * q + s
      && YearStart(yoe) == 36524 * c + 1461 * q + 365 * s
      && (IsLeap(yoe + 1) ==> s == 3 && (q < 24 || c == 3))
  {
    assert yoe / 4 == 25 * (yoe / 100) + yoe % 100 / 4;
  }

  /** The year of the era a day of the era falls in, as the source computes it. */
  function YearOfDay(doe: int): int {
    (doe - doe / 1460 + doe / 36524 - doe / 146096) / 365
  }

  lemma YearOfParts(c: int, q: int, s: int, doy: int)
    requires 0 <= c < 4 && 0 <= q < 25 && 0 <= s < 4 && 0 <= doy <= 365
    requires doy == 365 ==> s == 3 && (q < 24 || c == 3)
    ensures 0 <= 36524 * c + 1461 * q + 365 * s + doy < 146097
    ensures YearOfDay(36524 * c + 1461 * q + 365 * s + doy) == 100 * c + 4 * q + s
  {
    var doe := 36524 * c + 1461 * q + 365 * s + doy;
    var carry := if 24 * c + q + 365 * s + doy < 1460 then 0 else 1;
    CyclesOfParts(c, q, s, doy);
    CenturiesOfParts(c, q, s, doy);
    DivUnique(doe - doe / 1460 + doe / 36524 - doe / 146096, 365, 100 * c + 4 * q + s, doy - carry);
  }

  lemma CyclesOfParts(c: int, q: int, s: int, doy: int)
    requires 0 <= c < 4 && 0 <= q < 25 && 0 <= s < 4 && 0 <= doy <= 365 && (doy == 365 ==> s == 3 && (q < 24 || c == 3))
    ensures var x := 24 * c + q + 365 * s + doy;
      (36524 * c + 1461 * q + 365 * s + doy) / 1460 == 25 * c + q + if x < 1460 then 0 else 1
  {
    var x := 24 * c + q + 365 * s + doy;
    var carry := if x < 1460 then 0 else 1;
    DivUnique(36524 * c + 1461 * q + 365 * s + doy, 1460, 25 * c + q + carry, x - 1460 * carry);
  }

  lemma CenturiesOfParts(c: int, q: int, s: int, doy: int)
    requires 0 <= c < 4 && 0 <= q < 25 && 0 <= s < 4 && 0 <= doy <= 365 && (doy == 365 ==> s == 3 && (q < 24 || c == 3))
    ensures var doe := 36524 * c + 1461 * q + 365 * s + doy;
      0 <= doe < 146097 && doe / 36524 - doe / 146096 == c
  {
    var doe := 36524 * c + 1461 * q + 365 * s + doy;
    var last := if doe == 146096 then 1 else 0;
    DivUnique(doe, 36524, c + last, doe - 36524 * (c + last));
    DivUnique(doe, 146096, last, doe - 146096 * last);
  }

  lemma MonthOfYear(mp: int, day: int)
    requires 0 <= mp < 12 && 1 <= day <= MonthStart(mp + 1) - MonthStart(mp)
    ensures (5 * (MonthStart(mp) + day - 1) + 2) / 153 == mp
  {
  }

  // --- Where a date stands: its March-based year and the day of it ---

  function MarchYear(d: Date): int { if d.month <= 2 then d.year - 1 else d.year }

  function DayOfYear(d: Date): int { MonthStart((d.month + 9) % 12) + d.day - 1 }

  function DaysAt(year: int, doy: int): int { (year / 400) * 146097 + YearStart(year % 400) + doy - 719468 }

  /** The leap rule looks only at the year's place in its era. */
  lemma LeapOfEra(y: int)
    ensures IsLeap(y + 1) == IsLeap(y % 400 + 1)
  {
    var e, r := y / 400, y % 400;
    assert y + 1 == 400 * e + (r + 1);
    DivUnique(y + 1, 4, 100 * e + (r + 1) / 4, (r + 1) % 4);
    DivUnique(y + 1, 100, 4 * e + (r + 1) / 100, (r + 1) % 100);
    DivUnique(y + 1, 400, e + (r + 1) / 400, (r + 1) % 400);
  }

  lemma DaysInParts(d: Date)
    requires IsDate(d)
    ensures DaysFromCivil(d) == DaysAt(MarchYear(d), DayOfYear(d))
    ensures 0 <= DayOfYear(d) < YearLength(MarchYear(d) % 400)
  {
    hide DaysFromCivil, DayOfYear, YearStart, IsLeap;
    LeapOfEra(MarchYear(d));
    DayOfYearFits(d);
    CountInParts(d);
  }

  lemma CountInParts(d: Date)
    ensures DaysFromCivil(d) == DaysAt(MarchYear(d), DayOfYear(d))
  {
    hide TruncDiv;
    var y := MarchYear(d);
    EraIsFloor(y, 400);
    assert y == (y / 400) * 400 + y % 400;
    TruncIsFloor(y % 400, 4);
    TruncIsFloor(y % 400, 100);
    TruncIsFloor(153 * ((d.month + 9) % 12) + 2, 5);
  }

  lemma TruncIsFloor(n: int, size: int)
    requires n >= 0 && size > 0
    ensures TruncDiv(n, size) == n / size
  {
  }

  lemma MonthStarts()
    ensures MonthStart(0) == 0 && MonthStart(1) == 31 && MonthStart(2) == 61 && MonthStart(3) == 92
    ensures MonthStart(4) == 122 && MonthStart(5) == 153 && MonthStart(6) == 184 && MonthStart(7) == 214
    ensures MonthStart(8) == 245 && MonthStart(9) == 275 && MonthStart(10) == 306 && MonthStart(11) == 337
    ensures MonthStart(12) == 367
  {
  }

  lemma DayOfYearFits(d: Date)
    requires IsDate(d)
    ensures 0 <= DayOfYear(d) < if IsLeap(MarchYear(d) + 1) then 366 else 365
    ensures d.day <= MonthStart((d.month + 9) % 12 + 1) - MonthStart((d.month + 9) % 12)
  {
    MonthStarts();
    assert (d.month + 9) % 12 == if d.month <= 2 then d.month + 9 else d.month - 3;
  }

  /** The date of day `doy` of March-based year `y`. */
  function DateAt(y: int, doy: int): Date {
    var mp := (5 * doy + 2) / 153;
    var m := if mp < 10 then mp + 3 else mp - 9;
    Date(if m <= 2 then y + 1 else y, m, doy - MonthStart(mp) + 1)
  }

  lemma CivilInParts(era: int, yoe: int, doy: int, days: int)
    requires 0 <= yoe && 0 <= YearStart(yoe) && 0 <= doy
    requires YearStart(yoe) + doy < 146097 && YearOfDay(YearStart(yoe) + doy) == yoe
    requires days == era * 146097 + YearStart(yoe) + doy - 719468
    ensures CivilFromDays(days) == DateAt(yoe + era * 400, doy)
  {
    hide TruncDiv, YearOfDay, DateAt;
    var doe := YearStart(yoe) + doy;
    EraOfDay(days, era, doe);
    YearOfDayIs(doe);
    TruncIsFloor(yoe, 4);
    TruncIsFloor(yoe, 100);
    DateAtIs(yoe + era * 400, doy);
  }

  lemma EraOfDay(days: int, era: int, doe: int)
    requires 0 <= doe < 146097 && days == era * 146097 + doe - 719468
    ensures TruncDiv(if days + 719468 >= 0 then days + 719468 else days + 719468 - 146096, 146097) == era
  {
    hide TruncDiv;
    EraIsFloor(days + 719468, 146097);
    DivUnique(days + 719468, 146097, era, doe);
  }

  lemma YearOfDayIs(doe: int)
    requires 0 <= doe < 146097
    ensures TruncDiv(doe - TruncDiv(doe, 1460) + TruncDiv(doe, 36524) - TruncDiv(doe, 146096), 365) == YearOfDay(doe)
  {
    hide TruncDiv;
    TruncIsFloor(doe, 1460);
    TruncIsFloor(doe, 36524);
    TruncIsFloor(doe, 146096);
    EachLess(doe);
    TruncIsFloor(doe - doe / 1460 + doe / 36524 - doe / 146096, 365);
  }

  lemma DateAtIs(y: int, doy: int)
    requires 0 <= doy
    ensures var mp := TruncDiv(5 * doy + 2, 153);
      var m := if mp < 10 then mp + 3 else mp - 9;
      Date(if m <= 2 then y + 1 else y, m, doy - TruncDiv(153 * mp + 2, 5) + 1) == DateAt(y, doy)
  {
  }

  lemma EachLess(doe: int)
    requires 0 <= doe < 146097
    ensures doe - doe / 1460 + doe / 36524 - doe / 146096 >= 0
  {
  }

  lemma DateOfParts(d: Date)
    requires IsDate(d)
    ensures DateAt(MarchYear(d), DayOfYear(d)) == d
  {
    DayOfYearFits(d);
    var mp := (d.month + 9) % 12;
    assert mp == if d.month <= 2 then d.month + 9 else d.month - 3;
    assert 0 <= mp < 12 && 1 <= d.day;
    hide IsDate, IsLeap, MonthStart;
    MonthOfYear(mp, d.day);
  }

  lemma CivilOfPlace(y: int, doy: int)
    requires 0 <= doy < YearLength(y % 400)
    ensures CivilFromDays(DaysAt(y, doy)) == DateAt(y, doy)
  {
    YearOfEra(y % 400, doy);
    CivilInParts(y / 400, y % 400, doy, DaysAt(y, doy));
    assert y % 400 + y / 400 * 400 == y;
  }

  /** Reading a day count back gives the date it was made from, for every date of every year. */
  lemma CivilOfDays(d: Date)
    requires IsDate(d)
    ensures CivilFromDays(DaysFromCivil(d)) == d
  {
    DaysInParts(d);
    CivilOfPlace(MarchYear(d), DayOfYear(d));
    DateOfParts(d);
  }

  lemma NextInParts(d: Date)
    requires IsDate(d)
    ensures IsDate(NextDay(d))
    ensures var y, n := MarchYear(d), NextDay(d);
            || (MarchYear(n) == y && DayOfYear(n) == DayOfYear(d) + 1)
            || (MarchYear(n) == y + 1 && DayOfYear(n) == 0
                && DayOfYear(d) + 1 == if IsLeap(y + 1) then 366 else 365)
  {
    MonthStarts();
    var mp, mp' := (d.month + 9) % 12, (NextDay(d).month + 9) % 12;
    assert mp == if d.month <= 2 then d.month + 9 else d.month - 3;
    assert mp' == mp || mp' == mp + 1 || (mp == 11 && mp' == 0);
  }

  /** The count moves by exactly one from a date to the next one on the calendar. */
  lemma NextDayCounts(d: Date)
    requires IsDate(d)
    ensures IsDate(NextDay(d)) && DaysFromCivil(NextDay(d)) == DaysFromCivil(d) + 1
  {
    NextInParts(d);
    DaysInParts(d);
    DaysInParts(NextDay(d));
    if MarchYear(NextDay(d)) != MarchYear(d) {
      LeapOfEra(MarchYear(d));
      NewYearCounts(MarchYear(d));
    }
  }

  lemma NewYearCounts(y: int)
    ensures DaysAt(y + 1, 0) == DaysAt(y, YearLength(y % 400))
  {
    var e, r := y / 400, y % 400;
    YearStartNext(r);
    if r == 399 { DivUnique(y + 1, 400, e + 1, 0); } else { DivUnique(y + 1, 400, e, r + 1); }
  }

  lemma {:induction false} CountedFrom(d: Date, n: nat)
    requires IsDate(d)
    ensures var c := CivilFromDays(DaysFromCivil(d) + n);
            IsDate(c) && DaysFromCivil(c) == DaysFromCivil(d) + n
    decreases n
  {
    hide DaysFromCivil, CivilFromDays, NextDay;
    if n == 0 {
      CivilOfDays(d);
    } else {
      NextDayCounts(d);
      CountedFrom(NextDay(d), n - 1);
    }
  }

  lemma EraBack(k: nat)
    ensures DaysFromCivil(Date(1970 - 400 * k, 1, 1)) == -146097 * k
  {
    var d := Date(1970 - 400 * k, 1, 1);
    hide DaysFromCivil;
    DaysInParts(d);
    DivUnique(1969 - 400 * k, 400, 4 - k, 369);
    assert MarchYear(d) == 1969 - 400 * k && DayOfYear(d) == 306;
    assert YearStart(369) == 134774;
  }

  /** Every day count, before the epoch or after it, names a real date, and that date counts back to it. */
  lemma DaysOfCivil(days: int)
    ensures IsDate(CivilFromDays(days)) && DaysFromCivil(CivilFromDays(days)) == days
  {
    hide DaysFromCivil, CivilFromDays;
    var k: nat := if days < 0 then -days else 0;
    EraBack(k);
    CountedFrom(Date(1970 - 400 * k, 1, 1), days + 146097 * k);
  }
}
