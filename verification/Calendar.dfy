/** Days since the epoch as dates of the proleptic Gregorian calendar. */
module Calendar {
  datatype Date = Date(year: int, month: int, day: int)

  // ----- the two versions -----

  /** Division as the machine does it: toward zero. */
  function TruncDiv(a: int, b: int): int
    requires b > 0
  {
    if a >= 0 then a / b else -((-a) / b)
  }

  function YearOfEra(doe: int): int { (doe - doe / 1460 + doe / 36524 - doe / 146096) / 365 }

  /** The node's form: the era by truncating division of a shifted number. */
  function CivilFromDays(z0: int): Date {
    var z := z0 + 719468;
    var era := TruncDiv(if z >= 0 then z else z - 146096, 146097);
    var doe := z - era * 146097;
    var yoe := YearOfEra(doe);
    var y := yoe + era * 400;
    var doy := doe - (365 * yoe + yoe / 4 - yoe / 100);
    var mp := (5 * doy + 2) / 153;
    var d := doy - (153 * mp + 2) / 5 + 1;
    var m := if mp < 10 then mp + 3 else mp - 9;
    Date(if m <= 2 then y + 1 else y, m, d)
  }

  /** The wallet's form: the era by Euclidean division. */
  function WalletCivil(days: int): Date {
    var z := days + 719468;
    var era, doe := z / 146097, z % 146097;
    var yoe := YearOfEra(doe);
    var doy := doe - (365 * yoe + yoe / 4 - yoe / 100);
    var mp := (5 * doy + 2) / 153;
    var day := doy - (153 * mp + 2) / 5 + 1;
    var month := if mp < 10 then mp + 3 else mp - 9;
    Date(yoe + era * 400 + (if month <= 2 then 1 else 0), month, day)
  }

  lemma EraIsFloor(z: int)
    ensures TruncDiv(if z >= 0 then z else z - 146096, 146097) == z / 146097
    ensures z - (z / 146097) * 146097 == z % 146097
  {
  }

  lemma VersionsAgree(z: int)
    ensures CivilFromDays(z) == WalletCivil(z)
  {
    hide TruncDiv, YearOfEra;
    EraIsFloor(z + 719468);
  }

  // ----- counting days -----

  predicate IsLeap(y: int) { y % 4 == 0 && (y % 100 != 0 || y % 400 == 0) }

  function YearLength(y: int): int { if IsLeap(y) then 366 else 365 }

  /** Appendix C of RFC 3339. */
  function MonthLength(y: int, m: int): int {
    if m == 2 then (if IsLeap(y) then 29 else 28)
    else if m == 4 || m == 6 || m == 9 || m == 11 then 30
    else 31
  }

  predicate Valid(c: Date) { 1 <= c.month <= 12 && 1 <= c.day <= MonthLength(c.year, c.month) }

  /** Days from the epoch to the first of January, year by year in either direction. */
  function DaysToYear(y: int): int
    decreases if y >= 1970 then y - 1970 else 1970 - y
  {
    if y == 1970 then 0
    else if y > 1970 then DaysToYear(y - 1) + YearLength(y - 1)
    else DaysToYear(y + 1) - YearLength(y)
  }

  /** Days of the months before m. */
  function DaysToMonth(y: int, m: nat): int {
    if m <= 1 then 0 else DaysToMonth(y, m - 1) + MonthLength(y, m - 1)
  }

  function DayNumber(c: Date): int
    requires Valid(c)
  {
    DaysToYear(c.year) + DaysToMonth(c.year, c.month) + c.day - 1
  }

  function NextDay(c: Date): Date {
    if c.day < MonthLength(c.year, c.month) then c.(day := c.day + 1)
    else if c.month < 12 then Date(c.year, c.month + 1, 1)
    else Date(c.year + 1, 1, 1)
  }

  // ----- closed forms -----

  /** Leap years before y, in closed form. */
  function Leaps(y: int): int { (y - 1) / 4 - (y - 1) / 100 + (y - 1) / 400 }

  lemma LeapStep(y: int)
    ensures Leaps(y + 1) == Leaps(y) + if IsLeap(y) then 1 else 0
  {
    FloorStep(y, 4);
    FloorStep(y, 100);
    FloorStep(y, 400);
  }

  lemma FloorStep(y: int, k: int)
    requires k == 4 || k == 100 || k == 400
    ensures y / k == (y - 1) / k + if y % k == 0 then 1 else 0
  {
  }

  lemma {:induction false} DaysToYearIs(y: int)
    ensures DaysToYear(y) == 365 * y + Leaps(y) - 719527
    decreases if y >= 1970 then y - 1970 else 1970 - y
  {
    hide Leaps, IsLeap;
    if y == 1970 {
      LeapsAtEpoch();
    } else if y > 1970 {
      DaysToYearIs(y - 1);
      LeapStep(y - 1);
    } else {
      DaysToYearIs(y + 1);
      LeapStep(y);
    }
  }

  lemma LeapsAtEpoch()
    ensures Leaps(1970) == 477
  {
  }

  /** Days of the months before m, from March on and for January and February. */
  lemma DaysToMonthIs(y: int, m: nat)
    requires 1 <= m <= 12
    ensures m >= 3 ==> DaysToMonth(y, m) == (if IsLeap(y) then 60 else 59) + FromMarch(m - 3)
    ensures m <= 2 ==> DaysToMonth(y, m) == 31 * (m - 1)
    decreases m
  {
    hide IsLeap;
    if m > 1 {
      DaysToMonthIs(y, m - 1);
    }
  }

  /** Days from the first of March to the first of the month mp months later. */
  function FromMarch(mp: int): int { (153 * mp + 2) / 5 }

  /** The month of a day of the year that starts in March. */
  lemma MonthFound(doy: int)
    requires 0 <= doy <= 365
    ensures var mp := (5 * doy + 2) / 153; 0 <= mp <= 11 && FromMarch(mp) <= doy < FromMarch(mp + 1)
  {
    var mp := (5 * doy + 2) / 153;
    assert 153 * mp <= 5 * doy + 2 < 153 * mp + 153;
  }

  lemma MarchSteps(y: int, mp: int)
    requires 0 <= mp <= 10
    ensures FromMarch(mp + 1) - FromMarch(mp) == MonthLength(y, if mp < 10 then mp + 3 else mp - 9)
  {
    if mp < 5 {
      MarchStepsLow(y, mp);
    } else {
      MarchStepsHigh(y, mp);
    }
  }

  lemma MarchStepsLow(y: int, mp: int)
    requires 0 <= mp <= 4
    ensures FromMarch(mp + 1) - FromMarch(mp) == MonthLength(y, mp + 3)
  {
  }

  lemma MarchStepsHigh(y: int, mp: int)
    requires 5 <= mp <= 10
    ensures FromMarch(mp + 1) - FromMarch(mp) == MonthLength(y, if mp < 10 then mp + 3 else mp - 9)
  {
  }

  // ----- the year of the era -----

  /** A day of the era as centuries, four-year groups and days. */
  lemma SplitEra(doe: int) returns (n: int, q: int, s: int)
    requires 0 <= doe < 146097
    ensures 0 <= n <= 3 && 0 <= q <= 24 && 0 <= s <= 1460 && doe == 36524 * n + 1461 * q + s
    ensures s == 1460 ==> q < 24 || n == 3
  {
    n := if doe == 146096 then 3 else doe / 36524;
    var r := doe - 36524 * n;
    q := r / 1461;
    s := r - 1461 * q;
  }

  function GroupYear(s: int): int { if s == 1460 then 3 else s / 365 }

  /** The closed formula finds the year. */
  lemma YearFound(doe: int, n: int, q: int, s: int)
    requires 0 <= n <= 3 && 0 <= q <= 24 && 0 <= s <= 1460 && doe == 36524 * n + 1461 * q + s
    requires s == 1460 ==> q < 24 || n == 3
    requires doe < 146097
    ensures YearOfEra(doe) == 100 * n + 4 * q + GroupYear(s)
  {
    if doe == 146096 {
      assert n == 3 && q == 24 && s == 1460;
    } else {
      CenturyIs(doe, n, q, s);
      QuartersIs(doe, n, q, s);
      var e := if 24 * n + q + s >= 1460 then 1 else 0;
      assert doe / 146096 == 0;
      assert doe - doe / 1460 + doe / 36524 - doe / 146096 == 365 * (100 * n + 4 * q) + (s - e);
      GroupFound(s, e, n, q);
    }
  }

  lemma CenturyIs(doe: int, n: int, q: int, s: int)
    requires 0 <= n <= 3 && 0 <= q <= 24 && 0 <= s <= 1460 && doe == 36524 * n + 1461 * q + s
    requires s == 1460 ==> q < 24 || n == 3
    requires doe < 146096
    ensures doe / 36524 == n
  {
  }

  lemma QuartersIs(doe: int, n: int, q: int, s: int)
    requires 0 <= n <= 3 && 0 <= q <= 24 && 0 <= s <= 1460 && doe == 36524 * n + 1461 * q + s
    ensures doe / 1460 == 25 * n + q + if 24 * n + q + s >= 1460 then 1 else 0
  {
    assert doe == 1460 * (25 * n + q) + (24 * n + q + s);
  }

  lemma GroupFound(s: int, e: int, n: int, q: int)
    requires 0 <= n <= 3 && 0 <= q <= 24 && 0 <= s <= 1460 && e == if 24 * n + q + s >= 1460 then 1 else 0
    ensures (365 * (100 * n + 4 * q) + (s - e)) / 365 == 100 * n + 4 * q + GroupYear(s)
  {
    var k, t := GroupYear(s), s - e;
    assert 365 * k <= t < 365 * k + 365;
  }

  /** Days of the era before its year y. */
  function YearStart(y: int): int { 365 * y + y / 4 - y / 100 }

  /** The day falls in the year found, and on its 366th day only before a leap February ends. */
  lemma DayOfYear(doe: int)
    requires 0 <= doe < 146097
    ensures var y := YearOfEra(doe); 0 <= y < 400 && 0 <= doe - YearStart(y) <= 365
    ensures var y := YearOfEra(doe); doe - YearStart(y) == 365 ==> IsLeap(y + 1)
  {
    hide YearOfEra;
    var n, q, s := SplitEra(doe);
    YearFound(doe, n, q, s);
    var k := GroupYear(s);
    var y := 100 * n + 4 * q + k;
    assert y / 4 == 25 * n + q && y / 100 == n;
    assert doe - YearStart(y) == s - 365 * k;
    if s == 1460 {
      LeapNext(n, q);
    }
  }

  lemma LeapNext(n: int, q: int)
    requires 0 <= n <= 3 && 0 <= q <= 24 && (q < 24 || n == 3)
    ensures IsLeap(100 * n + 4 * q + 4)
  {
    var y := 100 * n + 4 * q + 4;
    assert y % 4 == 0;
    if q < 24 {
      assert y % 100 == 4 * q + 4;
    } else {
      assert y == 400;
    }
  }

  // ----- inverse -----

  /** Leap years repeat with the era. */
  lemma LeapEra(y: int, era: int)
    ensures IsLeap(y + 400 * era) == IsLeap(y)
  {
    SameQuarter(y, era);
    SameCentury(y, era);
    SameEra(y, era);
  }

  lemma SameQuarter(y: int, era: int)
    ensures (y + 400 * era) % 4 == y % 4
  {
    assert (y + 400 * era) / 4 == y / 4 + 100 * era;
  }

  lemma SameCentury(y: int, era: int)
    ensures (y + 400 * era) % 100 == y % 100
  {
    assert (y + 400 * era) / 100 == y / 100 + 4 * era;
  }

  lemma SameEra(y: int, era: int)
    ensures (y + 400 * era) % 400 == y % 400
  {
    assert (y + 400 * era) / 400 == y / 400 + era;
  }

  /** Days from the epoch to the first of March of the era's year. */
  lemma DaysToMarch(y: int, era: int)
    requires 0 <= y < 400
    ensures var w := y + 400 * era;
            && DaysToYear(w) + (if IsLeap(w) then 60 else 59) == 146097 * era + YearStart(y) - 719468
            && DaysToYear(w + 1) == 146097 * era + YearStart(y) - 719468 + 306
  {
    hide DaysToYear, IsLeap;
    var w := y + 400 * era;
    DaysToYearIs(w);
    DaysToYearIs(w + 1);
    LeapStep(w);
    assert w / 4 == 100 * era + y / 4;
    assert w / 100 == 4 * era + y / 100;
    assert w / 400 == era;
  }

  /** Every day number becomes a valid date whose day number it is. */
  lemma CivilInverts(z: int)
    ensures Valid(WalletCivil(z)) && DayNumber(WalletCivil(z)) == z
  {
    hide YearOfEra, IsLeap, DaysToYear, DaysToMonth, YearStart;
    var z1 := z + 719468;
    var era, doe := z1 / 146097, z1 % 146097;
    DayOfYear(doe);
    var yoe := YearOfEra(doe);
    var doy := doe - YearStart(yoe);
    YearStartIs(yoe);
    MonthFound(doy);
    var mp := (5 * doy + 2) / 153;
    var d := doy - FromMarch(mp) + 1;
    var m := if mp < 10 then mp + 3 else mp - 9;
    var w := yoe + 400 * era;
    var c := Date(if m <= 2 then w + 1 else w, m, d);
    assert c == WalletCivil(z);
    LeapEra(yoe + 1, era);
    MonthValid(c.year, mp, d, doy);
    DaysToMarch(yoe, era);
    DaysToMonthIs(c.year, m);
  }

  lemma YearStartIs(y: int)
    ensures YearStart(y) == 365 * y + y / 4 - y / 100
  {
  }

  lemma MonthValid(y: int, mp: int, d: int, doy: int)
    requires 0 <= mp <= 11 && FromMarch(mp) <= doy < FromMarch(mp + 1) && 0 <= doy <= 365
             && d == doy - FromMarch(mp) + 1
    requires mp == 11 && doy == 365 ==> IsLeap(y)
    ensures 1 <= d <= MonthLength(y, if mp < 10 then mp + 3 else mp - 9)
  {
    if mp <= 10 {
      MarchSteps(y, mp);
    }
  }

  // ----- one date for each day -----

  lemma {:induction false} YearsRise(y: int, y2: int)
    requires y <= y2
    ensures DaysToYear(y2) - DaysToYear(y) >= 365 * (y2 - y)
    decreases y2 - y
  {
    hide IsLeap;
    if y < y2 {
      YearsRise(y, y2 - 1);
      YearStep(y2 - 1);
    }
  }

  lemma YearStep(y: int)
    ensures DaysToYear(y + 1) == DaysToYear(y) + YearLength(y)
  {
  }

  lemma {:induction false} MonthsRise(y: int, m: nat, m2: nat)
    requires 1 <= m < m2
    ensures DaysToMonth(y, m2) >= DaysToMonth(y, m) + MonthLength(y, m)
    decreases m2
  {
    hide IsLeap;
    if m < m2 - 1 {
      MonthsRise(y, m, m2 - 1);
    }
  }

  lemma WithinYear(c: Date)
    requires Valid(c)
    ensures DaysToYear(c.year) <= DayNumber(c) < DaysToYear(c.year + 1)
  {
    hide IsLeap, DaysToYear;
    DaysToMonthIs(c.year, c.month);
    DaysToMonthIs(c.year, 12);
    YearStep(c.year);
    if c.month < 12 {
      MonthsRise(c.year, c.month, 12);
    }
    assert FromMarch(9) == 275;
    MonthsPositive(c.year, c.month);
  }

  lemma {:induction false} MonthsPositive(y: int, m: nat)
    ensures DaysToMonth(y, m) >= 0
  {
    if m > 1 {
      MonthsPositive(y, m - 1);
    }
  }

  lemma DayNumberInjective(c: Date, e: Date)
    requires Valid(c) && Valid(e) && DayNumber(c) == DayNumber(e)
    ensures c == e
  {
    hide IsLeap, DaysToYear, DaysToMonth, MonthLength;
    WithinYear(c);
    WithinYear(e);
    if c.year < e.year {
      YearsRise(c.year + 1, e.year);
    } else if e.year < c.year {
      YearsRise(e.year + 1, c.year);
    }
    if c.month < e.month {
      MonthsRise(c.year, c.month, e.month);
    } else if e.month < c.month {
      MonthsRise(c.year, e.month, c.month);
    }
  }

  /** Every valid date comes back from its day number. */
  lemma CivilOfDay(c: Date)
    requires Valid(c)
    ensures CivilFromDays(DayNumber(c)) == c
  {
    hide CivilFromDays, WalletCivil, DayNumber, Valid;
    var z := DayNumber(c);
    VersionsAgree(z);
    CivilInverts(z);
    DayNumberInjective(WalletCivil(z), c);
  }

  lemma NextCounts(c: Date)
    requires Valid(c)
    ensures Valid(NextDay(c)) && DayNumber(NextDay(c)) == DayNumber(c) + 1
  {
    hide IsLeap, DaysToYear;
    DaysToMonthIs(c.year, 12);
    assert FromMarch(9) == 275;
    YearStep(c.year);
  }

  /** The day after is the next date. */
  lemma SuccessiveDates(z: int)
    ensures Valid(CivilFromDays(z)) && DayNumber(CivilFromDays(z)) == z
    ensures CivilFromDays(z + 1) == NextDay(CivilFromDays(z))
  {
    hide CivilFromDays, WalletCivil, DayNumber, Valid, NextDay;
    VersionsAgree(z);
    CivilInverts(z);
    NextCounts(CivilFromDays(z));
    CivilOfDay(NextDay(CivilFromDays(z)));
  }

  // ----- times of day -----

  datatype Stamp = Stamp(date: Date, hour: nat, minute: nat, second: nat)

  function StampOf(secs: nat): Stamp {
    var rem := secs % 86400;
    Stamp(CivilFromDays(secs / 86400), rem / 3600, (rem % 3600) / 60, rem % 60)
  }

  /** A stamp is a valid date and time, and names its second. */
  lemma StampInverts(secs: nat)
    ensures var t := StampOf(secs);
            && Valid(t.date) && t.hour < 24 && t.minute < 60 && t.second < 60
            && DayNumber(t.date) * 86400 + t.hour * 3600 + t.minute * 60 + t.second == secs
  {
    hide CivilFromDays, DayNumber, Valid;
    SuccessiveDates(secs / 86400);
    var rem := secs % 86400;
    assert rem % 60 == (rem % 3600) % 60;
  }
}
