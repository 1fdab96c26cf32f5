/** Seconds since the Unix epoch as a date and a time of day, by the loader's
    arithmetic, against the calendar as everyone counts it. */
module Civil {
  // ---- The calendar ----------------------------------------------------------

  predicate IsLeap(year: nat) { year % 4 == 0 && (year % 100 != 0 || year % 400 == 0) }

  function DaysInMonth(year: nat, month: nat): nat {
    if month == 2 then (if IsLeap(year) then 29 else 28)
    else if month == 4 || month == 6 || month == 9 || month == 11 then 30
    else 31
  }

  function DaysInYear(year: nat): nat { if IsLeap(year) then 366 else 365 }

  /** Days from the first of January 1970 to the first of January `year`. */
  function YearStart(year: nat): nat {
    if year <= 1970 then 0 else YearStart(year - 1) + DaysInYear(year - 1)
  }

  /** Days from the first of January to the first of `month`. */
  function MonthStart(year: nat, month: nat): nat {
    if month <= 1 then 0 else MonthStart(year, month - 1) + DaysInMonth(year, month - 1)
  }

  datatype Date = Date(year: nat, month: nat, day: nat)

  predicate Valid(d: Date) {
    d.year >= 1970 && 1 <= d.month <= 12 && 1 <= d.day <= DaysInMonth(d.year, d.month)
  }

  function DayNumber(d: Date): int { YearStart(d.year) + MonthStart(d.year, d.month) + d.day - 1 }

  /** The day after. */
  function After(d: Date): Date {
    if d.day < DaysInMonth(d.year, d.month) then d.(day := d.day + 1)
    else if d.month < 12 then Date(d.year, d.month + 1, 1)
    else Date(d.year + 1, 1, 1)
  }

  // ---- The arithmetic --------------------------------------------------------

  /** Days in the whole years of an era before its year `yoe`, years beginning
      in March. */
  function EraDays(yoe: nat): nat { 365 * yoe + yoe / 4 - yoe / 100 }

  /** Which year of its era day `doe` is in. */
  function YearOfEra(doe: nat): nat {
    (doe - doe / 1460 + doe / 36524 - doe / 146096) / 365
  }

  /** Day `doe` is day `s` of a four-year run, after `j` such runs of a century,
      after `c` centuries. The quotient by 1460 is late by one where the run's
      extra day is, and nowhere it matters. */
  lemma WithinCentury(doe: nat, c: nat, j: nat, s: nat)
    requires c <= 3 && j <= 24 && s < 1461 && 1461 * j + s < 36524 && doe == 36524 * c + 1461 * j + s
    ensures var m := if s == 1460 then 3 else s / 365;
            YearOfEra(doe) == 100 * c + 4 * j + m
  {
    var e := if j + s + 24 * c >= 1460 then 1 else 0;
    assert doe == 1460 * (25 * c + j + e) + (24 * c + j + s - 1460 * e);
    assert doe / 1460 == 25 * c + j + e;
    assert doe / 36524 == c;
    assert doe / 146096 == 0;
    assert doe - doe / 1460 + doe / 36524 - doe / 146096 == 365 * (100 * c + 4 * j) + (s - e);
  }

  /** The formula finds the year the day is in, and a year's 366th day only in
      a year whose February, the next calendar year's, has 29. */
  lemma YearOfEraOk(doe: nat)
    requires doe < 146097
    ensures var yoe := YearOfEra(doe);
            yoe < 400 && EraDays(yoe) <= doe && doe - EraDays(yoe) <= 365
            && (doe - EraDays(yoe) == 365 ==> IsLeap(yoe + 1))
  {
    if doe == 146096 {
      assert YearOfEra(doe) == 399 && EraDays(399) == 145731;
    } else {
      var c := doe / 36524;
      var r := doe - 36524 * c;
      var j := r / 1461;
      WithinCentury(doe, c, j, r - 1461 * j);
      YearHolds(c, j, r - 1461 * j);
    }
  }

  lemma YearHolds(c: nat, j: nat, s: nat)
    requires c <= 3 && j <= 24 && s < 1461 && 1461 * j + s < 36524
    ensures var m := if s == 1460 then 3 else s / 365; var yoe := 100 * c + 4 * j + m;
            && yoe < 400 && EraDays(yoe) + (s - 365 * m) == 36524 * c + 1461 * j + s
            && s - 365 * m <= 365 && (s - 365 * m == 365 ==> IsLeap(yoe + 1))
  {
    var m := if s == 1460 then 3 else s / 365;
    var yoe := 100 * c + 4 * j + m;
    assert m <= 3;
    assert yoe / 4 == 25 * c + j && yoe / 100 == c;
    if s == 1460 {
      assert (yoe + 1) % 4 == 0 && (yoe + 1) % 100 == 4 * j + 4;
    }
  }

  // ---- Months, counted from March --------------------------------------------

  function MonthFromMarch(doy: nat): nat { (5 * doy + 2) / 153 }

  function DayOfMonth(doy: nat): int { doy - (153 * MonthFromMarch(doy) + 2) / 5 + 1 }

  function MarchMonth(mp: nat): int { if mp < 10 then mp + 3 else mp - 9 }

  /** The months from March on, and how long each is, February's the year's
      last. `year` is the one January and February fall in. */
  lemma MonthsOk(doy: nat, year: nat)
    requires doy <= 365 && (doy == 365 ==> IsLeap(year)) && year > 0
    ensures var mp := MonthFromMarch(doy); var month := MarchMonth(mp);
            var y := if month <= 2 then year else year - 1;
            && mp < 12 && 1 <= month <= 12
            && 1 <= DayOfMonth(doy) <= DaysInMonth(y, month)
            && (month <= 2 ==> MonthStart(y, month) + DayOfMonth(doy) - 1 == doy - 306)
            && (month > 2 ==> MonthStart(y, month) + DayOfMonth(doy) - 1 == doy + 59 + if IsLeap(y) then 1 else 0)
  {
    MonthStarts(year);
    MonthStarts(year - 1);
    var mp := MonthFromMarch(doy);
    if mp <= 5 { } else { }
  }

  lemma MonthStarts(y: nat)
    ensures var f := if IsLeap(y) then 1 else 0;
            && MonthStart(y, 1) == 0 && MonthStart(y, 2) == 31 && MonthStart(y, 3) == 59 + f
            && MonthStart(y, 4) == 90 + f && MonthStart(y, 5) == 120 + f && MonthStart(y, 6) == 151 + f
            && MonthStart(y, 7) == 181 + f && MonthStart(y, 8) == 212 + f && MonthStart(y, 9) == 243 + f
            && MonthStart(y, 10) == 273 + f && MonthStart(y, 11) == 304 + f && MonthStart(y, 12) == 334 + f
  {
    assert MonthStart(y, 3) == MonthStart(y, 2) + DaysInMonth(y, 2);
    assert MonthStart(y, 5) == MonthStart(y, 4) + 30;
    assert MonthStart(y, 7) == MonthStart(y, 6) + 30;
    assert MonthStart(y, 9) == MonthStart(y, 8) + 31;
    assert MonthStart(y, 11) == MonthStart(y, 10) + 31;
  }

  // ---- Years -----------------------------------------------------------------

  /** Days from the first of March of the year 0 to the first of March of
      `year`. */
  function MarchStart(year: nat): nat { 365 * year + year / 4 - year / 100 + year / 400 }

  lemma MarchStep(year: nat)
    ensures MarchStart(year + 1) == MarchStart(year) + DaysInYear(year + 1)
  {
    Fours(year);
    Hundreds(year);
    FourHundreds(year);
  }

  lemma Fours(n: nat)
    ensures (n + 1) / 4 == n / 4 + if (n + 1) % 4 == 0 then 1 else 0
  {
  }

  lemma Hundreds(n: nat)
    ensures (n + 1) / 100 == n / 100 + if (n + 1) % 100 == 0 then 1 else 0
    ensures (n + 1) % 100 == 0 ==> (n + 1) % 4 == 0
  {
  }

  lemma FourHundreds(n: nat)
    ensures (n + 1) / 400 == n / 400 + if (n + 1) % 400 == 0 then 1 else 0
    ensures (n + 1) % 400 == 0 ==> (n + 1) % 100 == 0
  {
  }

  /** The count from 1970 in closed form. */
  lemma {:induction false} YearStartClosed(year: nat)
    requires year >= 1970
    ensures YearStart(year) + 719162 == MarchStart(year - 1)
  {
    if year == 1970 {
      assert MarchStart(1969) == 719162;
    } else {
      YearStartClosed(year - 1);
      MarchStep(year - 2);
    }
  }

  lemma {:induction false} MarchRises(a: nat, b: nat)
    requires a <= b
    ensures MarchStart(a) + (b - a) <= MarchStart(b)
    decreases b
  {
    if a < b {
      MarchRises(a, b - 1);
      MarchStep(b - 1);
    }
  }

  lemma EraIsYears(era: nat, yoe: nat)
    requires yoe < 400
    ensures MarchStart(400 * era + yoe) == 146097 * era + EraDays(yoe)
  {
    var y := 400 * era + yoe;
    assert y / 4 == 100 * era + yoe / 4;
    assert y / 100 == 4 * era + yoe / 100;
    assert y / 400 == era;
  }

  // ---- `utc` -------------------------------------------------------------------

  datatype Utc = Utc(date: Date, hour: nat, minute: nat, second: nat)

  /** The date of a day count; no subtraction in it goes below zero. */
  function DateOf(days: nat): (d: Date)
    ensures Valid(d) && DayNumber(d) == days
  {
    var z := days + 719468;
    var era, doe := z / 146097, z % 146097;
    var yoe := YearOfEra(doe);
    YearOfEraOk(doe);
    var doy: nat := doe - (365 * yoe + yoe / 4 - yoe / 100);
    var year := yoe + era * 400;
    Leaps(era, yoe);
    MonthsOk(doy, year + 1);
    var mp := MonthFromMarch(doy);
    var day: nat := DayOfMonth(doy);
    var month: nat := MarchMonth(mp);
    DateCounts(days, era, yoe, doy, month, day);
    Date(year + if month <= 2 then 1 else 0, month, day)
  }

  lemma Leaps(era: nat, yoe: nat)
    requires yoe < 400
    ensures IsLeap(yoe + 1) <==> IsLeap(yoe + era * 400 + 1)
  {
    var y := yoe + 1;
    Laps(y, era * 100, 4);
    Laps(y, era * 4, 100);
    Laps(y, era, 400);
  }

  lemma Laps(y: nat, n: nat, k: nat)
    requires k == 4 || k == 100 || k == 400
    ensures (y + n * k) % k == y % k
  {
    if k == 4 { } else if k == 100 { } else { }
  }

  /** From 1970 on, years in March or later of 1969's own are behind. */
  lemma NotBefore(year: nat, doy: nat)
    requires MarchStart(year) + doy >= 719468 && doy <= 365
    ensures year >= 1969 && (doy < 306 ==> year >= 1970)
  {
    assert MarchStart(1969) == 719162;
  }

  lemma DateCounts(days: nat, era: nat, yoe: nat, doy: nat, month: nat, day: nat)
    requires yoe < 400 && days + 719468 == 146097 * era + EraDays(yoe) + doy && doy <= 365
    requires 1 <= month <= 12 && (month > 2 ==> doy < 306)
    requires var year := yoe + era * 400;
             && (month <= 2 ==> MonthStart(year + 1, month) + day - 1 == doy - 306)
             && (month > 2 ==> MonthStart(year, month) + day - 1 == doy + 59 + if IsLeap(year) then 1 else 0)
    ensures var year := yoe + era * 400 + if month <= 2 then 1 else 0;
            year >= 1970 && DayNumber(Date(year, month, day)) == days
  {
    var year := yoe + era * 400;
    hide MarchStart, MonthStart, IsLeap, EraDays;
    EraIsYears(era, yoe);
    NotBefore(year, doy);
    YearStartClosed(year + 1);
    assert year >= 1970 ==> YearStart(year + 1) == YearStart(year) + DaysInYear(year);
  }

  // ---- Dates are a count and nothing else --------------------------------------

  lemma {:induction false} MonthsRise(y: nat, a: nat, b: nat)
    requires 1 <= a <= b
    ensures MonthStart(y, a) <= MonthStart(y, b)
    ensures a < b ==> MonthStart(y, a) + DaysInMonth(y, a) <= MonthStart(y, b)
    decreases b
  {
    if a < b { MonthsRise(y, a, b - 1); }
  }

  lemma {:induction false} YearsRise(a: nat, b: nat)
    requires 1970 <= a <= b
    ensures YearStart(a) <= YearStart(b)
    ensures a < b ==> YearStart(a) + DaysInYear(a) <= YearStart(b)
    decreases b
  {
    if a < b { YearsRise(a, b - 1); }
  }

  lemma WithinYear(d: Date)
    requires Valid(d)
    ensures YearStart(d.year) <= DayNumber(d) < YearStart(d.year) + DaysInYear(d.year)
  {
    MonthStarts(d.year);
    MonthsRise(d.year, d.month, 12);
  }

  /** Two dates with one number are one date. */
  lemma OneDate(d: Date, e: Date)
    requires Valid(d) && Valid(e) && DayNumber(d) == DayNumber(e)
    ensures d == e
  {
    WithinYear(d);
    WithinYear(e);
    if d.year < e.year { YearsRise(d.year, e.year); }
    if e.year < d.year { YearsRise(e.year, d.year); }
    if d.month < e.month { MonthsRise(d.year, d.month, e.month); }
    if e.month < d.month { MonthsRise(d.year, e.month, d.month); }
  }

  lemma AfterCounts(d: Date)
    requires Valid(d)
    ensures Valid(After(d)) && DayNumber(After(d)) == DayNumber(d) + 1
  {
    MonthStarts(d.year);
  }

  /** The formula inverts the calendar both ways, and a day later is the next
      date. */
  lemma DateIsTheCalendars(days: nat, d: Date)
    requires Valid(d)
    ensures DateOf(days) == d <==> DayNumber(d) == days
    ensures DateOf(days + 1) == After(DateOf(days))
  {
    if DayNumber(d) == days { OneDate(d, DateOf(days)); }
    AfterCounts(DateOf(days));
    OneDate(After(DateOf(days)), DateOf(days + 1));
  }

  /** The time of day counts the seconds into the date. */
  lemma UtcCounts(secs: nat)
    ensures var u := UtcOf(secs);
            && u.hour < 24 && u.minute < 60 && u.second < 60
            && 86400 * DayNumber(u.date) + 3600 * u.hour + 60 * u.minute + u.second == secs
  {
    var rest := secs % 86400;
    var within := rest % 3600;
    assert rest == 60 * (60 * (rest / 3600) + within / 60) + within % 60;
    assert rest % 60 == within % 60;
    hide DayNumber, DateOf;
  }

  function UtcOf(secs: nat): Utc {
    var rest := secs % 86400;
    Utc(DateOf(secs / 86400), rest / 3600, rest % 3600 / 60, rest % 60)
  }
}
