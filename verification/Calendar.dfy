/** Day numbers and calendar dates: the two conversions of the bridge, and the proleptic Gregorian
    calendar they are measured against. */
module Calendar {
  datatype Civil = Civil(y: int, m: int, d: int)

  /** Rust's `/` on integers: truncation towards zero. */
  function Quot(a: int, b: int): int
    requires b > 0
  {
    if a >= 0 then a / b else -(-a / b)
  }

  // --- the calendar, by its own rules ---------------------------------------------------------

  predicate IsLeap(y: int) {
    y % 4 == 0 && (y % 100 != 0 || y % 400 == 0)
  }

  function MonthLength(y: int, m: int): int {
    if m == 2 then (if IsLeap(y) then 29 else 28)
    else if m == 4 || m == 6 || m == 9 || m == 11 then 30
    else 31
  }

  predicate IsDate(c: Civil) {
    1 <= c.m <= 12 && 1 <= c.d <= MonthLength(c.y, c.m)
  }

  function NextDay(c: Civil): Civil {
    if c.d < MonthLength(c.y, c.m) then c.(d := c.d + 1)
    else if c.m < 12 then Civil(c.y, c.m + 1, 1)
    else Civil(c.y + 1, 1, 1)
  }

  function PreviousDay(c: Civil): Civil {
    if c.d > 1 then c.(d := c.d - 1)
    else if c.m > 1 then Civil(c.y, c.m - 1, MonthLength(c.y, c.m - 1))
    else Civil(c.y - 1, 12, 31)
  }

  // --- the two conversions --------------------------------------------------------------------

  function YearOfEra(doe: int): int {
    Quot(doe - Quot(doe, 1460) + Quot(doe, 36524) - Quot(doe, 146096), 365)
  }

  function CivilOfEra(era: int, doe: int): Civil {
    var yoe := YearOfEra(doe);
    var y := yoe + era * 400;
    var doy := doe - (365 * yoe + Quot(yoe, 4) - Quot(yoe, 100));
    var mp := Quot(5 * doy + 2, 153);
    var d := doy - Quot(153 * mp + 2, 5) + 1;
    var m := if mp < 10 then mp + 3 else mp - 9;
    Civil(if m <= 2 then y + 1 else y, m, d)
  }

  function EraOf(z: int): int {
    Quot(if z >= 0 then z else z - 146096, 146097)
  }

  function CivilFromDays(unixDays: int): Civil {
    var z := unixDays + 719468;
    CivilOfEra(EraOf(z), z - EraOf(z) * 146097)
  }

  function DaysFromCivil(c: Civil): int {
    var y := if c.m <= 2 then c.y - 1 else c.y;
    var era := Quot(if y >= 0 then y else y - 399, 400);
    var yoe := y - era * 400;
    var mp := if c.m > 2 then c.m - 3 else c.m + 9;
    var doy := Quot(153 * mp + 2, 5) + c.d - 1;
    var doe := yoe * 365 + Quot(yoe, 4) - Quot(yoe, 100) + doy;
    era * 146097 + doe - 719468
  }

  // --- March-based years ----------------------------------------------------------------------

  function MarchYear(c: Civil): int {
    if c.m <= 2 then c.y - 1 else c.y
  }

  function MarchMonth(c: Civil): int {
    if c.m > 2 then c.m - 3 else c.m + 9
  }

  function DayOfYear(c: Civil): int {
    (153 * MarchMonth(c) + 2) / 5 + c.d - 1
  }

  /** Days of a 400-year era before its year `yoe`. */
  function YearStart(yoe: int): int {
    365 * yoe + yoe / 4 - yoe / 100
  }

  /** The day number, with every quotient rounded down. */
  function DayNumber(c: Civil): int {
    MarchYear(c) / 400 * 146097 + YearStart(MarchYear(c) % 400) + DayOfYear(c) - 719468
  }

  lemma DaysByEra(c: Civil)
    requires IsDate(c)
    ensures DaysFromCivil(c) == DayNumber(c)
  {
    FloorFromQuot(MarchYear(c), 400);
  }

  lemma FloorFromQuot(a: int, b: int)
    requires b > 0
    ensures Quot(if a >= 0 then a else a - (b - 1), b) == a / b
  {
    if a < 0 {
      var n := -a + (b - 1);
      var q, r := n / b, n % b;
      assert a == b * -q + (b - 1 - r);
      Uniquely(a, b, -q, b - 1 - r);
    }
  }

  lemma Uniquely(a: int, b: int, q: int, r: int)
    requires a == b * q + r && 0 <= r < b
    ensures a / b == q && a % b == r
  {
    assert b * (a / b - q) == r - a % b;
    AtLeastOnce(b, a / b - q);
  }

  lemma AtLeastOnce(b: int, d: int)
    requires b > 0
    ensures d >= 1 ==> b * d >= b
    ensures d <= -1 ==> b * d <= -b
  {
  }

  lemma DayOfYearRange(c: Civil)
    requires IsDate(c)
    ensures 0 <= DayOfYear(c) <= 365
    ensures DayOfYear(c) == 365 ==> IsLeap(MarchYear(c) + 1)
    ensures (5 * DayOfYear(c) + 2) / 153 == MarchMonth(c)
  {
    match c.m
    case 1 => case 2 => case 3 => case 4 => case 5 => case 6 => case 7 => case 8 => case 9 => case 10 => case 11 =>
    case _ => assert c.m == 12;
  }

  /** The year-of-era formula on century `c`, four-year cycle `q` and year `r`: the leap day, day
      365, only belongs to leap years. */
  lemma YearFormula(c: int, q: int, r: int, doy: int)
    requires 0 <= c < 4 && 0 <= q < 25 && 0 <= r < 4 && 0 <= doy <= 365
    requires doy == 365 ==> r == 3 && (q == 24 ==> c == 3)
    ensures var doe := 36524 * c + 1461 * q + 365 * r + doy;
      0 <= doe < 146097 && YearOfEra(doe) == 100 * c + 4 * q + r
  {
    var doe, low := 36524 * c + 1461 * q + 365 * r + doy, 24 * c + q + 365 * r + doy;
    var leap, last := if low >= 1460 then 1 else 0, if doe == 146096 then 1 else 0;
    Uniquely(doe, 1460, 25 * c + q + leap, low - 1460 * leap);
    Uniquely(doe, 36524, c + last, doe - 36524 * (c + last));
    Uniquely(doe, 146096, last, doe - 146096 * last);
    Uniquely(365 * (100 * c + 4 * q + r) + (doy - leap), 365, 100 * c + 4 * q + r, doy - leap);
  }

  lemma YearOfEraFinds(yoe: int, doy: int)
    requires 0 <= yoe < 400 && 0 <= doy <= 365
    requires doy == 365 ==> IsLeap(yoe + 1)
    ensures 0 <= YearStart(yoe) + doy < 146097
    ensures YearOfEra(YearStart(yoe) + doy) == yoe
  {
    var c, n := yoe / 100, yoe % 100;
    var q, r := n / 4, n % 4;
    Uniquely(yoe, 4, 25 * c + q, r);
    YearFormula(c, q, r, doy);
  }

  /** The number of day `doy` of March-based year `yoe` of an era, and the date that stands there. */
  function Place(era: int, yoe: int, doy: int): int {
    era * 146097 + (YearStart(yoe) + doy) - 719468
  }

  function DateAt(era: int, yoe: int, doy: int): Civil {
    var mp := (5 * doy + 2) / 153;
    Civil(
      era * 400 + yoe + (if mp < 10 then 0 else 1),
      if mp < 10 then mp + 3 else mp - 9,
      doy - (153 * mp + 2) / 5 + 1)
  }

  lemma EraFinds(era: int, doe: int)
    requires 0 <= doe < 146097
    ensures EraOf(era * 146097 + doe) == era
  {
    FloorFromQuot(era * 146097 + doe, 146097);
    Uniquely(era * 146097 + doe, 146097, era, doe);
  }

  lemma CivilInEra(n: int, era: int, doe: int)
    requires EraOf(n + 719468) == era && n + 719468 == era * 146097 + doe
    ensures CivilFromDays(n) == CivilOfEra(era, doe)
  {
  }

  lemma DateInEra(era: int, yoe: int, doy: int, doe: int)
    requires 0 <= yoe < 400 && 0 <= doy <= 365 && doe == YearStart(yoe) + doy && YearOfEra(doe) == yoe
    ensures CivilOfEra(era, doe) == DateAt(era, yoe, doy)
  {
  }

  lemma CivilFromPlace(era: int, yoe: int, doy: int, n: int)
    requires 0 <= yoe < 400 && 0 <= doy <= 365 && n == Place(era, yoe, doy)
    requires doy == 365 ==> IsLeap(yoe + 1)
    ensures CivilFromDays(n) == DateAt(era, yoe, doy)
  {
    var doe := YearStart(yoe) + doy;
    YearOfEraFinds(yoe, doy);
    EraFinds(era, doe);
    CivilInEra(n, era, doe);
    DateInEra(era, yoe, doy, doe);
  }

  lemma PlaceOf(c: Civil) returns (era: int, yoe: int, doy: int)
    requires IsDate(c)
    ensures 0 <= yoe < 400 && 0 <= doy <= 365 && (doy == 365 ==> IsLeap(yoe + 1))
    ensures DaysFromCivil(c) == Place(era, yoe, doy) && DateAt(era, yoe, doy) == c
  {
    era, yoe, doy := MarchYear(c) / 400, MarchYear(c) % 400, DayOfYear(c);
    DaysByEra(c);
    DayOfYearRange(c);
    LeapInEra(MarchYear(c) + 1);
  }

  lemma CivilOfDays(c: Civil)
    requires IsDate(c)
    ensures CivilFromDays(DaysFromCivil(c)) == c
  {
    var era, yoe, doy := PlaceOf(c);
    CivilFromPlace(era, yoe, doy, DaysFromCivil(c));
  }

  lemma LeapInEra(y: int)
    ensures IsLeap(y) == IsLeap((y - 1) % 400 + 1)
  {
    var era, yoe := (y - 1) / 400, (y - 1) % 400;
    var n := yoe + 1;
    assert y == 400 * era + n;
    Uniquely(y, 4, 100 * era + n / 4, n % 4);
    Uniquely(y, 100, 4 * era + n / 100, n % 100);
    Uniquely(y, 400, era + n / 400, n % 400);
  }

  // --- successive days ------------------------------------------------------------------------

  lemma MonthStarts(c: Civil)
    requires IsDate(c) && c.m != 2
    ensures (153 * (MarchMonth(c) + 1) + 2) / 5 == (153 * MarchMonth(c) + 2) / 5 + MonthLength(c.y, c.m)
  {
  }

  lemma NextYearInEra(yoe: int)
    requires 0 <= yoe < 399
    ensures YearStart(yoe + 1) == YearStart(yoe) + (if IsLeap(yoe + 1) then 366 else 365)
  {
    NextQuotient(yoe, 4);
    NextQuotient(yoe, 100);
    assert (yoe + 1) % 400 != 0;
  }

  lemma NextQuotient(n: int, b: int)
    requires b > 1
    ensures (n + 1) / b == n / b + if (n + 1) % b == 0 then 1 else 0
  {
    if n % b == b - 1 {
      Uniquely(n + 1, b, n / b + 1, 0);
    } else {
      Uniquely(n + 1, b, n / b, n % b + 1);
    }
  }

  /** A year is 365 days, and one more when the February at its end has a leap day. */
  lemma NextYearStarts(y: int)
    ensures (y + 1) / 400 * 146097 + YearStart((y + 1) % 400)
      == y / 400 * 146097 + YearStart(y % 400) + (if IsLeap(y + 1) then 366 else 365)
  {
    var era, yoe := y / 400, y % 400;
    LeapInEra(y + 1);
    if yoe == 399 {
      Uniquely(y + 1, 400, era + 1, 0);
    } else {
      Uniquely(y + 1, 400, era, yoe + 1);
      NextYearInEra(yoe);
    }
  }

  /** Over the end of February: the next March-based year. */
  lemma FebruaryEnds(c: Civil)
    requires IsDate(c) && c.m == 2 && c.d == MonthLength(c.y, 2)
    ensures DayNumber(Civil(c.y, 3, 1)) == DayNumber(c) + 1
  {
    NextYearStarts(c.y - 1);
  }

  /** Over the end of any other month, the year's included: the same March-based year. */
  lemma MonthEnds(c: Civil)
    requires IsDate(c) && c.m != 2 && c.d == MonthLength(c.y, c.m)
    ensures MarchYear(NextDay(c)) == MarchYear(c) && DayOfYear(NextDay(c)) == DayOfYear(c) + 1
  {
    MonthStarts(c);
    assert MarchMonth(NextDay(c)) == MarchMonth(c) + 1;
  }

  lemma SameYear(c: Civil, next: Civil)
    requires MarchYear(next) == MarchYear(c) && DayOfYear(next) == DayOfYear(c) + 1
    ensures DayNumber(next) == DayNumber(c) + 1
  {
  }

  lemma NextDayIsNextNumber(c: Civil)
    requires IsDate(c)
    ensures IsDate(NextDay(c)) && DayNumber(NextDay(c)) == DayNumber(c) + 1
  {
    hide DayNumber;
    if c.d < MonthLength(c.y, c.m) {
      SameYear(c, NextDay(c));
    } else if c.m == 2 {
      FebruaryEnds(c);
    } else {
      MonthEnds(c);
      SameYear(c, NextDay(c));
    }
  }

  lemma PreviousThenNext(c: Civil)
    requires IsDate(c)
    ensures IsDate(PreviousDay(c)) && NextDay(PreviousDay(c)) == c
  {
  }

  lemma NextThenPrevious(c: Civil)
    requires IsDate(c)
    ensures PreviousDay(NextDay(c)) == c
  {
  }

  /** A numbering of dates with a left inverse, and a walk along them; kept apart from this calendar
      so that the induction does not see its arithmetic. */
  datatype Walk = Walk(
    dateOf: int -> Civil, numberOf: Civil -> int,
    isDate: Civil -> bool, next: Civil -> Civil, previous: Civil -> Civil)
  {
    ghost predicate StepsAt(c: Civil) {
      isDate(c) ==>
        && dateOf(numberOf(c)) == c
        && isDate(next(c)) && numberOf(next(c)) == numberOf(c) + 1
        && isDate(previous(c)) && next(previous(c)) == c
    }

    lemma {:induction false} ReachesEveryNumber(epoch: Civil, n: int)
      requires isDate(epoch) && numberOf(epoch) == 0 && forall c :: StepsAt(c)
      ensures isDate(dateOf(n)) && numberOf(dateOf(n)) == n && dateOf(n + 1) == next(dateOf(n))
      decreases if n >= 0 then n else -n
    {
      var c := epoch;
      if n > 0 {
        ReachesEveryNumber(epoch, n - 1);
        assert StepsAt(dateOf(n - 1));
        c := next(dateOf(n - 1));
      } else if n < 0 {
        ReachesEveryNumber(epoch, n + 1);
        assert StepsAt(dateOf(n + 1));
        c := previous(dateOf(n + 1));
      }
      assert StepsAt(c) && StepsAt(next(c));
    }
  }

  lemma Stepping(c: Civil)
    requires IsDate(c)
    ensures CivilFromDays(DaysFromCivil(c)) == c && IsDate(NextDay(c))
    ensures DaysFromCivil(NextDay(c)) == DaysFromCivil(c) + 1
  {
    CivilOfDays(c);
    NextDayIsNextNumber(c);
    DaysByEra(c);
    DaysByEra(NextDay(c));
  }

  const GREGORIAN := Walk(CivilFromDays, DaysFromCivil, c => IsDate(c), NextDay, PreviousDay)

  lemma GregorianSteps(c: Civil)
    ensures GREGORIAN.StepsAt(c)
  {
    if IsDate(c) {
      Stepping(c);
      PreviousThenNext(c);
    }
  }

  lemma EpochIsDayZero()
    ensures IsDate(Civil(1970, 1, 1)) && DaysFromCivil(Civil(1970, 1, 1)) == 0
  {
  }

  /** Every integer is the number of exactly the date that the conversion gives, and consecutive
      integers are successive dates of the calendar, from the epoch on in both directions. */
  lemma DaysOfCivil(n: int)
    ensures IsDate(CivilFromDays(n)) && DaysFromCivil(CivilFromDays(n)) == n
    ensures CivilFromDays(n + 1) == NextDay(CivilFromDays(n))
    ensures CivilFromDays(0) == Civil(1970, 1, 1)
  {
    hide DaysFromCivil, CivilFromDays, NextDay, PreviousDay, IsDate;
    EpochIsDayZero();
    CivilOfDays(Civil(1970, 1, 1));
    forall c ensures GREGORIAN.StepsAt(c) {
      GregorianSteps(c);
    }
    GREGORIAN.ReachesEveryNumber(Civil(1970, 1, 1), n);
  }

  lemma AlwaysADate(n: int)
    ensures IsDate(CivilFromDays(n))
  {
    DaysOfCivil(n);
  }

  /** The parser's check, within its own ranges: what survives the round trip is a real date. */
  lemma RoundTripAcceptsDates(c: Civil)
    requires 1 <= c.m <= 12 && 1 <= c.d <= 31
    ensures CivilFromDays(DaysFromCivil(c)) == c <==> IsDate(c)
  {
    if IsDate(c) {
      CivilOfDays(c);
    } else {
      DaysOfCivil(DaysFromCivil(c));
    }
  }
}
