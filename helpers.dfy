/**
 * The calendar, random-draw and formatting helpers of the diary generator
 * (utils/helpers.ts).
 *
 * A calendar date is a day number: the number of days since 1 January 1970,
 * which was a Thursday. `Math.random()` is an oracle: a stream of draws in
 * [0, 1), of which the i-th call receives the i-th element.
 */
module Helpers {
  import opened Strings

  /** A calendar date, as a count of days since 1970-01-01. */
  type Day = int

  /** Day of the week as `Date.prototype.getDay` numbers it: 0 is Sunday, 6 is Saturday. */
  function DayOfWeek(d: Day): (w: int)
    ensures 0 <= w < 7
  {
    (d + 4) % 7
  }

  /** `isWeekend`: Saturday or Sunday. */
  predicate IsWeekend(d: Day) {
    DayOfWeek(d) == 0 || DayOfWeek(d) == 6
  }

  /** `isMondayOrFriday`: the days on which the head of department inspects. */
  predicate IsMondayOrFriday(d: Day) {
    DayOfWeek(d) == 1 || DayOfWeek(d) == 5
  }

  /**
   * An inspection day is never a weekend day, and two weekend days in a row
   * are a Saturday followed by a Sunday, with weekdays on either side.
   */
  lemma WeekFacts(d: Day)
    ensures IsMondayOrFriday(d) ==> !IsWeekend(d)
    ensures IsWeekend(d) && IsWeekend(d + 1) ==>
              DayOfWeek(d) == 6 && DayOfWeek(d + 1) == 0 && !IsWeekend(d - 1) && !IsWeekend(d + 2)
    ensures IsWeekend(d) <==> IsWeekend(d + 7)
  {
    var w := DayOfWeek(d);
    assert DayOfWeek(d + 1) == if w == 6 then 0 else w + 1;
    assert DayOfWeek(d + 2) == if w >= 5 then w - 5 else w + 2;
    assert DayOfWeek(d - 1) == if w == 0 then 6 else w - 1;
    assert DayOfWeek(d + 7) == w;
  }

  /** `getDatesInRange`: every date from `start` to `end` inclusive, one day apart. */
  function DatesInRange(start: Day, end: Day): (ds: seq<Day>)
    ensures |ds| == if start <= end then end - start + 1 else 0
    ensures forall i :: 0 <= i < |ds| ==> ds[i] == start + i
    decreases end - start
  {
    if start > end then [] else [start] + DatesInRange(start + 1, end)
  }

  /** The loop of `getDatesInRange`: push the current date, step one day, until past `end`. */
  method GetDatesInRange(start: Day, end: Day) returns (dates: seq<Day>)
    ensures dates == DatesInRange(start, end)
  {
    dates := [];
    var curr := start;
    while curr <= end
      invariant start <= end ==> start <= curr <= end + 1
      invariant start > end ==> curr == start
      invariant |dates| == curr - start
      invariant forall i :: 0 <= i < |dates| ==> dates[i] == start + i
      decreases end - curr
    {
      dates := dates + [curr];
      curr := curr + 1;
    }
  }

  // ---------------------------------------------------------------------
  // Civil dates and formatDate

  /** A proleptic Gregorian calendar date. */
  datatype Civil = Civil(year: int, month: int, day: int)

  /**
   * The calendar date of a day number. Days are counted in 400-year eras
   * that begin on 1 March, so that the leap day closes a year: an era is
   * three centuries of 36524 days and one of 36525, a century is four-year
   * cycles of 1461 days (the last one of 1460 unless the century closes the
   * era), and a cycle is three years of 365 days and one of 366.
   */
  function CivilFromDays(d: Day): (c: Civil)
    ensures 1 <= c.month <= 12 && 1 <= c.day <= 31
  {
    var z := d + 719468;                       // days since 0000-03-01
    CivilInEra(400 * (z / 146097), z % 146097)
  }

  /** The date `doe` days into the era that begins on 1 March of `year`: three centuries of 36524 days, then one of 36525. */
  function CivilInEra(year: int, doe: int): (c: Civil)
    requires 0 <= doe < 146097
    ensures 1 <= c.month <= 12 && 1 <= c.day <= 31
  {
    if doe < 36524 then CivilInCentury(year, doe)
    else if doe < 2 * 36524 then CivilInCentury(year + 100, doe - 36524)
    else if doe < 3 * 36524 then CivilInCentury(year + 200, doe - 2 * 36524)
    else CivilInCentury(year + 300, doe - 3 * 36524)
  }

  /** The date `r` days into the century that begins on 1 March of `year`. */
  function CivilInCentury(year: int, r: int): (c: Civil)
    requires 0 <= r <= 36524
    ensures 1 <= c.month <= 12 && 1 <= c.day <= 31
  {
    var quad := r / 1461;
    CivilInCycle(year + 4 * quad, r - 1461 * quad)
  }

  /** The date `r` days into the four-year cycle that begins on 1 March of `year`: three years of 365 days, then one of 366. */
  function CivilInCycle(year: int, r: int): (c: Civil)
    requires 0 <= r <= 1460
    ensures 1 <= c.month <= 12 && 1 <= c.day <= 31
  {
    if r < 365 then CivilInYear(year, r)
    else if r < 2 * 365 then CivilInYear(year + 1, r - 365)
    else if r < 3 * 365 then CivilInYear(year + 2, r - 2 * 365)
    else CivilInYear(year + 3, r - 3 * 365)
  }

  /** The date `doy` days after 1 March of `year`; January and February belong to the next year. */
  function CivilInYear(year: int, doy: int): (c: Civil)
    requires 0 <= doy <= 365
    ensures 1 <= c.month <= 12 && 1 <= c.day <= 31
  {
    var mp := (5 * doy + 2) / 153;             // month, 0 = March
    var day := doy - (153 * mp + 2) / 5 + 1;
    var month := if mp < 10 then mp + 3 else mp - 9;
    Civil(if month <= 2 then year + 1 else year, month, day)
  }

  /** `formatDate`: the date as `DD.MM.YYYY`, day and month zero-padded to two digits. */
  function FormatDate(d: Day): string {
    FormatCivil(CivilFromDays(d))
  }

  function FormatCivil(c: Civil): string {
    PadStart2(IntToString(c.day)) + "." + PadStart2(IntToString(c.month)) + "." + IntToString(c.year)
  }

  /** The formatted date reads back as the day, month and year of the date. */
  lemma FormatDateFields(d: Day)
    ensures var s, c := FormatDate(d), CivilFromDays(d);
            |s| >= 7 && s[2] == '.' && s[5] == '.' && AllDigits(s[..2]) && AllDigits(s[3..5])
            && ParseNat(s[..2]) == c.day && ParseNat(s[3..5]) == c.month && s[6..] == IntToString(c.year)
  {
    FormatCivilFields(CivilFromDays(d));
  }

  lemma FormatCivilFields(c: Civil)
    requires 1 <= c.month <= 12 && 1 <= c.day <= 31
    ensures var s := FormatCivil(c);
            |s| >= 7 && s[2] == '.' && s[5] == '.' && AllDigits(s[..2]) && AllDigits(s[3..5])
            && ParseNat(s[..2]) == c.day && ParseNat(s[3..5]) == c.month && s[6..] == IntToString(c.year)
  {
    TwoDigits(c.day);
    TwoDigits(c.month);
    DottedFields(PadStart2(IntToString(c.day)), PadStart2(IntToString(c.month)), IntToString(c.year));
  }

  // ---------------------------------------------------------------------
  // Random draws and vitals

  /** The resolution of `Math.random()`: its values are multiples of 2^-53. */
  const Resolution: nat := 0x20_0000_0000_0000

  /** A value of `Math.random()`, `u / 2^53` in [0, 1), by its numerator `u`. */
  type Unit = u: int | 0 <= u < Resolution

  /** The successive values of `Math.random()`: the i-th call returns the i-th draw. */
  type Rng = nat -> Unit

  /**
   * `getRandomInt(min, max)`: the floor of the exact product `u * (max - min + 1)`,
   * plus `min`, for the draw `u`.
   * Callers pass `min <= max`; a reversed range still gives what the formula
   * gives, a value in `(max, min]`.
   */
  function RandomInt(min: int, max: int, u: Unit): (r: int)
    ensures min <= max ==> min <= r <= max
    ensures max < min ==> max < r <= min
  {
    ScaledBelow(u, max - min + 1);
    Scaled(u, max - min + 1) + min
  }

  /**
   * The floor of the exact product `u * n`, the draw `u` read as a fraction of `Resolution`; the
   * division by the positive `Resolution` rounds down, as `Math.floor` does,
   * also when `n` is negative.
   */
  function Scaled(u: Unit, n: int): int {
    if n > 0 then Times(u, n) / 0x20_0000_0000_0000
    else if n == 0 then 0
    else (0 - Times(u, -n) as int) / 0x20_0000_0000_0000
  }

  /** `u * n`, as `n` additions of `u`. */
  function Times(u: nat, n: nat): nat {
    if n == 0 then 0 else Times(u, n - 1) + u
  }

  lemma {:induction false} TimesIsProduct(u: nat, n: nat)
    ensures Times(u, n) == u * n
  {
    if n > 0 {
      TimesIsProduct(u, n - 1);
    }
  }

  lemma ScaledBelow(u: Unit, n: int)
    ensures n > 0 ==> 0 <= Scaled(u, n) < n
    ensures n < 0 ==> n <= Scaled(u, n) <= 0
  {
    if n > 0 {
      TimesIsProduct(u, n);
      ProductBelow(u, Resolution, n);
      QuotientBelow(u * n, Resolution, n);
    } else if n < 0 {
      TimesIsProduct(u, -n);
      ProductBelow(u, Resolution, -n);
      NegativeQuotient(u * -n, Resolution, -n);
    }
  }

  lemma NegativeQuotient(p: int, r: int, m: int)
    requires r > 0 && 0 <= p < r * m
    ensures -m <= (0 - p) / r <= 0
  {
    var q, rem := (0 - p) / r, (0 - p) % r;
    assert 0 - p == q * r + rem && 0 <= rem < r;
    if q > 0 {
      ProductSign(q, r);
    }
    if q < -m {
      ProductSign(q + m, r);
    }
  }

  lemma ProductSign(a: int, b: int)
    requires b > 0
    ensures a > 0 ==> a * b >= b
    ensures a < 0 ==> a * b <= -b
  {
  }


  lemma ProductBelow(a: nat, b: int, n: int)
    requires a < b && n > 0
    ensures a * n < b * n
  {
    assert (b - a) * n > 0;
  }

  lemma QuotientBelow(p: nat, r: int, n: int)
    requires r > 0 && p < r * n
    ensures 0 <= p / r < n
  {
    var q := p / r;
    assert q * r <= p;
  }

  /**
   * Every integer of the range is drawn by some value of `Math.random()`, as
   * long as the range has no more values than there are draws.
   */
  lemma RandomIntCovers(min: int, max: int, r: int)
    requires min <= r <= max && max - min < Resolution
    ensures exists u: Unit :: RandomInt(min, max, u) == r
  {
    var u := ScaledHits(r - min, max - min + 1);
    assert RandomInt(min, max, u) == r;
  }

  /** A draw `u` that `Scaled(u, n)` sends to `j`: the least multiple of 1/n of the resolution at or above `j / n`. */
  lemma ScaledHits(j: nat, n: nat) returns (u: Unit)
    requires j < n <= Resolution
    ensures Scaled(u, n) == j
  {
    var p := j * Resolution + n - 1;
    var v := p / n;
    assert v * n <= p < v * n + n;
    assert j * Resolution <= (n - 1) * Resolution by {
      ProductMonotone(j, n - 1, Resolution);
    }
    ProductBelowBound(v, n, Resolution);
    u := v;
    TimesIsProduct(u, n);
    QuotientExact(u * n, Resolution, j);
  }

  lemma ProductMonotone(a: nat, b: nat, c: nat)
    requires a <= b
    ensures a * c <= b * c
  {
    assert (b - a) * c >= 0;
  }

  /** A product below `r * n` has a first factor below `r`. */
  lemma ProductBelowBound(v: nat, n: nat, r: nat)
    requires n > 0 && v * n < r * n
    ensures v < r
  {
    if v >= r {
      ProductMonotone(r, v, n);
    }
  }

  lemma QuotientExact(p: nat, r: int, j: nat)
    requires r > 0 && j * r <= p < j * r + r
    ensures p / r == j
  {
    var q := p / r;
    assert q * r <= p < q * r + r;
    if q < j {
      ProductMonotone(q + 1, j, r);
    } else if q > j {
      ProductMonotone(j + 1, q, r);
    }
  }

  /** `getRandomElement(arr)`: the element at the floor of the exact product `u * arr.length`. */
  function RandomElement(arr: seq<int>, u: Unit): (r: int)
    requires |arr| > 0
    ensures r in arr
  {
    ScaledBelow(u, |arr|);
    arr[Scaled(u, |arr|)]
  }

  /** Every element of the array is picked by some value of `Math.random()`. */
  lemma RandomElementCovers(arr: seq<int>, i: nat)
    requires i < |arr| <= Resolution
    ensures exists u: Unit :: RandomElement(arr, u) == arr[i]
  {
    var u := ScaledHits(i, |arr|);
    assert RandomElement(arr, u) == arr[i];
  }

  const SystolicValues: seq<int> := [120, 125, 130]
  const DiastolicValues: seq<int> := [80, 85, 90]

  /** One reading of the vital signs; the temperature is in tenths of a degree Celsius. */
  datatype Vitals = Vitals(systolic: int, diastolic: int, heartRate: int, respiratoryRate: int, temperature: int)
  {
    /** The `bloodPressure` string, `"systolic/diastolic"`. */
    function BloodPressure(): string {
      IntToString(systolic) + "/" + IntToString(diastolic)
    }
  }

  /** The documented ranges of a generated reading. */
  predicate Plausible(v: Vitals) {
    && v.systolic in {120, 125, 130}
    && v.diastolic in {80, 85, 90}
    && 60 <= v.heartRate <= 78
    && 16 <= v.respiratoryRate <= 18
    && 362 <= v.temperature <= 368
  }

  /**
   * `generateVitals`, consuming the five draws `rng(k)` .. `rng(k + 4)` in the
   * order of the source: systolic, diastolic, heart rate, respiratory rate,
   * temperature (36.0 plus a random number of tenths between 2 and 8).
   */
  function GenerateVitals(rng: Rng, k: nat): (v: Vitals)
    ensures v.systolic in {120, 125, 130} && v.diastolic in {80, 85, 90}
    ensures 60 <= v.heartRate <= 78 && 16 <= v.respiratoryRate <= 18
    ensures 362 <= v.temperature <= 368
  {
    var sys := RandomElement(SystolicValues, rng(k));
    var dia := RandomElement(DiastolicValues, rng(k + 1));
    var hr := RandomInt(60, 78, rng(k + 2));
    var rr := RandomInt(16, 18, rng(k + 3));
    Vitals(sys, dia, hr, rr, 360 + RandomInt(2, 8, rng(k + 4)))
  }

  /** The index of `x` in a three-element array that holds it. */
  function IndexOf3(arr: seq<int>, x: int): (i: nat)
    requires |arr| == 3 && x in arr
    ensures i < 3 && arr[i] == x
  {
    if arr[0] == x then 0 else if arr[1] == x then 1 else 2
  }

  /** Every reading within the documented ranges is generated by some five draws. */
  lemma GenerateVitalsCovers(v: Vitals)
    requires Plausible(v)
    ensures exists rng: Rng :: GenerateVitals(rng, 0) == v
  {
    var u0 := ScaledHits(IndexOf3(SystolicValues, v.systolic), 3);
    var u1 := ScaledHits(IndexOf3(DiastolicValues, v.diastolic), 3);
    var u2 := ScaledHits(v.heartRate - 60, 19);
    var u3 := ScaledHits(v.respiratoryRate - 16, 3);
    var u4 := ScaledHits(v.temperature - 362, 7);
    var rng: Rng := i => if i == 0 then u0 else if i == 1 then u1 else if i == 2 then u2 else if i == 3 then u3 else u4;
    assert GenerateVitals(rng, 0) == v;
  }

  // ---------------------------------------------------------------------
  // formatTime

  /** The default `minuteVariation` of `formatTime`. */
  const DefaultMinuteVariation := 30

  /**
   * `formatTime(hour, minuteVariation)`: the hour and a random minute in
   * [0, minuteVariation] (for a non-negative variation), each `toString`-ed and padded to two digits, joined by ':'.
   */
  function FormatTime(hour: int, minuteVariation: int, u: Unit): string {
    PadStart2(IntToString(hour)) + ":" + PadStart2(IntToString(RandomInt(0, minuteVariation, u)))
  }

  /**
   * For an hour and a variation below 100 the time is five characters `HH:MM`:
   * HH reads back as the hour and MM as a minute between 0 and the variation.
   */
  lemma FormatTimeShape(hour: int, minuteVariation: int, u: Unit)
    requires 0 <= hour < 100 && 0 <= minuteVariation < 100
    ensures var t := FormatTime(hour, minuteVariation, u);
            |t| == 5 && t[2] == ':' && AllDigits(t[..2]) && AllDigits(t[3..])
            && ParseNat(t[..2]) == hour && ParseNat(t[3..]) <= minuteVariation
  {
    var m := RandomInt(0, minuteVariation, u);
    TwoDigits(hour);
    TwoDigits(m);
    var hh := PadStart2(IntToString(hour));
    var mm := PadStart2(IntToString(m));
    var t := hh + ":" + mm;
    assert t[..2] == hh && t[3..] == mm;
  }
}
