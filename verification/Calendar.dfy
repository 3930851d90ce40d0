/** The proleptic Gregorian calendar in a fixed-offset zone, and the one-month step
    of the billing cycle with its month-end clamping. Months are counted by one
    index, 12 * year + month - 1; days are counted from 1 January 1970. */
module Calendar {
  const DAY_MS := 86_400_000

  predicate LeapYear(y: int) {
    y % 4 == 0 && (y % 100 != 0 || y % 400 == 0)
  }

  /** The length of a month, by the calendar's table. */
  function MonthLength(month: int): (n: int)
    ensures 28 <= n <= 31
  {
    match month % 12
    case 1 => if LeapYear(month / 12) then 29 else 28
    case 3 | 5 | 8 | 10 => 30
    case _ => 31
  }

  /** 29 Februaries before the year, up to a constant. */
  function LeapsBefore(y: int): int {
    (y - 1) / 4 - (y - 1) / 100 + (y - 1) / 400
  }

  /** Days of a common year before its month m (counting from 0). */
  function DaysBefore(m: int): int
    requires 0 <= m < 12
  {
    [0, 31, 59, 90, 120, 151, 181, 212, 243, 273, 304, 334][m]
  }

  /** The day number of the first of a month. */
  function FirstDay(month: int): int {
    var y, m := month / 12, month % 12;
    365 * (y - 1970) + LeapsBefore(y) - LeapsBefore(1970) + DaysBefore(m) + if m >= 2 && LeapYear(y) then 1 else 0
  }

  lemma LeapsStep(y: int)
    ensures LeapsBefore(y + 1) == LeapsBefore(y) + if LeapYear(y) then 1 else 0
  {
    var q, r := y / 400, y % 400;
    var c, d := r / 100, r % 100;
    assert y == 400 * q + 100 * c + d && 0 <= c < 4 && 0 <= d < 100;
    QuotientsOf(y, q, c, d);
    if d > 0 {
      QuotientsOf(y - 1, q, c, d - 1);
    } else if c > 0 {
      QuotientsOf(y - 1, q, c - 1, 99);
    } else {
      QuotientsOf(y - 1, q - 1, 3, 99);
    }
  }

  lemma QuotientsOf(y: int, q: int, c: int, d: int)
    requires y == 400 * q + 100 * c + d && 0 <= c < 4 && 0 <= d < 100
    ensures y / 400 == q && y / 100 == 4 * q + c && y / 4 == 100 * q + 25 * c + d / 4
    ensures y % 400 == 100 * c + d && y % 100 == d && y % 4 == d % 4
  {
  }

  /** Consecutive months abut: the day count and the table agree. */
  lemma MonthsAbut(month: int)
    ensures FirstDay(month + 1) == FirstDay(month) + MonthLength(month)
  {
    var y, m := month / 12, month % 12;
    if m == 11 {
      assert (month + 1) / 12 == y + 1 && (month + 1) % 12 == 0;
      LeapsStep(y);
    } else {
      assert (month + 1) / 12 == y && (month + 1) % 12 == m + 1;
    }
  }

  /** Day 0 is 1 January 1970, and 400 years are 146097 days. */
  lemma DayCountAnchors(month: int)
    ensures FirstDay(12 * 1970) == 0
    ensures FirstDay(month + 4800) == FirstDay(month) + 146_097
  {
    var y := month / 12;
    assert (month + 4800) / 12 == y + 400 && (month + 4800) % 12 == month % 12;
    assert (y + 399) / 4 == (y - 1) / 4 + 100 && (y + 399) / 100 == (y - 1) / 100 + 4;
    assert (y + 399) / 400 == (y - 1) / 400 + 1;
    assert LeapYear(y + 400) <==> LeapYear(y);
  }

  lemma {:induction false} FirstDayMonotone(a: int, b: int)
    requires a <= b
    ensures FirstDay(b) - FirstDay(a) >= 28 * (b - a)
    decreases b - a
  {
    hide FirstDay;
    if a < b {
      FirstDayMonotone(a, b - 1);
      MonthsAbut(b - 1);
    }
  }

  ghost predicate InMonth(day: int, month: int) {
    FirstDay(month) <= day < FirstDay(month + 1)
  }

  lemma {:induction false} SomeMonthContains(day: int, guess: int) returns (month: int)
    ensures InMonth(day, month)
    decreases if day < FirstDay(guess) then FirstDay(guess) - day + 31 else day - FirstDay(guess)
  {
    MonthsAbut(guess);
    MonthsAbut(guess - 1);
    hide FirstDay;
    if day < FirstDay(guess) {
      month := SomeMonthContains(day, guess - 1);
    } else if day >= FirstDay(guess + 1) {
      month := SomeMonthContains(day, guess + 1);
    } else {
      month := guess;
    }
  }

  lemma EveryDayHasAMonth(day: int)
    ensures exists month :: InMonth(day, month)
  {
    var month := SomeMonthContains(day, 12 * 1970);
  }

  /** The month containing a day; there is just one (MonthUnique). */
  ghost function MonthOf(day: int): (month: int)
    ensures InMonth(day, month)
  {
    EveryDayHasAMonth(day);
    var month :| InMonth(day, month);
    month
  }

  ghost function DayOfMonth(day: int): (d: int)
    ensures 1 <= d <= MonthLength(MonthOf(day))
  {
    MonthsAbut(MonthOf(day));
    day - FirstDay(MonthOf(day)) + 1
  }

  /** A day lies in one month only. */
  lemma MonthUnique(day: int, a: int, b: int)
    requires InMonth(day, a) && InMonth(day, b)
    ensures a == b
  {
    hide FirstDay;
    if a < b {
      FirstDayMonotone(a + 1, b);
    } else if b < a {
      FirstDayMonotone(b + 1, a);
    }
  }

  function LocalDay(ms: int, offset: int): int { (ms + offset) / DAY_MS }

  function TimeOfDay(ms: int, offset: int): (t: int)
    ensures 0 <= t < DAY_MS
  {
    (ms + offset) % DAY_MS
  }

  /** `time.Date`: the instant of a day of a month, the day counting past either end. */
  function DateMs(month: int, day: int, time: int, offset: int): int {
    (FirstDay(month) + day - 1) * DAY_MS + time - offset
  }

  /** `addMonthsMsIn` in a fixed-offset zone. */
  ghost function AddMonths(ms: int, n: int, offset: int): int {
    var local, time := LocalDay(ms, offset), TimeOfDay(ms, offset);
    var target := MonthOf(local) + n;
    var last := DayOfMonth(LocalDay(DateMs(target + 1, 0, time, offset), offset));
    var day := if DayOfMonth(local) > last then last else DayOfMonth(local);
    DateMs(target, day, time, offset)
  }

  lemma DateFields(month: int, day: int, time: int, offset: int)
    requires 0 <= time < DAY_MS
    ensures LocalDay(DateMs(month, day, time, offset), offset) == FirstDay(month) + day - 1
    ensures TimeOfDay(DateMs(month, day, time, offset), offset) == time
  {
    hide FirstDay;
    DivModUnique((FirstDay(month) + day - 1), time);
  }

  lemma DivModUnique(q: int, r: int)
    requires 0 <= r < DAY_MS
    ensures (q * DAY_MS + r) / DAY_MS == q && (q * DAY_MS + r) % DAY_MS == r
  {
  }

  function Min(a: int, b: int): int { if a <= b then a else b }

  /** Shifting by n months lands n months away, on the same day clamped to that
      month's length, at the same time of day. */
  lemma AddMonthsMeaning(ms: int, n: int, offset: int)
    ensures var r := AddMonths(ms, n, offset);
            var from := MonthOf(LocalDay(ms, offset));
            && MonthOf(LocalDay(r, offset)) == from + n
            && DayOfMonth(LocalDay(r, offset)) == Min(DayOfMonth(LocalDay(ms, offset)), MonthLength(from + n))
            && TimeOfDay(r, offset) == TimeOfDay(ms, offset)
  {
    var local, time := LocalDay(ms, offset), TimeOfDay(ms, offset);
    var target := MonthOf(local) + n;
    hide FirstDay, MonthLength, MonthOf;
    MonthsAbut(target);
    DateFields(target + 1, 0, time, offset);
    var eve := FirstDay(target + 1) - 1;
    MonthUnique(eve, target, MonthOf(eve));
    var day := Min(DayOfMonth(local), MonthLength(target));
    DateFields(target, day, time, offset);
    MonthUnique(FirstDay(target) + day - 1, target, MonthOf(FirstDay(target) + day - 1));
  }

  /** An instant is fixed by its month, day and time of day. */
  lemma FieldsDetermineInstant(a: int, b: int, offset: int)
    requires MonthOf(LocalDay(a, offset)) == MonthOf(LocalDay(b, offset))
    requires DayOfMonth(LocalDay(a, offset)) == DayOfMonth(LocalDay(b, offset))
    requires TimeOfDay(a, offset) == TimeOfDay(b, offset)
    ensures a == b
  {
    hide FirstDay, MonthOf;
  }

  /** One month forward or back is 28 to 31 days. */
  lemma OneMonthShift(ms: int, offset: int)
    ensures 28 * DAY_MS <= AddMonths(ms, 1, offset) - ms <= 31 * DAY_MS
    ensures 28 * DAY_MS <= ms - AddMonths(ms, -1, offset) <= 31 * DAY_MS
  {
    var from := MonthOf(LocalDay(ms, offset));
    AddMonthsMeaning(ms, 1, offset);
    AddMonthsMeaning(ms, -1, offset);
    MonthsAbut(from);
    MonthsAbut(from - 1);
    hide FirstDay, MonthOf, AddMonths, MonthLength;
  }

  /** Stepping back and forth returns to the start exactly when the day exists in
      the month passed through. */
  lemma BackAndForthIff(ms: int, n: int, offset: int)
    ensures AddMonths(AddMonths(ms, n, offset), -n, offset) == ms <==>
            DayOfMonth(LocalDay(ms, offset)) <= MonthLength(MonthOf(LocalDay(ms, offset)) + n)
  {
    AddMonthsMeaning(ms, n, offset);
    var there := AddMonths(ms, n, offset);
    AddMonthsMeaning(there, -n, offset);
    var back := AddMonths(there, -n, offset);
    hide FirstDay, MonthOf, AddMonths, MonthLength;
    if DayOfMonth(LocalDay(ms, offset)) <= MonthLength(MonthOf(LocalDay(ms, offset)) + n) {
      FieldsDetermineInstant(back, ms, offset);
    }
  }

  /** The shortest of the k months after a month, or 31 for none. */
  function Shortest(month: int, k: nat): int {
    if k == 0 then 31 else Min(Shortest(month, k - 1), MonthLength(month + k))
  }

  ghost function Iterate(ms: int, k: nat, offset: int): int {
    if k == 0 then ms else AddMonths(Iterate(ms, k - 1, offset), 1, offset)
  }

  /** k single steps land k months on, but the day stays clamped by the shortest month met. */
  lemma {:induction false} IterateMeaning(ms: int, k: nat, offset: int)
    ensures var r := Iterate(ms, k, offset);
            var from := MonthOf(LocalDay(ms, offset));
            && MonthOf(LocalDay(r, offset)) == from + k
            && DayOfMonth(LocalDay(r, offset)) == Min(DayOfMonth(LocalDay(ms, offset)), Shortest(from, k))
            && TimeOfDay(r, offset) == TimeOfDay(ms, offset)
  {
    hide FirstDay, MonthOf, AddMonths, MonthLength, DayOfMonth, LocalDay, TimeOfDay;
    if k > 0 {
      IterateMeaning(ms, k - 1, offset);
      AddMonthsMeaning(Iterate(ms, k - 1, offset), 1, offset);
    } else {
      var d := DayOfMonth(LocalDay(ms, offset));
    }
  }

  /** So k single steps are one k-month shift exactly when no month met on the way
      is shorter than both the day and the last month. */
  lemma StepsAreOneShiftIff(ms: int, k: nat, offset: int)
    ensures Iterate(ms, k, offset) == AddMonths(ms, k, offset) <==>
            (DayOfMonth(LocalDay(ms, offset)) <= Shortest(MonthOf(LocalDay(ms, offset)), k) ||
                Shortest(MonthOf(LocalDay(ms, offset)), k) == MonthLength(MonthOf(LocalDay(ms, offset)) + k))
  {
    IterateMeaning(ms, k, offset);
    AddMonthsMeaning(ms, k, offset);
    hide FirstDay, MonthOf, AddMonths, MonthLength, LocalDay, TimeOfDay;
    var a, b := Iterate(ms, k, offset), AddMonths(ms, k, offset);
    if DayOfMonth(LocalDay(a, offset)) == DayOfMonth(LocalDay(b, offset)) {
      FieldsDetermineInstant(a, b, offset);
    }
  }
}
