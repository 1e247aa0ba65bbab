/**
 * The arithmetic of the WeekCalendar component: calendar dates and their
 * weekdays, the start of the displayed week, the seven displayed days, the
 * time slots, the labels, the picked value and the selected cell.  A date
 * is modelled by its local calendar fields, as the component reads them
 * (getFullYear, getMonth + 1, getDate, getHours, getMinutes).
 */
module WeekCalendar {
  import opened Wrappers
  import opened Text
  import opened Clock

  /** A day of the proleptic Gregorian calendar; `month` counts from 1. */
  datatype Civil = Civil(year: int, month: nat, day: nat)

  predicate Leap(y: int) {
    y % 4 == 0 && (y % 100 != 0 || y % 400 == 0)
  }

  function DaysInMonth(y: int, m: nat): (n: nat)
    requires 1 <= m <= 12
    ensures 28 <= n <= 31
    ensures m == 2 ==> n == (if Leap(y) then 29 else 28)
  {
    if m == 2 then (if Leap(y) then 29 else 28)
    else if m == 4 || m == 6 || m == 9 || m == 11 then 30
    else 31
  }

  predicate ValidCivil(c: Civil) {
    1 <= c.month <= 12 && 1 <= c.day <= DaysInMonth(c.year, c.month)
  }

  /** Strictly earlier, comparing year, then month, then day. */
  predicate Before(c: Civil, c': Civil) {
    c.year < c'.year || (c.year == c'.year && (c.month < c'.month || (c.month == c'.month && c.day < c'.day)))
  }

  /** The following day. */
  function NextDay(c: Civil): (n: Civil)
    requires ValidCivil(c)
    ensures ValidCivil(n) && Before(c, n)
  {
    if c.day < DaysInMonth(c.year, c.month) then c.(day := c.day + 1)
    else if c.month < 12 then Civil(c.year, c.month + 1, 1)
    else Civil(c.year + 1, 1, 1)
  }

  /** The preceding day. */
  function PrevDay(c: Civil): (p: Civil)
    requires ValidCivil(c)
    ensures ValidCivil(p) && Before(p, c)
  {
    if c.day > 1 then c.(day := c.day - 1)
    else if c.month > 1 then Civil(c.year, c.month - 1, DaysInMonth(c.year, c.month - 1))
    else Civil(c.year - 1, 12, 31)
  }

  lemma NextThenPrev(c: Civil)
    requires ValidCivil(c)
    ensures PrevDay(NextDay(c)) == c
  {
  }

  lemma PrevThenNext(c: Civil)
    requires ValidCivil(c)
    ensures NextDay(PrevDay(c)) == c
  {
  }

  /** `addDays`: `n` days later (earlier when `n` is negative). */
  function AddDays(c: Civil, n: int): (r: Civil)
    requires ValidCivil(c)
    ensures ValidCivil(r)
    decreases if n < 0 then -n else n
  {
    if n == 0 then c
    else if n > 0 then AddDays(NextDay(c), n - 1)
    else AddDays(PrevDay(c), n + 1)
  }

  /** The month offsets of Sakamoto's weekday formula. */
  function MonthOffset(m: nat): (k: nat)
    requires 1 <= m <= 12
    ensures k < 7
  {
    if m == 1 then 0 else if m == 2 then 3 else if m == 3 then 2 else if m == 4 then 5
    else if m == 5 then 0 else if m == 6 then 3 else if m == 7 then 5 else if m == 8 then 1
    else if m == 9 then 4 else if m == 10 then 6 else if m == 11 then 2 else 4
  }

  /** The days the years up to `y` shift the weekday by, up to multiples of 7: one per year and one more per leap year. */
  function YearBase(y: int): int {
    y + y / 4 - y / 100 + y / 400
  }

  /** The weekday of day `d` of month `m` in a year whose base is `base`. */
  function WeekdayOf(base: int, m: nat, d: nat): (w: nat)
    requires 1 <= m <= 12
    ensures w < 7
  {
    (base + MonthOffset(m) + d) % 7
  }

  /** `getDay()`: 0 for Sunday up to 6 for Saturday (Sakamoto's formula, January and February counted with the year before). */
  function Weekday(c: Civil): (w: nat)
    requires 1 <= c.month <= 12
    ensures w < 7
  {
    WeekdayOf(YearBase(if c.month < 3 then c.year - 1 else c.year), c.month, c.day)
  }

  lemma DivStep4(y: int)
    ensures y / 4 - (y - 1) / 4 == (if y % 4 == 0 then 1 else 0)
  {
  }

  lemma DivStep100(y: int)
    ensures y / 100 - (y - 1) / 100 == (if y % 100 == 0 then 1 else 0)
  {
  }

  lemma DivStep400(y: int)
    ensures y / 400 - (y - 1) / 400 == (if y % 400 == 0 then 1 else 0)
  {
  }

  lemma Divides(y: int)
    ensures y % 400 == 0 ==> y % 100 == 0
    ensures y % 100 == 0 ==> y % 4 == 0
  {
    if y % 400 == 0 {
      assert y == 400 * (y / 400);
      assert y == 100 * (4 * (y / 400));
    }
    if y % 100 == 0 {
      assert y == 100 * (y / 100);
      assert y == 4 * (25 * (y / 100));
    }
  }

  /** The year `y` shifts the weekday by one, and by two when it is a leap year. */
  lemma YearBaseStep(y: int)
    ensures YearBase(y) == YearBase(y - 1) + 1 + (if Leap(y) then 1 else 0)
  {
    DivStep4(y);
    DivStep100(y);
    DivStep400(y);
    Divides(y);
  }

  /** One day later within a month. */
  lemma DayStepOf(base: int, m: nat, d: nat)
    requires 1 <= m <= 12
    ensures WeekdayOf(base, m, d + 1) == (WeekdayOf(base, m, d) + 1) % 7
  {
  }

  /** The end of a month other than February, and the first of the next one, in the same base. */
  lemma MonthStartOf(base: int, m: nat, dim: nat)
    requires 1 <= m <= 12 && m != 2
    requires dim == (if m == 1 then 31 else DaysInMonth(0, m))
    ensures WeekdayOf(base, if m == 12 then 1 else m + 1, 1) == (WeekdayOf(base, m, dim) + 1) % 7
  {
    var next := if m == 12 then 1 else m + 1;
    MonthOffsetNext(m, dim);
    ModNext(base, MonthOffset(m) + dim, MonthOffset(next));
  }

  /** Sakamoto's offsets: a month's offset plus its length gives the next month's offset, modulo 7. */
  lemma MonthOffsetNext(m: nat, dim: nat)
    requires 1 <= m <= 12 && m != 2
    requires dim == (if m == 1 then 31 else DaysInMonth(0, m))
    ensures (MonthOffset(m) + dim) % 7 == MonthOffset(if m == 12 then 1 else m + 1)
  {
  }

  lemma ModNext(base: int, a: int, b: int)
    requires a % 7 == b
    ensures (base + b + 1) % 7 == ((base + a) % 7 + 1) % 7
  {
  }

  /** The end of February, counted with the year before, and the first of March; `leap` is 1 in a leap year. */
  lemma MarchFirstOf(base: int, leap: nat)
    requires leap <= 1
    ensures WeekdayOf(base + 1 + leap, 3, 1) == (WeekdayOf(base, 2, 28 + leap) + 1) % 7
  {
  }

  /** The weekday of the first of March follows that of the last of February. */
  lemma WeekdayMarchFirst(y: int)
    ensures Weekday(Civil(y, 3, 1)) == (Weekday(Civil(y, 2, DaysInMonth(y, 2))) + 1) % 7
  {
    var b, leap := YearBase(y - 1), if Leap(y) then 1 else 0;
    YearBaseStep(y);
    assert DaysInMonth(y, 2) == 28 + leap;
    MarchFirstOf(b, leap);
    assert Weekday(Civil(y, 3, 1)) == WeekdayOf(b + 1 + leap, 3, 1);
    assert Weekday(Civil(y, 2, 28 + leap)) == WeekdayOf(b, 2, 28 + leap);
  }

  /** The move to the first of any other month. */
  lemma WeekdayMonthStart(c: Civil)
    requires ValidCivil(c) && c.day == DaysInMonth(c.year, c.month) && c.month != 2
    ensures Weekday(NextDay(c)) == (Weekday(c) + 1) % 7
  {
    MonthStartOf(YearBase(if c.month < 3 then c.year - 1 else c.year), c.month, c.day);
  }

  /** The weekday advances by one each day. */
  lemma WeekdayNext(c: Civil)
    requires ValidCivil(c)
    ensures Weekday(NextDay(c)) == (Weekday(c) + 1) % 7
  {
    if c.day < DaysInMonth(c.year, c.month) {
      DayStepOf(YearBase(if c.month < 3 then c.year - 1 else c.year), c.month, c.day);
    } else {
      if c.month == 2 {
        WeekdayMarchFirst(c.year);
      } else {
        WeekdayMonthStart(c);
      }
    }
  }

  lemma WeekdayPrev(c: Civil)
    requires ValidCivil(c)
    ensures Weekday(c) == (Weekday(PrevDay(c)) + 1) % 7
  {
    WeekdayNext(PrevDay(c));
    PrevThenNext(c);
  }

  /** Moving by `n` days moves the weekday by `n`, modulo 7. */
  lemma {:induction false} WeekdayAdd(c: Civil, n: int)
    requires ValidCivil(c)
    ensures Weekday(AddDays(c, n)) == (Weekday(c) + n) % 7
    decreases if n < 0 then -n else n, 1
  {
    if n > 0 {
      WeekdayAddForward(c, n);
    } else if n < 0 {
      WeekdayAddBackward(c, n);
    }
  }

  /** The forward step of WeekdayAdd. */
  lemma {:induction false} WeekdayAddForward(c: Civil, n: int)
    requires ValidCivil(c) && n > 0
    ensures Weekday(AddDays(c, n)) == (Weekday(c) + n) % 7
    decreases n, 0
  {
    var c' := NextDay(c);
    WeekdayAdd(c', n - 1);
    assert AddDays(c, n) == AddDays(c', n - 1);
    WeekdayNext(c);
    ShiftMod(Weekday(c), Weekday(NextDay(c)), n - 1);
  }

  /** The backward step of WeekdayAdd. */
  lemma {:induction false} WeekdayAddBackward(c: Civil, n: int)
    requires ValidCivil(c) && n < 0
    ensures Weekday(AddDays(c, n)) == (Weekday(c) + n) % 7
    decreases -n, 0
  {
    WeekdayAdd(PrevDay(c), n + 1);
    WeekdayPrev(c);
    ShiftMod(Weekday(PrevDay(c)), Weekday(c), n);
  }

  /** When `w'` follows `w`, adding `n` to `w'` is adding `n + 1` to `w`, modulo 7. */
  lemma ShiftMod(w: int, w': int, n: int)
    requires w' == (w + 1) % 7
    ensures (w' + n) % 7 == (w + n + 1) % 7
  {
  }

  /** One more day after `n` days is the day after. */
  lemma {:induction false} AddDaysSucc(c: Civil, n: nat)
    requires ValidCivil(c)
    ensures AddDays(c, n + 1) == NextDay(AddDays(c, n))
    decreases n
  {
    if n > 0 {
      AddDaysSucc(NextDay(c), n - 1);
    }
  }

  /** Going back `n` days and forward `n` days returns to the start. */
  lemma {:induction false} AddDaysBack(c: Civil, n: nat)
    requires ValidCivil(c)
    ensures AddDays(AddDays(c, -(n as int)), n) == c
    decreases n
  {
    if n > 0 {
      AddDaysBack(PrevDay(c), n - 1);
      assert AddDays(c, -(n as int)) == AddDays(PrevDay(c), -(n as int - 1));
      AddDaysSucc(AddDays(c, -(n as int)), n - 1);
      assert AddDays(AddDays(c, -(n as int)), n) == NextDay(AddDays(AddDays(c, -(n as int)), n - 1));
      AddDaysSuccBack(c, n);
    }
  }

  /** The step of AddDaysBack: `n` days forward from `n` days back is one day after `n - 1` days forward from `n` days back. */
  lemma AddDaysSuccBack(c: Civil, n: nat)
    requires ValidCivil(c) && n > 0
    requires AddDays(AddDays(PrevDay(c), -(n as int - 1)), n - 1) == PrevDay(c)
    requires AddDays(c, -(n as int)) == AddDays(PrevDay(c), -(n as int - 1))
    ensures NextDay(AddDays(AddDays(c, -(n as int)), n - 1)) == c
  {
    PrevThenNext(c);
  }

  /** Later by a positive number of days is strictly later. */
  lemma {:induction false} AddDaysLater(c: Civil, n: nat)
    requires ValidCivil(c) && n > 0
    ensures Before(c, AddDays(c, n))
    decreases n
  {
    if n > 1 {
      AddDaysLater(NextDay(c), n - 1);
    }
  }

  /** A local date and time, with the fields the component reads and sets. */
  datatype DateTime = DateTime(date: Civil, hour: nat, minute: nat, second: nat, millisecond: nat)

  predicate ValidDateTime(d: DateTime) {
    ValidCivil(d.date) && d.hour < 24 && d.minute < 60 && d.second < 60 && d.millisecond < 1000
  }

  /** `startOfDay`. */
  function StartOfDay(d: DateTime): (r: DateTime)
    ensures r.date == d.date && r.hour == 0 && r.minute == 0 && r.second == 0 && r.millisecond == 0
  {
    DateTime(d.date, 0, 0, 0, 0)
  }

  /** `addDays` on a date and time: the time of day is kept. */
  function AddDaysAt(d: DateTime, n: int): (r: DateTime)
    requires ValidDateTime(d)
    ensures ValidDateTime(r) && r.date == AddDays(d.date, n)
    ensures r.hour == d.hour && r.minute == d.minute && r.second == d.second && r.millisecond == d.millisecond
  {
    d.(date := AddDays(d.date, n))
  }

  /**
   * `(day - weekStartsOn + 7) % 7`: how many days back the week started.
   * The left operand is never negative, so the truncating `%` of the source
   * and the one here agree.
   */
  function WeekOffset(today: DateTime, weekStartsOn: nat): (k: nat)
    requires ValidDateTime(today) && weekStartsOn <= 1
    ensures k < 7 && k == (Weekday(today.date) - weekStartsOn + 7) % 7
  {
    (Weekday(today.date) - weekStartsOn + 7) % 7
  }

  /** Going back the offset lands on the weekday the week starts on. */
  lemma OffsetMod(w: nat, weekStartsOn: nat, k: nat)
    requires w < 7 && weekStartsOn <= 1 && k == (w - weekStartsOn + 7) % 7
    ensures (w - k) % 7 == weekStartsOn
  {
  }

  /** `getWeekStart`. */
  function WeekStart(today: DateTime, weekStartsOn: nat): (r: DateTime)
    requires ValidDateTime(today) && weekStartsOn <= 1
    ensures ValidDateTime(r)
  {
    StartOfDay(AddDaysAt(today, -(WeekOffset(today, weekStartsOn) as int)))
  }

  /**
   * The week starts at midnight of a day that falls on `weekStartsOn`, at
   * most six days before `today`: going forward the offset from it reaches today's date.
   */
  lemma WeekStartIsRight(today: DateTime, weekStartsOn: nat)
    requires ValidDateTime(today) && weekStartsOn <= 1
    ensures var s := WeekStart(today, weekStartsOn);
            && Weekday(s.date) == weekStartsOn
            && s.hour == 0 && s.minute == 0 && s.second == 0 && s.millisecond == 0
            && AddDays(s.date, WeekOffset(today, weekStartsOn)) == today.date
  {
    var k := WeekOffset(today, weekStartsOn);
    var start := AddDays(today.date, -(k as int));
    assert WeekStart(today, weekStartsOn).date == start;
    WeekdayAdd(today.date, -(k as int));
    OffsetMod(Weekday(today.date), weekStartsOn, k);
    assert Weekday(start) == weekStartsOn;
    AddDaysBack(today.date, k);
  }

  /** `days`: the seven days from the anchor. */
  function Days(anchor: DateTime): (days: seq<DateTime>)
    requires ValidDateTime(anchor)
    ensures |days| == 7
    ensures forall i :: 0 <= i < 7 ==> days[i] == AddDaysAt(anchor, i)
  {
    seq(7, i requires 0 <= i < 7 => AddDaysAt(anchor, i))
  }

  /** The days follow one another from the anchor, and are all different. */
  lemma DaysConsecutive(anchor: DateTime, i: nat, j: nat)
    requires ValidDateTime(anchor) && i < j < 7
    ensures Days(anchor)[0] == anchor
    ensures j == i + 1 ==> Days(anchor)[j].date == NextDay(Days(anchor)[i].date)
    ensures Before(Days(anchor)[i].date, Days(anchor)[j].date)
  {
    AddDaysSucc(anchor.date, i);
    AddDaysCompose(anchor.date, i, j - i);
    AddDaysLater(AddDays(anchor.date, i), j - i);
  }

  /** `m` days after `n` days (both forward) is `n + m` days. */
  lemma {:induction false} AddDaysCompose(c: Civil, n: nat, m: nat)
    requires ValidCivil(c)
    ensures AddDays(AddDays(c, n), m) == AddDays(c, n + m)
    decreases n
  {
    if n > 0 {
      AddDaysCompose(NextDay(c), n - 1, m);
    }
  }

  /** One row of the grid: an hour and a minute. */
  datatype Slot = Slot(hour: int, minute: nat)

  /** Strictly earlier in the day. */
  predicate SlotBefore(a: Slot, b: Slot) {
    a.hour < b.hour || (a.hour == b.hour && a.minute < b.minute)
  }

  /** The slots of hour `h` from minute `m` on, every `step` minutes. */
  function HourSlots(h: int, m: nat, step: nat): (s: seq<Slot>)
    requires step > 0
    ensures forall i :: 0 <= i < |s| ==> s[i].hour == h && m <= s[i].minute < 60
    ensures forall i, j :: 0 <= i < j < |s| ==> s[i].minute < s[j].minute
    decreases 60 - m
  {
    if m >= 60 then [] else [Slot(h, m)] + HourSlots(h, m + step, step)
  }

  /** The slots of the hours `start` up to (not including) `h`, in the order the loops push them. */
  function SlotsUpTo(start: int, h: int, step: nat): (s: seq<Slot>)
    requires step > 0
    ensures forall i :: 0 <= i < |s| ==> start <= s[i].hour < h && s[i].minute < 60
    ensures forall i, j :: 0 <= i < j < |s| ==> SlotBefore(s[i], s[j])
    decreases h - start
  {
    if h <= start then [] else SlotsUpTo(start, h - 1, step) + HourSlots(h - 1, 0, step)
  }

  /** The inner loop `for (m = 0; m < 60; m += slotMinutes)` for hour `h`. */
  method HourLoop(h: int, step: nat, res0: seq<Slot>) returns (res: seq<Slot>)
    requires step > 0
    ensures res == res0 + HourSlots(h, 0, step)
  {
    res := res0;
    var m: nat := 0;
    while m < 60
      invariant res0 + HourSlots(h, 0, step) == res + HourSlots(h, m, step)
      decreases 60 - m
    {
      res := res + [Slot(h, m)];
      m := m + step;
    }
  }

  /** `slots`: the nested loops over the hours of the range and the minutes of each hour. */
  method Slots(start: int, end: int, step: nat) returns (res: seq<Slot>)
    requires step > 0
    ensures res == SlotsUpTo(start, end, step)
  {
    res := [];
    var h := start;
    while h < end
      invariant h <= end || h == start
      invariant res == SlotsUpTo(start, h, step)
      decreases end - h
    {
      res := HourLoop(h, step, res);
      h := h + 1;
    }
    if h > end {
      assert SlotsUpTo(start, end, step) == [] == SlotsUpTo(start, h, step);
    }
  }

  /** The slot lengths the component accepts. */
  predicate SlotLength(step: nat) {
    step == 15 || step == 30 || step == 60
  }

  /** From a multiple `m` of the step on, an hour has `(60 - m) / step` slots. */
  lemma {:induction false} HourSlotsCount(h: int, m: nat, step: nat)
    requires SlotLength(step) && m <= 60 && m % step == 0
    ensures |HourSlots(h, m, step)| == (60 - m) / step
    decreases 60 - m
  {
    if m < 60 {
      HourSlotsCount(h, m + step, step);
    }
  }

  /** Exactly the multiples of the step from `m` on, below 60, are slots of the hour. */
  lemma {:induction false} HourSlotsMembers(h: int, m: nat, step: nat, x: Slot)
    requires SlotLength(step) && m % step == 0
    ensures x in HourSlots(h, m, step) <==> x.hour == h && m <= x.minute < 60 && x.minute % step == 0
    decreases 60 - m
  {
    if m < 60 {
      HourSlotsMembers(h, m + step, step, x);
    }
  }

  /** The range has `60 / slotMinutes` slots per hour. */
  lemma {:induction false} SlotsCount(start: int, end: int, step: nat)
    requires SlotLength(step)
    ensures |SlotsUpTo(start, end, step)| == (if end <= start then 0 else (end - start) * (60 / step))
    decreases end - start
  {
    if end > start {
      SlotsCount(start, end - 1, step);
      HourSlotsCount(end - 1, 0, step);
    }
  }

  /** A slot is in the range exactly when its hour is in the range and its minute is a multiple of the step below 60. */
  lemma {:induction false} SlotsMembers(start: int, end: int, step: nat, x: Slot)
    requires SlotLength(step)
    ensures x in SlotsUpTo(start, end, step) <==> start <= x.hour < end && x.minute < 60 && x.minute % step == 0
    decreases end - start
  {
    if end > start {
      SlotsMembers(start, end - 1, step, x);
      HourSlotsMembers(end - 1, 0, step, x);
    }
  }

  /** `pad`: for the numbers the component pads, two digits, a leading zero below 10. */
  lemma PadShape(n: nat)
    ensures n < 10 ==> Pad2(n) == ['0', DigitChar(n)]
    ensures n >= 10 ==> Pad2(n) == DecimalString(n)
    ensures |Pad2(n)| >= 2
  {
    if n >= 10 {
      assert DecimalString(n) == DecimalString(n / 10) + [DigitChar(n % 10)];
    }
  }

  function DigitValue(c: char): (d: nat)
    requires IsDigitChar(c)
    ensures d < 10
  {
    (c as int) - ('0' as int)
  }

  predicate AllDigits(s: string) {
    forall i :: 0 <= i < |s| ==> IsDigitChar(s[i])
  }

  /** The number a string of decimal digits denotes. */
  function DecimalValue(s: string): (n: nat)
    requires AllDigits(s)
  {
    if |s| == 0 then 0 else DecimalValue(s[..|s| - 1]) * 10 + DigitValue(s[|s| - 1])
  }

  lemma DigitRoundTrip(d: nat)
    requires d < 10
    ensures IsDigitChar(DigitChar(d)) && DigitValue(DigitChar(d)) == d
  {
  }

  /** Reading a number's decimal representation back gives the number. */
  lemma {:induction false} DecimalRoundTrip(n: nat)
    ensures DecimalValue(DecimalString(n)) == n
  {
    var s := DecimalString(n);
    if n < 10 {
      DigitRoundTrip(n);
      assert s[..|s| - 1] == [];
    } else {
      DigitRoundTrip(n % 10);
      assert s[..|s| - 1] == DecimalString(n / 10);
      DecimalRoundTrip(n / 10);
    }
  }

  /** The padding zero reads as nothing: `pad` is read back as the number. */
  lemma PadRoundTrip(n: nat)
    ensures DecimalValue(Pad2(n)) == n
  {
    PadShape(n);
    if n < 10 {
      DigitRoundTrip(n);
      assert Pad2(n)[..1] == ['0'] && ['0'][..0] == [];
      assert DecimalValue(['0']) == 0;
    } else {
      DecimalRoundTrip(n);
    }
  }

  lemma DecimalStep(n: nat)
    requires n >= 10
    ensures |DecimalString(n)| == |DecimalString(n / 10)| + 1
  {
  }

  /** A four-digit year has four digits. */
  lemma DecimalFour(n: nat)
    requires 1000 <= n <= 9999
    ensures |DecimalString(n)| == 4
  {
    var a := n / 10;
    var b := a / 10;
    DecimalStep(n);
    DecimalStep(a);
    DecimalStep(b);
  }

  /** `toDateTimeLocalString`: the year as is, the other fields padded. */
  function ToDateTimeLocalString(d: DateTime): (s: string)
    ensures s == IntString(d.date.year) + "-" + Pad2(d.date.month) + "-" + Pad2(d.date.day) + "T" + Pad2(d.hour) + ":" + Pad2(d.minute)
  {
    IntString(d.date.year) + "-" + Pad2(d.date.month) + "-" + Pad2(d.date.day) + "T" + Pad2(d.hour) + ":" + Pad2(d.minute)
  }

  /** A number of two or four digits at `from` in `s`. */
  function FieldAt(s: string, from: nat, width: nat): (n: Option<nat>)
    requires from + width <= |s|
    ensures n.Some? <==> AllDigits(s[from..from + width])
  {
    if AllDigits(s[from..from + width]) then Some(DecimalValue(s[from..from + width])) else None
  }

  /**
   * `new Date(value)` for a value in the component's own format
   * "YYYY-MM-DDTHH:MM", read as local time; None stands for an Invalid Date.
   */
  function ReadLocal(s: string): (d: Option<DateTime>)
    ensures d.Some? ==> ValidDateTime(d.value) && d.value.second == 0 && d.value.millisecond == 0
  {
    if |s| != 16 || s[4] != '-' || s[7] != '-' || s[10] != 'T' || s[13] != ':' then None
    else
      var y, mo, dd, h, mi := FieldAt(s, 0, 4), FieldAt(s, 5, 2), FieldAt(s, 8, 2), FieldAt(s, 11, 2), FieldAt(s, 14, 2);
      if y.None? || mo.None? || dd.None? || h.None? || mi.None? then None
      else
        var r := DateTime(Civil(y.value, mo.value, dd.value), h.value, mi.value, 0, 0);
        if ValidDateTime(r) then Some(r) else None
  }

  /** The picked value's fields sit at fixed places once the year has four digits. */
  lemma FormatLayout(d: DateTime)
    requires ValidDateTime(d) && 1000 <= d.date.year <= 9999
    ensures var s := ToDateTimeLocalString(d);
            && |s| == 16 && s[4] == '-' && s[7] == '-' && s[10] == 'T' && s[13] == ':'
            && s[0..4] == DecimalString(d.date.year) && s[5..7] == Pad2(d.date.month) && s[8..10] == Pad2(d.date.day)
            && s[11..13] == Pad2(d.hour) && s[14..16] == Pad2(d.minute)
  {
    DecimalFour(d.date.year);
    var y, mo, dd, h, mi := DecimalString(d.date.year), Pad2(d.date.month), Pad2(d.date.day), Pad2(d.hour), Pad2(d.minute);
    var s := ToDateTimeLocalString(d);
    assert s == y + "-" + mo + "-" + dd + "T" + h + ":" + mi;
    assert s[0..4] == y;
    assert s[5..7] == mo;
    assert s[8..10] == dd;
    assert s[11..13] == h;
    assert s[14..16] == mi;
  }

  /** Reading the picked value back gives the picked date and time (for four-digit years). */
  lemma FormatReadBack(d: DateTime)
    requires ValidDateTime(d) && 1000 <= d.date.year <= 9999
    ensures ReadLocal(ToDateTimeLocalString(d)) == Some(d.(second := 0, millisecond := 0))
  {
    FormatLayout(d);
    DecimalRoundTrip(d.date.year);
    PadRoundTrip(d.date.month);
    PadRoundTrip(d.date.day);
    PadRoundTrip(d.hour);
    PadRoundTrip(d.minute);
  }

  /** `selected`: the date of the value, None when the value is absent or empty. */
  function Selected(value: Option<string>): (sel: Option<DateTime>)
    ensures value.None? || value == Some("") ==> sel.None?
    ensures value.Some? && value != Some("") ==> sel == ReadLocal(value.value)
  {
    if value.None? || value.value == "" then None else ReadLocal(value.value)
  }

  /**
   * `anchor`: the start of the week of the value, or of `now` when there is
   * none; None when the value is not a date (an Invalid Date).
   */
  function Anchor(value: Option<string>, now: DateTime, weekStartsOn: nat): (a: Option<DateTime>)
    requires ValidDateTime(now) && weekStartsOn <= 1
    ensures value.None? || value == Some("") ==> a == Some(WeekStart(now, weekStartsOn))
    ensures value.Some? && value != Some("") ==> (a.Some? <==> ReadLocal(value.value).Some?)
    ensures a.Some? ==> ValidDateTime(a.value)
  {
    var base := if value.None? || value.value == "" then Some(now) else ReadLocal(value.value);
    if base.None? then None else Some(WeekStart(base.value, weekStartsOn))
  }

  /** `isSelected`: false without a selection; otherwise the date, hour and minute all agree. */
  predicate IsSelected(selected: Option<DateTime>, day: DateTime, hour: int, minute: int) {
    && selected.Some?
    && selected.value.date.year == day.date.year
    && selected.value.date.month == day.date.month
    && selected.value.date.day == day.date.day
    && selected.value.hour == hour
    && selected.value.minute == minute
  }

  /** `handlePick`: the day at `hour:minute:00.000`, formatted for the input. */
  function HandlePick(day: DateTime, hour: nat, minute: nat): (v: string)
    requires ValidDateTime(day) && hour < 24 && minute < 60
    ensures v == ToDateTimeLocalString(DateTime(day.date, hour, minute, 0, 0))
  {
    ToDateTimeLocalString(DateTime(day.date, hour, minute, 0, 0))
  }

  /** Once picked, the value selects the picked cell and nothing else. */
  lemma PickSelectsCell(day: DateTime, hour: nat, minute: nat, day': DateTime, hour': int, minute': int)
    requires ValidDateTime(day) && hour < 24 && minute < 60 && 1000 <= day.date.year <= 9999
    ensures IsSelected(Selected(Some(HandlePick(day, hour, minute))), day', hour', minute') <==>
              day'.date == day.date && hour' == hour && minute' == minute
  {
    FormatReadBack(DateTime(day.date, hour, minute, 0, 0));
    FormatLayout(DateTime(day.date, hour, minute, 0, 0));
  }

  /** On a grid of seven days and the slots of a range, at most one cell is selected. */
  lemma AtMostOneSelected(anchor: DateTime, start: int, end: int, step: nat, selected: Option<DateTime>,
                          i: nat, j: nat, i': nat, j': nat)
    requires ValidDateTime(anchor) && step > 0
    requires i < 7 && i' < 7 && j < |SlotsUpTo(start, end, step)| && j' < |SlotsUpTo(start, end, step)|
    requires var days, slots := Days(anchor), SlotsUpTo(start, end, step);
             && IsSelected(selected, days[i], slots[j].hour, slots[j].minute)
             && IsSelected(selected, days[i'], slots[j'].hour, slots[j'].minute)
    ensures i == i' && j == j'
  {
    var days := Days(anchor);
    assert days[i].date == days[i'].date;
    if i < i' {
      DaysConsecutive(anchor, i, i');
    } else if i' < i {
      DaysConsecutive(anchor, i', i);
    }
  }

  const DayLabels: seq<string> := ["Sun", "Mon", "Tue", "Wed", "Thu", "Fri", "Sat"]

  /** A column header: the weekday's label and the month and day as "MM/DD". */
  function DayHeader(d: DateTime): (h: (string, string))
    requires ValidDateTime(d)
    ensures h.0 == DayLabels[Weekday(d.date)] && h.1 == Pad2(d.date.month) + "/" + Pad2(d.date.day)
  {
    (DayLabels[Weekday(d.date)], Pad2(d.date.month) + "/" + Pad2(d.date.day))
  }

  /** The columns of the week of `base` read from the weekday it starts on, in order. */
  lemma HeadersFromWeekStart(base: DateTime, weekStartsOn: nat, i: nat)
    requires ValidDateTime(base) && weekStartsOn <= 1 && i < 7
    ensures DayHeader(Days(WeekStart(base, weekStartsOn))[i]).0 == DayLabels[(weekStartsOn + i) % 7]
  {
    var anchor := WeekStart(base, weekStartsOn);
    WeekStartIsRight(base, weekStartsOn);
    WeekdayAdd(anchor.date, i);
    var day := Days(anchor)[i];
    assert day.date == AddDays(anchor.date, i);
    assert Weekday(day.date) == (weekStartsOn + i) % 7;
  }

  /** JavaScript's `%`, whose remainder takes the sign of the dividend. */
  function JsRem(a: int, b: nat): (r: int)
    requires b > 0
    ensures a >= 0 ==> r == a % b
    ensures a < 0 ==> r == -((-a) % b)
  {
    if a >= 0 then a % b else -((-a) % b)
  }

  /** The time gutter's label: the 12-hour hour, unpadded, the padded minute, AM or PM. */
  function HourLabel(slot: Slot): string
  {
    var r := JsRem(slot.hour, 12);
    IntString(if r == 0 then 12 else r) + ":" + Pad2(slot.minute) + " " + (if slot.hour < 12 then "AM" else "PM")
  }

  /** For the hours of a day the label's hour is the 12-hour hour, in 1..12, with AM exactly before noon. */
  lemma HourLabelShape(slot: Slot)
    requires 0 <= slot.hour
    ensures var n := Hour12(slot.hour);
            && 1 <= n <= 12
            && HourLabel(slot) == DecimalString(n) + ":" + Pad2(slot.minute) + " " + Meridiem(slot.hour)
            && (slot.hour < 12 <==> Meridiem(slot.hour) == "AM")
  {
  }
}
