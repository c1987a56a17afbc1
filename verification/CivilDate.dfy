/** Civil dates to Unix time (crates/handshaker-core/src/exif_parser.rs). */
module CivilDate {
  import opened Wrappers

  /** Rust's integer division, which truncates toward zero. */
  function TruncDiv(a: int, b: int): int
    requires b > 0
  {
    if a >= 0 then a / b else -(-a / b)
  }

  /** The shift-to-March arithmetic of the code. */
  function DaysFromCivil(year0: int, month0: int, day: int): int {
    var year := if month0 <= 2 then year0 - 1 else year0;
    var era := TruncDiv(if year >= 0 then year else year - 399, 400);
    var yearOfEra := year - era * 400;
    var month := month0 + if month0 > 2 then -3 else 9;
    var dayOfYear := TruncDiv(153 * month + 2, 5) + day - 1;
    var dayOfEra := yearOfEra * 365 + TruncDiv(yearOfEra, 4) - TruncDiv(yearOfEra, 100) + dayOfYear;
    era * 146097 + dayOfEra - 719468
  }

  // ---- the calendar, counted naively ----

  predicate Leap(year: int) {
    year % 4 == 0 && (year % 100 != 0 || year % 400 == 0)
  }

  function MonthLength(year: int, month: int): int
    requires 1 <= month <= 12
  {
    if month == 2 then if Leap(year) then 29 else 28
    else if month in {4, 6, 9, 11} then 30
    else 31
  }

  datatype Date = Date(year: int, month: int, day: int)

  predicate Real(d: Date) {
    1 <= d.month <= 12 && 1 <= d.day <= MonthLength(d.year, d.month)
  }

  /** Days of the year before the first of the month. */
  function DaysBeforeMonth(year: int, month: int): int
    requires 1 <= month <= 13
    decreases month
  {
    if month == 1 then 0 else DaysBeforeMonth(year, month - 1) + MonthLength(year, month - 1)
  }

  function YearLength(year: int): int {
    DaysBeforeMonth(year, 13)
  }

  /** Days from 1970-01-01 to the first of January, adding up whole years. */
  function DaysBeforeYear(year: int): int
    decreases if year >= 1970 then year - 1970 else 1970 - year
  {
    if year == 1970 then 0
    else if year > 1970 then DaysBeforeYear(year - 1) + YearLength(year - 1)
    else DaysBeforeYear(year + 1) - YearLength(year)
  }

  function DayCount(d: Date): int
    requires Real(d)
  {
    DaysBeforeYear(d.year) + DaysBeforeMonth(d.year, d.month) + d.day - 1
  }

  function Next(d: Date): Date
    requires Real(d)
  {
    if d.day < MonthLength(d.year, d.month) then d.(day := d.day + 1)
    else if d.month < 12 then Date(d.year, d.month + 1, 1)
    else Date(d.year + 1, 1, 1)
  }

  function Previous(d: Date): Date
    requires Real(d)
  {
    if d.day > 1 then d.(day := d.day - 1)
    else if d.month > 1 then Date(d.year, d.month - 1, MonthLength(d.year, d.month - 1))
    else Date(d.year - 1, 12, 31)
  }

  // ---- the arithmetic counts those days ----

  /** Days from the first of March of year 0 to the first of March of `year`. */
  function MarchDays(year: int): int {
    365 * year + year / 4 - year / 100 + year / 400
  }

  lemma MarchStep(year: int)
    ensures MarchDays(year) == MarchDays(year - 1) + 365 + if Leap(year) then 1 else 0
  {
    assert year / 4 == (year - 1) / 4 + if year % 4 == 0 then 1 else 0;
    assert year / 100 == (year - 1) / 100 + if year % 100 == 0 then 1 else 0;
    assert year / 400 == (year - 1) / 400 + if year % 400 == 0 then 1 else 0;
  }

  /** Eras split the March years without loss, before and after year 0. */
  lemma EraSplit(year: int)
    ensures var era := TruncDiv(if year >= 0 then year else year - 399, 400);
            && 0 <= year - era * 400 < 400
            && era * 146097 + (year - era * 400) * 365 + TruncDiv(year - era * 400, 4)
               - TruncDiv(year - era * 400, 100) == MarchDays(year)
  {
    var era := TruncDiv(if year >= 0 then year else year - 399, 400);
    assert era == year / 400;
    var rest := year - era * 400;
    assert year / 4 == era * 100 + rest / 4;
    assert year / 100 == era * 4 + rest / 100;
  }

  lemma MonthTable(year: int, month: int)
    requires 1 <= month <= 12
    ensures DaysBeforeMonth(year, month) ==
              (153 * (month + if month > 2 then -3 else 9) + 2) / 5
              + if month > 2 then 59 + (if Leap(year) then 1 else 0) else -306
  {
    assert DaysBeforeMonth(year, 1) == 0;
    assert DaysBeforeMonth(year, 2) == 31;
    assert DaysBeforeMonth(year, 3) == 59 + if Leap(year) then 1 else 0;
    if month > 3 { MonthTable(year, month - 1); }
  }

  lemma YearHas(year: int)
    ensures YearLength(year) == 365 + if Leap(year) then 1 else 0
  {
    MonthTable(year, 12);
  }

  lemma {:induction false} YearsByMarch(year: int)
    ensures DaysBeforeYear(year) == MarchDays(year - 1) - 719162
    decreases if year >= 1970 then year - 1970 else 1970 - year
  {
    if year > 1970 {
      YearsByMarch(year - 1);
      YearHas(year - 1);
      MarchStep(year - 1);
    } else if year < 1970 {
      YearsByMarch(year + 1);
      YearHas(year);
      MarchStep(year);
    }
  }

  lemma ByMarch(year: int, month: int, day: int)
    requires 1 <= month <= 12
    ensures DaysFromCivil(year, month, day) ==
              MarchDays(if month <= 2 then year - 1 else year)
              + (153 * (month + if month > 2 then -3 else 9) + 2) / 5 + day - 1 - 719468
  {
    EraSplit(if month <= 2 then year - 1 else year);
  }

  /** On every real Gregorian date, before or after the epoch, the arithmetic is the naive count. */
  lemma CountsDays(d: Date)
    requires Real(d)
    ensures DaysFromCivil(d.year, d.month, d.day) == DayCount(d)
  {
    YearsByMarch(d.year);
    MonthTable(d.year, d.month);
    ByMarch(d.year, d.month, d.day);
    MarchStep(d.year);
    hide MarchDays, DaysFromCivil, DaysBeforeYear, DaysBeforeMonth, MonthLength;
  }

  /** The naive count is what its name says: it starts at 1970-01-01 and every next day is one more. */
  lemma NextIsOneMore(d: Date)
    requires Real(d)
    ensures DayCount(Date(1970, 1, 1)) == 0
    ensures Real(Next(d)) && DayCount(Next(d)) == DayCount(d) + 1
    ensures Real(Previous(d)) && Next(Previous(d)) == d
  {
    assert Real(Next(d));
    if Next(d).month == 1 && Next(d).day == 1 {
      assert DaysBeforeMonth(d.year, 13) == DaysBeforeMonth(d.year, 12) + 31;
      assert DaysBeforeYear(d.year + 1) == DaysBeforeYear(d.year) + YearLength(d.year);
    }
  }

  lemma FourHundredLater(year: int)
    ensures (year + 400) / 4 == year / 4 + 100 && (year + 400) / 100 == year / 100 + 4
    ensures (year + 400) / 400 == year / 400 + 1
  {
  }

  lemma FourHundredMarches(year: int)
    ensures MarchDays(year + 400) == MarchDays(year) + 146097
  {
    FourHundredLater(year);
  }

  lemma FourHundredLeaps(year: int)
    ensures Leap(year + 400) == Leap(year)
  {
  }

  /** The calendar repeats every 400 years, 146097 days on. */
  lemma FourHundredYears(d: Date)
    requires Real(d)
    ensures Real(d.(year := d.year + 400))
    ensures DaysFromCivil(d.year + 400, d.month, d.day) == DaysFromCivil(d.year, d.month, d.day) + 146097
  {
    FourHundredMarches(d.year);
    FourHundredMarches(d.year - 1);
    FourHundredLeaps(d.year);
    ByMarch(d.year, d.month, d.day);
    ByMarch(d.year + 400, d.month, d.day);
  }

  // ---- order ----

  predicate Earlier(a: Date, b: Date) {
    a.year < b.year || (a.year == b.year && (a.month < b.month || (a.month == b.month && a.day < b.day)))
  }

  lemma {:induction false} MonthsAddUp(year: int, m: int, n: int)
    requires 1 <= m < n <= 13
    ensures DaysBeforeMonth(year, m) + MonthLength(year, m) <= DaysBeforeMonth(year, n)
    decreases n
  {
    if n > m + 1 {
      MonthsAddUp(year, m, n - 1);
    }
  }

  lemma {:induction false} YearsAddUp(y: int, z: int)
    requires y < z
    ensures DaysBeforeYear(y) + YearLength(y) <= DaysBeforeYear(z)
    decreases z - y
  {
    YearsByMarch(y);
    YearsByMarch(y + 1);
    MarchStep(y);
    YearHas(y);
    if y + 1 < z {
      YearHas(y + 1);
      YearsAddUp(y + 1, z);
    }
  }

  lemma EarlierIsLess(a: Date, b: Date)
    requires Real(a) && Real(b) && Earlier(a, b)
    ensures DayCount(a) < DayCount(b)
  {
    if a.year < b.year {
      MonthsAddUp(a.year, a.month, 13);
      YearsAddUp(a.year, b.year);
      if b.month > 1 { MonthsAddUp(b.year, 1, b.month); }
    } else if a.month < b.month {
      MonthsAddUp(a.year, a.month, b.month);
    }
  }

  /** Days and real dates correspond one to one: every day number is some real date's ... */
  lemma {:induction false} EveryDayHasADate(n: int) returns (d: Date)
    ensures Real(d) && DaysFromCivil(d.year, d.month, d.day) == n
    decreases if n >= 0 then n else -n
  {
    if n == 0 {
      d := Date(1970, 1, 1);
    } else if n > 0 {
      var e := EveryDayHasADate(n - 1);
      CountsDays(e);
      NextIsOneMore(e);
      d := Next(e);
    } else {
      var e := EveryDayHasADate(n + 1);
      CountsDays(e);
      NextIsOneMore(e);
      d := Previous(e);
      NextIsOneMore(d);
    }
    CountsDays(d);
  }

  /** ... and the arithmetic orders real dates as the calendar does. */
  lemma DatesInOrder(a: Date, b: Date)
    requires Real(a) && Real(b)
    ensures Earlier(a, b) <==> DaysFromCivil(a.year, a.month, a.day) < DaysFromCivil(b.year, b.month, b.day)
  {
    CountsDays(a);
    CountsDays(b);
    if Earlier(a, b) {
      EarlierIsLess(a, b);
    } else if Earlier(b, a) {
      EarlierIsLess(b, a);
    }
  }

  // ---- EXIF timestamps ----

  const WORD := 0x1_0000_0000_0000_0000

  function SecondsOf(year: int, month: int, day: int, hour: int, minute: int, second: int): int {
    DaysFromCivil(year, month, day) * 86400 + hour * 3600 + minute * 60 + second
  }

  /** `parts` are the pieces of the text between colons and blanks, each as the i64 it parses to.
      64-bit sums and the cast to u64 wrap, so the result is the sum modulo 2^64. */
  function ExifDatetimeToUnix(parts: seq<Option<int>>): Option<int> {
    if |parts| < 6 then None
    else if exists i :: 0 <= i < 6 && parts[i].None? then None
    else
      var year, month, day := parts[0].value, parts[1].value, parts[2].value;
      if year < 1970 || !(1 <= month <= 12) || !(1 <= day <= 31) then None
      else Some(SecondsOf(year, month, day, parts[3].value, parts[4].value, parts[5].value) % WORD)
  }

  datatype Stamp = Stamp(date: Date, hour: int, minute: int, second: int)

  predicate RealStamp(t: Stamp) {
    Real(t.date) && 0 <= t.hour < 24 && 0 <= t.minute < 60 && 0 <= t.second < 60
  }

  predicate Before(a: Stamp, b: Stamp) {
    || Earlier(a.date, b.date)
    || (a.date == b.date && (a.hour < b.hour || (a.hour == b.hour &&
        (a.minute < b.minute || (a.minute == b.minute && a.second < b.second)))))
  }

  function Parts(t: Stamp): seq<Option<int>> {
    [Some(t.date.year), Some(t.date.month), Some(t.date.day), Some(t.hour), Some(t.minute), Some(t.second)]
  }

  function StampSeconds(t: Stamp): int {
    SecondsOf(t.date.year, t.date.month, t.date.day, t.hour, t.minute, t.second)
  }

  /** Years beyond this need more than 63 bits of seconds. */
  const LAST_YEAR := 290_000_000_000

  lemma DayBounds(d: Date)
    requires Real(d) && d.year >= 1970
    ensures 0 <= DaysFromCivil(d.year, d.month, d.day) < 366 * d.year
  {
    CountsDays(d);
    YearsByMarch(d.year);
    MonthTable(d.year, d.month);
    if d.year > 1970 {
      YearsAddUp(1970, d.year);
      YearHas(1970);
    }
  }

  lemma FitsInAWord(t: Stamp)
    requires RealStamp(t) && 1970 <= t.date.year <= LAST_YEAR
    ensures 0 <= StampSeconds(t) < WORD / 2
    ensures ExifDatetimeToUnix(Parts(t)) == Some(StampSeconds(t))
  {
    DayBounds(t.date);
    var days := DaysFromCivil(t.date.year, t.date.month, t.date.day);
    assert StampSeconds(t) == days * 86400 + t.hour * 3600 + t.minute * 60 + t.second;
    assert StampSeconds(t) % WORD == StampSeconds(t);
    var parts := Parts(t);
    assert forall i | 0 <= i < 6 :: parts[i].Some?;
  }

  /** Timestamps from 1970 on with real dates and times in range convert to numbers in the same
      order, so no two of them are confused. */
  lemma UnixTimeIsOrdered(a: Stamp, b: Stamp)
    requires RealStamp(a) && RealStamp(b)
    requires 1970 <= a.date.year <= LAST_YEAR && 1970 <= b.date.year <= LAST_YEAR
    ensures ExifDatetimeToUnix(Parts(a)).Some? && ExifDatetimeToUnix(Parts(b)).Some?
    ensures Before(a, b) <==> ExifDatetimeToUnix(Parts(a)).value < ExifDatetimeToUnix(Parts(b)).value
  {
    FitsInAWord(a);
    FitsInAWord(b);
    DatesInOrder(a.date, b.date);
    DatesInOrder(b.date, a.date);
  }

  lemma RollsOver(year: int, month: int, day: int)
    requires 1 <= month <= 12 && MonthLength(year, month) < day <= 31
    ensures var next := Next(Date(year, month, MonthLength(year, month)));
            && Real(next.(day := day - MonthLength(year, month)))
            && DaysFromCivil(year, month, day) == DaysFromCivil(next.year, next.month, day - MonthLength(year, month))
  {
    var last := Date(year, month, MonthLength(year, month));
    NextIsOneMore(last);
    CountsDays(last);
    CountsDays(Next(last));
    ByMarch(year, month, day);
    ByMarch(year, month, last.day);
    ByMarch(Next(last).year, Next(last).month, 1);
    ByMarch(Next(last).year, Next(last).month, day - last.day);
  }

  /** The range checks let a day past the end of its month through: it means a day of the next
      month, so unreal dates do collide with real ones. */
  lemma DayPastTheMonth(t: Stamp)
    requires 1970 <= t.date.year && 1 <= t.date.month <= 12
    requires MonthLength(t.date.year, t.date.month) < t.date.day <= 31
    ensures var length := MonthLength(t.date.year, t.date.month);
            var rolled := Next(t.date.(day := length)).(day := t.date.day - length);
            && Real(rolled) && rolled != t.date
            && ExifDatetimeToUnix(Parts(t)) == ExifDatetimeToUnix(Parts(t.(date := rolled)))
  {
    RollsOver(t.date.year, t.date.month, t.date.day);
    var length := MonthLength(t.date.year, t.date.month);
    var rolled := Next(t.date.(day := length)).(day := t.date.day - length);
    var p, q := Parts(t), Parts(t.(date := rolled));
    assert forall i | 0 <= i < 6 :: p[i].Some? && q[i].Some?;
  }

  lemma NextIsNextDay(d: Date)
    requires Real(d)
    ensures Real(Next(d))
    ensures DaysFromCivil(Next(d).year, Next(d).month, Next(d).day) == DaysFromCivil(d.year, d.month, d.day) + 1
  {
    NextIsOneMore(d);
    CountsDays(d);
    CountsDays(Next(d));
  }

  lemma CarriesOver(t: Stamp)
    requires Real(t.date)
    ensures StampSeconds(t.(hour := t.hour + 24)) == StampSeconds(t.(date := Next(t.date)))
    ensures StampSeconds(t.(minute := t.minute + 60)) == StampSeconds(t.(hour := t.hour + 1))
    ensures StampSeconds(t.(second := t.second + 60)) == StampSeconds(t.(minute := t.minute + 1))
  {
    hide DaysFromCivil, Next;
    NextIsNextDay(t.date);
  }

  /** What the range checks accept. */
  predicate Accepted(t: Stamp) {
    1970 <= t.date.year && 1 <= t.date.month <= 12 && 1 <= t.date.day <= 31
  }

  lemma PartsConvert(t: Stamp)
    requires Accepted(t)
    ensures ExifDatetimeToUnix(Parts(t)) == Some(StampSeconds(t) % WORD)
  {
    hide DaysFromCivil;
    var parts := Parts(t);
    assert forall i | 0 <= i < 6 :: parts[i].Some?;
  }

  /** What is let through, exactly: six numbers or more, the first three a year from 1970 on, a month of
      it, and a day that some month has; whatever the time, and whatever comes after. */
  lemma AcceptedIff(parts: seq<Option<int>>)
    ensures ExifDatetimeToUnix(parts).Some? <==>
              && |parts| >= 6 && (forall i | 0 <= i < 6 :: parts[i].Some?)
              && parts[0].value >= 1970
              && (exists d :: Real(Date(parts[0].value, parts[1].value, d)))
              && (exists m :: Real(Date(parts[0].value, m, parts[2].value)))
    ensures |parts| >= 6 ==> ExifDatetimeToUnix(parts) == ExifDatetimeToUnix(parts[..6])
  {
    if |parts| >= 6 {
      assert forall i | 0 <= i < 6 :: parts[..6][i] == parts[i];
      if forall i | 0 <= i < 6 :: parts[i].Some? {
        var year, month, day := parts[0].value, parts[1].value, parts[2].value;
        assert 1 <= month <= 12 ==> Real(Date(year, month, 1));
        assert 1 <= day <= 31 ==> Real(Date(year, 1, day));
      }
    }
  }

  /** Nor are the times checked: 24 hours too many mean the next day, 60 minutes too many the next
      hour, 60 seconds too many the next minute. */
  lemma TimePastItsRange(t: Stamp)
    requires 1970 <= t.date.year && Real(t.date)
    ensures ExifDatetimeToUnix(Parts(t.(hour := t.hour + 24))) == ExifDatetimeToUnix(Parts(t.(date := Next(t.date))))
    ensures ExifDatetimeToUnix(Parts(t.(minute := t.minute + 60))) == ExifDatetimeToUnix(Parts(t.(hour := t.hour + 1)))
    ensures ExifDatetimeToUnix(Parts(t.(second := t.second + 60))) == ExifDatetimeToUnix(Parts(t.(minute := t.minute + 1)))
  {
    NextIsNextDay(t.date);
    assert Next(t.date).year >= 1970;
    hide StampSeconds, ExifDatetimeToUnix, Parts, Next, DaysFromCivil;
    CarriesOver(t);
    PartsConvert(t.(hour := t.hour + 24));
    PartsConvert(t.(date := Next(t.date)));
    PartsConvert(t.(minute := t.minute + 60));
    PartsConvert(t.(hour := t.hour + 1));
    PartsConvert(t.(second := t.second + 60));
    PartsConvert(t.(minute := t.minute + 1));
  }

  /** A real timestamp that 64 bits hold for certain. */
  predicate InRange(t: Stamp) {
    RealStamp(t) && 1970 <= t.date.year <= LAST_YEAR
  }

  /** The first second after all of those. */
  function End(): int {
    (DaysFromCivil(LAST_YEAR, 12, 31) + 1) * 86400
  }

  lemma FirstDay()
    ensures Real(Date(1970, 1, 1)) && DaysFromCivil(1970, 1, 1) == 0
  {
    NextIsOneMore(Date(1970, 1, 1));
    CountsDays(Date(1970, 1, 1));
  }

  lemma ClockOf(v: nat)
    ensures var rest := v % 86400;
            && rest / 3600 < 24 && rest % 3600 / 60 < 60
            && v / 86400 * 86400 + rest / 3600 * 3600 + rest % 3600 / 60 * 60 + rest % 60 == v
  {
  }

  lemma StampOf(v: int) returns (r: Stamp)
    requires 0 <= v < End()
    ensures InRange(r) && StampSeconds(r) == v
  {
    var days, rest := v / 86400, v % 86400;
    var d := EveryDayHasADate(days);
    var first, last := Date(1970, 1, 1), Date(LAST_YEAR, 12, 31);
    assert Real(last);
    hide DaysFromCivil;
    ClockOf(v);
    FirstDay();
    DatesInOrder(d, first);
    DatesInOrder(last, d);
    r := Stamp(d, rest / 3600, rest % 3600 / 60, rest % 60);
  }

  lemma InRangeSeconds(r: Stamp)
    requires InRange(r)
    ensures 0 <= StampSeconds(r) < End() <= WORD / 2
  {
    var last := Date(LAST_YEAR, 12, 31);
    assert Real(last);
    FitsInAWord(r);
    DayBounds(last);
    hide DaysFromCivil;
    DatesInOrder(last, r.date);
    assert !Earlier(last, r.date);
  }

  predicate SameTime(r: Stamp, t: Stamp) {
    ExifDatetimeToUnix(Parts(r)) == ExifDatetimeToUnix(Parts(t))
  }

  lemma RealTimesDiffer(r: Stamp, t: Stamp)
    requires InRange(r) && InRange(t) && SameTime(r, t)
    ensures r == t
  {
    UnixTimeIsOrdered(r, t);
    UnixTimeIsOrdered(t, r);
  }

  /** Collisions, exactly: whatever the range checks accept converts to the same value as some other
      real timestamp in range if and only if it is not one of those itself and its seconds, taken
      modulo 2^64, lie before their end.  So no two of them collide, and anything else that gets
      through and lands among them does. */
  lemma CollidesIff(t: Stamp)
    requires Accepted(t)
    ensures (exists r :: InRange(r) && r != t && SameTime(r, t))
            <==> !InRange(t) && StampSeconds(t) % WORD < End()
  {
    PartsConvert(t);
    if r :| InRange(r) && r != t && SameTime(r, t) {
      FitsInAWord(r);
      InRangeSeconds(r);
      if InRange(t) {
        RealTimesDiffer(r, t);
      }
    }
    if !InRange(t) && StampSeconds(t) % WORD < End() {
      var r := StampOf(StampSeconds(t) % WORD);
      FitsInAWord(r);
      assert SameTime(r, t);
    }
  }
}
