// UTC datetimes, the text `isoformat` gives them, and the promise that the queries rely
// on: comparing the texts is comparing the times.
module Timestamps {
  import opened Basics
  import opened Text

  datatype DateTime = DateTime(year: nat, month: nat, day: nat, hour: nat, minute: nat, second: nat, micro: nat)

  predicate IsLeap(year: nat) {
    year % 4 == 0 && (year % 100 != 0 || year % 400 == 0)
  }

  function DaysInYear(year: nat): nat {
    if IsLeap(year) then 366 else 365
  }

  function DaysInMonth(year: nat, month: nat): nat {
    if month == 2 then (if IsLeap(year) then 29 else 28)
    else if month == 4 || month == 6 || month == 9 || month == 11 then 30
    else 31
  }

  predicate Exists(t: DateTime) {
    && 1 <= t.year <= 9999 && 1 <= t.month <= 12 && 1 <= t.day <= DaysInMonth(t.year, t.month)
    && t.hour < 24 && t.minute < 60 && t.second < 60 && t.micro < 1_000_000
  }

  type UtcTime = t: DateTime | Exists(t) witness DateTime(1, 1, 1, 0, 0, 0, 0)

  // ----- The time line -----

  function DaysBeforeYear(year: nat): int {
    var y := year - 1;
    365 * y + y / 4 - y / 100 + y / 400
  }

  /** `month` may be 13: the days of the whole year. */
  function DaysBeforeMonth(year: nat, month: nat): nat {
    var leap := if IsLeap(year) then 1 else 0;
    if month <= 1 then 0
    else if month == 2 then 31
    else leap + (if month == 3 then 59 else if month == 4 then 90 else if month == 5 then 120 else if month == 6 then 151
                 else if month == 7 then 181 else if month == 8 then 212 else if month == 9 then 243
                 else if month == 10 then 273 else if month == 11 then 304 else if month == 12 then 334 else 365)
  }

  function Days(t: UtcTime): int {
    DaysBeforeYear(t.year) + DaysBeforeMonth(t.year, t.month) + t.day - 1
  }

  function Clock(t: UtcTime): nat {
    ((t.hour * 60 + t.minute) * 60 + t.second) * 1_000_000 + t.micro
  }

  const DAY := 86_400_000_000
  const END := 3_652_059 * DAY

  /** Microseconds since the start of year 1. */
  function Instant(t: UtcTime): int {
    Days(t) * DAY + Clock(t)
  }

  lemma YearStep(year: nat)
    requires year >= 1
    ensures DaysBeforeYear(year + 1) == DaysBeforeYear(year) + DaysInYear(year)
  {
    QuarterStep(year);
    CenturyStep(year);
    CycleStep(year);
    CenturiesAreQuarters(year);
  }

  lemma CenturiesAreQuarters(year: nat)
    ensures year % 400 == 0 ==> year % 100 == 0
    ensures year % 100 == 0 ==> year % 4 == 0
  {
    if year % 400 == 0 {
      var cycles := year / 400;
      assert year == 100 * (4 * cycles);
    }
    if year % 100 == 0 {
      var centuries := year / 100;
      assert year == 4 * (25 * centuries);
    }
  }

  lemma CycleStep(year: nat)
    requires year >= 1
    ensures year / 400 == (year - 1) / 400 + if year % 400 == 0 then 1 else 0
  {
  }

  lemma QuarterStep(year: nat)
    requires year >= 1
    ensures year / 4 == (year - 1) / 4 + if year % 4 == 0 then 1 else 0
  {
  }

  lemma CenturyStep(year: nat)
    requires year >= 1
    ensures year / 100 == (year - 1) / 100 + if year % 100 == 0 then 1 else 0
  {
  }

  lemma {:induction false} YearsGrow(a: nat, b: nat)
    requires 1 <= a < b
    ensures DaysBeforeYear(a) + DaysInYear(a) <= DaysBeforeYear(b)
    decreases b
  {
    YearStep(b - 1);
    if a < b - 1 { YearsGrow(a, b - 1); }
  }

  lemma MonthsGrow(year: nat, a: nat, b: nat)
    requires 1 <= a < b <= 13
    ensures DaysBeforeMonth(year, a) + DaysInMonth(year, a) <= DaysBeforeMonth(year, b)
    ensures DaysBeforeMonth(year, b) <= DaysInYear(year)
  {
  }

  /** Calendar order: the fields compared from the year down. */
  predicate EarlierDay(a: UtcTime, b: UtcTime) {
    a.year < b.year || (a.year == b.year && (a.month < b.month || (a.month == b.month && a.day < b.day)))
  }

  predicate SameDay(a: UtcTime, b: UtcTime) {
    a.year == b.year && a.month == b.month && a.day == b.day
  }

  predicate EarlierClock(a: UtcTime, b: UtcTime) {
    a.hour < b.hour || (a.hour == b.hour && (a.minute < b.minute || (a.minute == b.minute &&
      (a.second < b.second || (a.second == b.second && a.micro < b.micro)))))
  }

  predicate Earlier(a: UtcTime, b: UtcTime) {
    EarlierDay(a, b) || (SameDay(a, b) && EarlierClock(a, b))
  }

  lemma DayOrder(a: UtcTime, b: UtcTime)
    requires EarlierDay(a, b)
    ensures Days(a) < Days(b)
  {
    MonthsGrow(a.year, a.month, 13);
    if a.year < b.year {
      YearsGrow(a.year, b.year);
    } else if a.month < b.month {
      MonthsGrow(a.year, a.month, b.month);
    }
  }

  lemma ClockOrder(a: UtcTime, b: UtcTime)
    ensures EarlierClock(a, b) <==> Clock(a) < Clock(b)
    ensures Clock(a) < DAY
  {
    var x, y := a.hour * 60 + a.minute, b.hour * 60 + b.minute;
    var u, v := x * 60 + a.second, y * 60 + b.second;
    assert a.hour < b.hour ==> x < y;
    assert x < y ==> u < v;
    assert b.hour < a.hour ==> y < x;
    assert y < x ==> v < u;
    assert x == y ==> a.hour == b.hour;
    assert u == v ==> x == y;
  }

  lemma EarlierIsLess(a: UtcTime, b: UtcTime)
    requires Earlier(a, b)
    ensures Instant(a) < Instant(b)
  {
    ClockOrder(a, b);
    if EarlierDay(a, b) { DayOrder(a, b); }
  }

  /** Comparing field by field is comparing on the time line. */
  lemma CalendarIsTimeline(a: UtcTime, b: UtcTime)
    ensures Earlier(a, b) <==> Instant(a) < Instant(b)
    ensures a == b <==> Instant(a) == Instant(b)
  {
    if Earlier(a, b) {
      EarlierIsLess(a, b);
    } else if a != b {
      assert Earlier(b, a);
      EarlierIsLess(b, a);
    }
  }

  // ----- The text -----

  function Field(n: nat, width: nat, separator: char, rest: string): string {
    Digits(n, width) + ([separator] + rest)
  }

  /** The fraction is left out when it is zero. */
  function Fraction(micro: nat): string {
    if micro == 0 then "+00:00" else ['.'] + (Digits(micro, 6) + "+00:00")
  }

  function ClockText(t: UtcTime): string {
    Field(t.hour, 2, ':', Field(t.minute, 2, ':', Digits(t.second, 2) + Fraction(t.micro)))
  }

  /** `t.isoformat()` for a time in UTC. */
  function IsoFormat(t: UtcTime): string {
    Field(t.year, 4, '-', Field(t.month, 2, '-', Field(t.day, 2, 'T', ClockText(t))))
  }

  lemma Powers()
    ensures Power10(2) == 100 && Power10(4) == 10_000 && Power10(6) == 1_000_000
  {
    assert Power10(3) == 1_000;
    assert Power10(5) == 100_000;
  }

  lemma DigitsThen(a: nat, b: nat, width: nat, s: string, t: string)
    requires a < Power10(width) && b < Power10(width)
    ensures Precedes(Digits(a, width) + s, Digits(b, width) + t) <==> a < b || (a == b && Precedes(s, t))
  {
    DigitsOrder(a, b, width);
    PrecedesConcat(Digits(a, width), Digits(b, width), s, t);
  }

  lemma FieldOrder(a: nat, b: nat, width: nat, separator: char, s: string, t: string)
    requires a < Power10(width) && b < Power10(width)
    ensures Precedes(Field(a, width, separator, s), Field(b, width, separator, t)) <==> a < b || (a == b && Precedes(s, t))
  {
    DigitsThen(a, b, width, [separator] + s, [separator] + t);
    PrecedesConcat([separator], [separator], s, t);
  }

  /** '+' sorts before '.', so a missing fraction sorts as zero. */
  lemma FractionOrder(a: nat, b: nat)
    requires a < 1_000_000 && b < 1_000_000
    ensures Precedes(Fraction(a), Fraction(b)) <==> a < b
  {
    Powers();
    Irreflexive("+00:00");
    if a > 0 && b > 0 {
      DigitsThen(a, b, 6, "+00:00", "+00:00");
      PrecedesConcat(['.'], ['.'], Digits(a, 6) + "+00:00", Digits(b, 6) + "+00:00");
    }
  }

  lemma ClockTextOrder(a: UtcTime, b: UtcTime)
    ensures Precedes(ClockText(a), ClockText(b)) <==> EarlierClock(a, b)
  {
    Powers();
    var secondsA, secondsB := Digits(a.second, 2) + Fraction(a.micro), Digits(b.second, 2) + Fraction(b.micro);
    FractionOrder(a.micro, b.micro);
    DigitsThen(a.second, b.second, 2, Fraction(a.micro), Fraction(b.micro));
    FieldOrder(a.minute, b.minute, 2, ':', secondsA, secondsB);
    FieldOrder(a.hour, b.hour, 2, ':', Field(a.minute, 2, ':', secondsA), Field(b.minute, 2, ':', secondsB));
  }

  lemma TextIsCalendar(a: UtcTime, b: UtcTime)
    ensures Precedes(IsoFormat(a), IsoFormat(b)) <==> Earlier(a, b)
  {
    Powers();
    var dayA, dayB := Field(a.day, 2, 'T', ClockText(a)), Field(b.day, 2, 'T', ClockText(b));
    ClockTextOrder(a, b);
    FieldOrder(a.day, b.day, 2, 'T', ClockText(a), ClockText(b));
    FieldOrder(a.month, b.month, 2, '-', dayA, dayB);
    FieldOrder(a.year, b.year, 4, '-', Field(a.month, 2, '-', dayA), Field(b.month, 2, '-', dayB));
  }

  /** The order of the texts is the order of the times, and no two times share a text. */
  lemma TextOrderIsTimeOrder(a: UtcTime, b: UtcTime)
    ensures Precedes(IsoFormat(a), IsoFormat(b)) <==> Instant(a) < Instant(b)
    ensures NotAfter(IsoFormat(a), IsoFormat(b)) <==> Instant(a) <= Instant(b)
    ensures IsoFormat(a) == IsoFormat(b) <==> Instant(a) == Instant(b)
  {
    TextIsCalendar(a, b);
    TextIsCalendar(b, a);
    CalendarIsTimeline(a, b);
    CalendarIsTimeline(b, a);
    if IsoFormat(a) == IsoFormat(b) { Irreflexive(IsoFormat(a)); }
  }

  /** The text, field by field: padded to four and two digits, parted by `-`, `T` and `:`,
      with six digits of fraction unless it is zero, and the offset of UTC. */
  lemma IsoLayout(t: UtcTime)
    ensures IsoFormat(t) ==
            Digits(t.year, 4) + "-" + Digits(t.month, 2) + "-" + Digits(t.day, 2) + "T" +
            Digits(t.hour, 2) + ":" + Digits(t.minute, 2) + ":" + Digits(t.second, 2) +
            (if t.micro == 0 then "" else "." + Digits(t.micro, 6)) + "+00:00"
  {
    Flatten(Digits(t.year, 4), Digits(t.month, 2), Digits(t.day, 2), Digits(t.hour, 2), Digits(t.minute, 2), Digits(t.second, 2),
            if t.micro == 0 then "" else "." + Digits(t.micro, 6), Fraction(t.micro));
  }

  lemma Flatten(y: string, mo: string, d: string, h: string, mi: string, s: string, f: string, tail: string)
    requires tail == f + "+00:00"
    ensures y + (['-'] + (mo + (['-'] + (d + (['T'] + (h + ([':'] + (mi + ([':'] + (s + tail)))))))))) ==
            y + "-" + mo + "-" + d + "T" + h + ":" + mi + ":" + s + f + "+00:00"
  {
  }

  /** Unix time starts 719162 days after the first of January of year 1. */
  lemma EpochInstant(epoch: UtcTime)
    requires epoch == DateTime(1970, 1, 1, 0, 0, 0, 0)
    ensures Instant(epoch) == 719_162 * 86_400 * 1_000_000
  {
  }

  // ----- Reading it back -----

  /** Digits of `width` at the front, and what follows them. */
  function TakeDigits(s: string, width: nat): Option<(nat, string)> {
    if |s| < width || !AllDigits(s[..width]) then None else Some((Value(s[..width]), s[width..]))
  }

  function TakeField(s: string, width: nat, separator: char): Option<(nat, string)> {
    match TakeDigits(s, width)
    case None => None
    case Some((n, rest)) => if rest != "" && rest[0] == separator then Some((n, rest[1..])) else None
  }

  function TakeFraction(s: string): Option<nat> {
    if s == "+00:00" then Some(0)
    else if s == "" || s[0] != '.' then None
    else
      match TakeDigits(s[1..], 6)
      case None => None
      case Some((n, rest)) => if rest == "+00:00" then Some(n) else None
  }

  function TakeClock(s: string): Option<(nat, nat, nat, nat)> {
    match TakeField(s, 2, ':')
    case None => None
    case Some((hour, s1)) =>
      match TakeField(s1, 2, ':')
      case None => None
      case Some((minute, s2)) =>
        match TakeDigits(s2, 2)
        case None => None
        case Some((second, s3)) =>
          match TakeFraction(s3)
          case None => None
          case Some(micro) => Some((hour, minute, second, micro))
  }

  /** `datetime.fromisoformat` on the two shapes that `isoformat` writes. */
  function ParseIso(s: string): Option<DateTime> {
    match TakeField(s, 4, '-')
    case None => None
    case Some((year, s1)) =>
      match TakeField(s1, 2, '-')
      case None => None
      case Some((month, s2)) =>
        match TakeField(s2, 2, 'T')
        case None => None
        case Some((day, s3)) =>
          match TakeClock(s3)
          case None => None
          case Some((hour, minute, second, micro)) =>
            var t := DateTime(year, month, day, hour, minute, second, micro);
            if Exists(t) then Some(t) else None
  }

  lemma TakeDigitsOf(n: nat, width: nat, rest: string)
    requires n < Power10(width)
    ensures TakeDigits(Digits(n, width) + rest, width) == Some((n, rest))
  {
    ValueOfDigits(n, width);
    assert (Digits(n, width) + rest)[..width] == Digits(n, width);
    assert (Digits(n, width) + rest)[width..] == rest;
  }

  lemma TakeFieldOf(n: nat, width: nat, separator: char, rest: string)
    requires n < Power10(width)
    ensures TakeField(Field(n, width, separator, rest), width, separator) == Some((n, rest))
  {
    TakeDigitsOf(n, width, [separator] + rest);
    assert ([separator] + rest)[1..] == rest;
  }

  lemma TakeFractionOf(micro: nat)
    requires micro < 1_000_000
    ensures TakeFraction(Fraction(micro)) == Some(micro)
  {
    Powers();
    if micro > 0 {
      TakeDigitsOf(micro, 6, "+00:00");
      assert Fraction(micro)[1..] == Digits(micro, 6) + "+00:00";
      assert Fraction(micro)[0] == '.';
    }
  }

  lemma TakeClockOf(t: UtcTime)
    ensures TakeClock(ClockText(t)) == Some((t.hour, t.minute, t.second, t.micro))
  {
    Powers();
    TakeFieldOf(t.hour, 2, ':', Field(t.minute, 2, ':', Digits(t.second, 2) + Fraction(t.micro)));
    TakeFieldOf(t.minute, 2, ':', Digits(t.second, 2) + Fraction(t.micro));
    TakeDigitsOf(t.second, 2, Fraction(t.micro));
    TakeFractionOf(t.micro);
  }

  /** Writing a time and reading it back loses nothing. */
  lemma ParseFormat(t: UtcTime)
    ensures ParseIso(IsoFormat(t)) == Some(t)
  {
    Powers();
    TakeFieldOf(t.year, 4, '-', Field(t.month, 2, '-', Field(t.day, 2, 'T', ClockText(t))));
    TakeFieldOf(t.month, 2, '-', Field(t.day, 2, 'T', ClockText(t)));
    TakeFieldOf(t.day, 2, 'T', ClockText(t));
    TakeClockOf(t);
  }

  // ----- Every instant of years 1 to 9999 has a text -----

  lemma {:induction false} FindYear(days: nat, bound: nat) returns (year: nat)
    requires bound >= 1 && days < DaysBeforeYear(bound)
    ensures 1 <= year < bound && DaysBeforeYear(year) <= days < DaysBeforeYear(year) + DaysInYear(year)
  {
    YearStep(bound - 1);
    if DaysBeforeYear(bound - 1) <= days {
      year := bound - 1;
    } else {
      year := FindYear(days, bound - 1);
    }
  }

  lemma {:induction false} FindMonth(year: nat, day: nat, bound: nat) returns (month: nat)
    requires 2 <= bound <= 13 && day < DaysBeforeMonth(year, bound)
    ensures 1 <= month < bound
    ensures DaysBeforeMonth(year, month) <= day < DaysBeforeMonth(year, month) + DaysInMonth(year, month)
  {
    if DaysBeforeMonth(year, bound - 1) <= day {
      month := bound - 1;
    } else {
      month := FindMonth(year, day, bound - 1);
    }
  }

  lemma AtInstant(n: nat) returns (t: UtcTime)
    requires n < END
    ensures Instant(t) == n
  {
    var days, clock := n / DAY, n % DAY;
    var year := FindYear(days, 10_000);
    var inYear := days - DaysBeforeYear(year);
    var month := FindMonth(year, inYear, 13);
    var minutes, micros := clock / 60_000_000, clock % 60_000_000;
    t := DateTime(year, month, inYear - DaysBeforeMonth(year, month) + 1,
                  minutes / 60, minutes % 60, micros / 1_000_000, micros % 1_000_000);
  }

  /** The column text of a time given in microseconds. */
  ghost function TextOf(n: nat): (s: string)
    requires n < END
    ensures exists t: UtcTime :: Instant(t) == n && s == IsoFormat(t)
  {
    assert exists t: UtcTime :: Instant(t) == n by {
      var found := AtInstant(n);
    }
    var t: UtcTime :| Instant(t) == n;
    IsoFormat(t)
  }

  lemma TextOfOrder(a: nat, b: nat)
    requires a < END && b < END
    ensures Precedes(TextOf(a), TextOf(b)) <==> a < b
    ensures NotAfter(TextOf(a), TextOf(b)) <==> a <= b
    ensures TextOf(a) == TextOf(b) <==> a == b
  {
    var textA, textB := TextOf(a), TextOf(b);
    var t: UtcTime :| Instant(t) == a && textA == IsoFormat(t);
    var u: UtcTime :| Instant(u) == b && textB == IsoFormat(u);
    TextOrderIsTimeOrder(t, u);
  }
}
