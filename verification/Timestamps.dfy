/** UTC timestamps as the ban store writes them: YYYY-MM-DDTHH:MM:SSZ, a form of date-time in section 5.6 of RFC 3339. */
module Timestamps {
  import opened Decimals

  datatype Date = Date(year: nat, month: nat, day: nat)

  const FirstYear: nat := 1970
  const LastYear: nat := 9999
  const DaySeconds: int := 86400

  // ----- the calendar ------------------------------------------------------------------------

  predicate Leap(year: nat) {
    year % 4 == 0 && (year % 100 != 0 || year % 400 == 0)
  }

  function YearDays(year: nat): nat {
    if Leap(year) then 366 else 365
  }

  function MonthDays(year: nat, month: nat): nat {
    if month == 2 then if Leap(year) then 29 else 28
    else if month in {4, 6, 9, 11} then 30
    else 31
  }

  predicate ValidDate(date: Date) {
    FirstYear <= date.year && 1 <= date.month <= 12 && 1 <= date.day <= MonthDays(date.year, date.month)
  }

  /** Days from 1 January 1970 to the start of a year. */
  function YearStart(year: nat): nat
    requires FirstYear <= year
  {
    if year == FirstYear then 0 else YearStart(year - 1) + YearDays(year - 1)
  }

  /** Days from the start of a year to the start of a month. */
  function MonthStart(year: nat, month: nat): nat
    requires 1 <= month
  {
    if month == 1 then 0 else MonthStart(year, month - 1) + MonthDays(year, month - 1)
  }

  function DayNumber(date: Date): nat
    requires ValidDate(date)
  {
    YearStart(date.year) + MonthStart(date.year, date.month) + date.day - 1
  }

  /** The year of a day counted from the start of the given one, and the day in it. */
  function YearOf(days: nat, year: nat): (nat, nat)
    decreases days
  {
    if days < YearDays(year) then (year, days) else YearOf(days - YearDays(year), year + 1)
  }

  function MonthOf(days: nat, year: nat, month: nat): (nat, nat)
    decreases days
  {
    if month >= 12 || days < MonthDays(year, month) then (month, days)
    else MonthOf(days - MonthDays(year, month), year, month + 1)
  }

  function DateOf(days: nat): Date {
    var (year, rest) := YearOf(days, FirstYear);
    var (month, day) := MonthOf(rest, year, 1);
    Date(year, month, day + 1)
  }

  lemma {:induction false} YearStartGrows(a: nat, b: nat)
    requires FirstYear <= a <= b
    ensures YearStart(a) + 365 * (b - a) <= YearStart(b)
    decreases b - a
  {
    if a < b { YearStartGrows(a, b - 1); }
  }

  /** The year found is the one that holds the day. */
  lemma {:induction false} YearFound(days: nat, from: nat, year: nat)
    requires FirstYear <= from <= year && YearStart(year) <= YearStart(from) + days < YearStart(year) + YearDays(year)
    ensures YearOf(days, from) == (year, YearStart(from) + days - YearStart(year))
    decreases days
  {
    if from < year {
      YearStartGrows(from + 1, year);
      YearFound(days - YearDays(from), from + 1, year);
    }
  }

  lemma {:induction false} YearHolds(days: nat, from: nat)
    requires FirstYear <= from
    ensures var (year, rest) := YearOf(days, from);
            from <= year && rest < YearDays(year) && YearStart(from) + days == YearStart(year) + rest
    decreases days
  {
    if days >= YearDays(from) { YearHolds(days - YearDays(from), from + 1); }
  }

  lemma MonthsAddUp(year: nat)
    ensures MonthStart(year, 2) == 31 && MonthStart(year, 3) == 31 + MonthDays(year, 2)
    ensures MonthStart(year, 12) + 31 == YearDays(year)
    ensures forall m :: 1 <= m < 12 ==> MonthStart(year, m + 1) == MonthStart(year, m) + MonthDays(year, m)
  {
    var february := MonthDays(year, 2);
    assert MonthStart(year, 1) == 0;
    assert MonthStart(year, 2) == 31;
    assert MonthStart(year, 3) == 31 + february;
    assert MonthStart(year, 4) == 62 + february;
    assert MonthStart(year, 5) == 92 + february;
    assert MonthStart(year, 6) == 123 + february;
    assert MonthStart(year, 7) == 153 + february;
    assert MonthStart(year, 8) == 184 + february;
    assert MonthStart(year, 9) == 215 + february;
    assert MonthStart(year, 10) == 245 + february;
    assert MonthStart(year, 11) == 276 + february;
    assert MonthStart(year, 12) == 306 + february;
  }

  lemma {:induction false} MonthStartGrows(year: nat, a: nat, b: nat)
    requires 1 <= a <= b
    ensures MonthStart(year, a) <= MonthStart(year, b)
    decreases b - a
  {
    if a < b { MonthStartGrows(year, a, b - 1); }
  }

  lemma {:induction false} MonthFound(days: nat, year: nat, from: nat, month: nat)
    requires 1 <= from <= month <= 12
    requires MonthStart(year, month) <= MonthStart(year, from) + days < MonthStart(year, month) + MonthDays(year, month)
    ensures MonthOf(days, year, from) == (month, MonthStart(year, from) + days - MonthStart(year, month))
    decreases days
  {
    if from < month {
      MonthStartGrows(year, from + 1, month);
      MonthFound(days - MonthDays(year, from), year, from + 1, month);
    }
  }

  lemma {:induction false} MonthHolds(days: nat, year: nat, from: nat)
    requires 1 <= from <= 12 && MonthStart(year, from) + days < YearDays(year)
    ensures var (month, rest) := MonthOf(days, year, from);
            from <= month <= 12 && rest < MonthDays(year, month) && MonthStart(year, from) + days == MonthStart(year, month) + rest
    decreases days
  {
    MonthsAddUp(year);
    if from < 12 && days >= MonthDays(year, from) { MonthHolds(days - MonthDays(year, from), year, from + 1); }
  }

  lemma DayInYear(date: Date)
    requires ValidDate(date)
    ensures MonthStart(date.year, date.month) + date.day - 1 < YearDays(date.year)
  {
    MonthsAddUp(date.year);
    MonthStartGrows(date.year, date.month, 12);
    if date.month < 12 { MonthStartGrows(date.year, date.month + 1, 12); }
  }

  /** Counting days and finding dates are inverse. */
  lemma DateInverse(date: Date)
    requires ValidDate(date)
    ensures DateOf(DayNumber(date)) == date
  {
    DayInYear(date);
    var days := DayNumber(date);
    YearFound(days, FirstYear, date.year);
    MonthFound(days - YearStart(date.year), date.year, 1, date.month);
  }

  lemma DayInverse(days: nat)
    ensures ValidDate(DateOf(days)) && DayNumber(DateOf(days)) == days
  {
    YearHolds(days, FirstYear);
    var (year, rest) := YearOf(days, FirstYear);
    MonthHolds(rest, year, 1);
    var (month, day) := MonthOf(rest, year, 1);
    assert MonthStart(year, 1) == 0 && YearStart(FirstYear) == 0;
    assert DateOf(days) == Date(year, month, day + 1);
  }

  /** A day is in the supported years exactly when its date is. */
  lemma DayRange(days: nat)
    ensures DateOf(days).year <= LastYear <==> days <= DayNumber(Date(LastYear, 12, 31))
  {
    DayInverse(days);
    var date := DateOf(days);
    DayInYear(date);
    MonthsAddUp(LastYear);
    if date.year <= LastYear {
      YearStartGrows(date.year, LastYear);
      if date.year < LastYear {
        YearStartGrows(date.year + 1, LastYear);
      }
    } else {
      YearStartGrows(LastYear + 1, date.year);
    }
  }

  // ----- the calendar in closed form ----------------------------------------------------------------

  /** How many years up to this one have a leap day in the Gregorian calendar: every fourth but three in four hundred. */
  function LeapDays(year: nat): int {
    year / 4 - year / 100 + year / 400
  }

  lemma Quotients(n: nat)
    requires 0 < n
    ensures n / 4 == (n - 1) / 4 + if n % 4 == 0 then 1 else 0
    ensures n / 100 == (n - 1) / 100 + if n % 100 == 0 then 1 else 0
    ensures n / 400 == (n - 1) / 400 + if n % 400 == 0 then 1 else 0
  {
  }

  lemma LeapDaysStep(year: nat)
    requires 0 < year
    ensures LeapDays(year) == LeapDays(year - 1) + if Leap(year) then 1 else 0
  {
    Quotients(year);
    Multiples(year);
  }

  lemma Multiples(year: nat)
    ensures year % 400 == 0 ==> year % 100 == 0
    ensures year % 100 == 0 ==> year % 4 == 0
  {
    if year % 400 == 0 { FourHundreds(year, year / 400); }
    if year % 100 == 0 { Hundreds(year, year / 100); }
  }

  lemma FourHundreds(year: nat, q: nat)
    requires year == 400 * q
    ensures year % 100 == 0
  {
    assert year == 100 * (4 * q);
  }

  lemma Hundreds(year: nat, q: nat)
    requires year == 100 * q
    ensures year % 4 == 0
  {
    assert year == 4 * (25 * q);
  }

  /** The days before a year. */
  lemma {:induction false} YearStartIs(year: nat)
    requires FirstYear <= year
    ensures YearStart(year) == 365 * (year - 1970) + (year - 1) / 4 - (year - 1) / 100 + (year - 1) / 400 - 477
    decreases year
  {
    assert LeapDays(year - 1) == (year - 1) / 4 - (year - 1) / 100 + (year - 1) / 400;
    if year > FirstYear {
      YearStartIs(year - 1);
      LeapDaysStep(year - 1);
      assert LeapDays(year - 2) == (year - 2) / 4 - (year - 2) / 100 + (year - 2) / 400;
    }
    hide LeapDays, Leap;
  }

  /** The days since 1 March of the year 0, with years that begin in March. */
  function CivilDays(year: nat, month: nat, day: nat): int
    requires 1 <= month <= 12
  {
    var y := if month <= 2 then year - 1 else year;
    365 * y + y / 4 - y / 100 + y / 400 + (153 * ((month + 9) % 12) + 2) / 5 + day - 1
  }

  /** The number of a day counts the days since 1 January 1970, whatever months and leap years lie between. */
  lemma DayNumberIs(date: Date)
    requires ValidDate(date)
    ensures DayNumber(date) == CivilDays(date.year, date.month, date.day) - 719468
  {
    var year := date.year;
    YearStartIs(year);
    MonthStartIs(year, date.month);
    LeapDaysStep(year);
    MarchMonths(date.month);
    assert LeapDays(year) == year / 4 - year / 100 + year / 400;
    assert LeapDays(year - 1) == (year - 1) / 4 - (year - 1) / 100 + (year - 1) / 400;
    hide YearStart, MonthStart, LeapDays, Leap;
  }

  lemma MarchMonths(month: nat)
    requires 1 <= month <= 12
    ensures (month + 9) % 12 == if month <= 2 then month + 9 else month - 3
    ensures month <= 2 ==> (153 * (month + 9) + 2) / 5 == 306 + 31 * (month - 1)
  {
  }

  lemma MonthStartIs(year: nat, month: nat)
    requires 1 <= month <= 12
    ensures MonthStart(year, month) ==
              if month <= 2 then 31 * (month - 1) else (153 * (month - 3) + 2) / 5 + 31 + MonthDays(year, 2)
  {
    MonthsAddUp(year);
    assert MonthStart(year, 1) == 0;
    hide MonthStart;
  }

  /** 29 February is a date exactly in the years that are a day longer. */
  lemma LeapDay(year: nat)
    requires FirstYear <= year
    ensures ValidDate(Date(year, 2, 29)) <==> YearStart(year + 1) == YearStart(year) + 366
    ensures ValidDate(Date(year, 2, 29)) <==> LeapDays(year) == LeapDays(year - 1) + 1
  {
    LeapDaysStep(year);
  }

  /** A date is valid exactly when its day comes before the first of the next month. */
  lemma ValidDateIs(date: Date)
    ensures ValidDate(date) <==>
              && 1970 <= date.year && 1 <= date.month <= 12 && 1 <= date.day
              && CivilDays(date.year, date.month, date.day) <
                   if date.month == 12 then CivilDays(date.year + 1, 1, 1) else CivilDays(date.year, date.month + 1, 1)
  {
    if 1970 <= date.year && 1 <= date.month <= 12 { MonthIs(date.year, date.month); }
    hide MonthDays, CivilDays;
    if 1970 <= date.year && 1 <= date.month <= 12 && 1 <= date.day { CivilDay(date.year, date.month, date.day); }
  }

  lemma CivilDay(year: nat, month: nat, day: nat)
    requires 1 <= month <= 12
    ensures CivilDays(year, month, day) == CivilDays(year, month, 1) + day - 1
  {
  }

  /** A month lasts until the next. */
  lemma MonthIs(year: nat, month: nat)
    requires 1970 <= year && 1 <= month <= 12
    ensures CivilDays(year, month, 1) + MonthDays(year, month) == if month == 12 then CivilDays(year + 1, 1, 1) else CivilDays(year, month + 1, 1)
  {
    LeapDaysStep(year);
    MarchMonths(month);
    if month < 12 { MarchMonths(month + 1); }
    assert LeapDays(year) == year / 4 - year / 100 + year / 400;
    assert LeapDays(year - 1) == (year - 1) / 4 - (year - 1) / 100 + (year - 1) / 400;
    MonthLength(month);
    hide LeapDays, Leap;
  }

  /** The lengths of the months, as differences of a linear rule. */
  lemma MonthLength(month: nat)
    requires 1 <= month <= 12
    ensures month in {3, 4, 5, 6, 7, 8, 9, 10, 11} ==>
              (153 * (month - 2) + 2) / 5 - (153 * (month - 3) + 2) / 5 == if month in {4, 6, 9, 11} then 30 else 31
    ensures (153 * 9 + 2) / 5 == 275 && (153 * 10 + 2) / 5 == 306 && (153 * 11 + 2) / 5 == 337 && (153 * 0 + 2) / 5 == 0
  {
  }

  // ----- timestamps ----------------------------------------------------------------------------------

  function Last(): Date {
    Date(LastYear, 12, 31)
  }

  /** The seconds that have a timestamp: from 1970-01-01T00:00:00Z to 9999-12-31T23:59:59Z. */
  predicate InRange(time: int) {
    0 <= time && time / DaySeconds <= DayNumber(Last())
  }

  function Text(date: Date, hour: nat, minute: nat, second: nat): string {
    Padded(date.year, 4) + "-" + Padded(date.month, 2) + "-" + Padded(date.day, 2) + "T" +
    Padded(hour, 2) + ":" + Padded(minute, 2) + ":" + Padded(second, 2) + "Z"
  }

  /** The timestamp of a time, if it has one; the day of a time before 1970 is rounded down. */
  function Utc(time: int): Option<string> {
    var day := time / DaySeconds;
    if day < 0 || day > DayNumber(Last()) then None
    else
      var clock := time % DaySeconds;
      Some(Text(DateOf(day), clock / 3600, clock / 60 % 60, clock % 60))
  }

  predicate Punctuated(text: string) {
    |text| == 20 && text[4] == '-' && text[7] == '-' && text[10] == 'T' && text[13] == ':' && text[16] == ':' && text[19] == 'Z'
  }

  function ParseUtc(text: string): Option<int> {
    if !Punctuated(text) then None
    else
      var year, month, day := Unsigned(text[0..4], 9999), Unsigned(text[5..7], 12), Unsigned(text[8..10], 31);
      var hour, minute, second := Unsigned(text[11..13], 23), Unsigned(text[14..16], 59), Unsigned(text[17..19], 59);
      if year.None? || year.value < FirstYear || month.None? || day.None? || hour.None? || minute.None? || second.None? then None
      else
        var date := Date(year.value, month.value, day.value);
        if !ValidDate(date) then None
        else Some(Seconds(date, hour.value, minute.value, second.value))
  }

  function Seconds(date: Date, hour: nat, minute: nat, second: nat): nat
    requires ValidDate(date)
  {
    DayNumber(date) * DaySeconds + hour * 3600 + minute * 60 + second
  }

  lemma TextParts(date: Date, hour: nat, minute: nat, second: nat)
    requires |Padded(date.year, 4)| == 4 && |Padded(date.month, 2)| == 2 && |Padded(date.day, 2)| == 2
    requires |Padded(hour, 2)| == 2 && |Padded(minute, 2)| == 2 && |Padded(second, 2)| == 2
    ensures var text := Text(date, hour, minute, second);
            && Punctuated(text)
            && text[0..4] == Padded(date.year, 4) && text[5..7] == Padded(date.month, 2) && text[8..10] == Padded(date.day, 2)
            && text[11..13] == Padded(hour, 2) && text[14..16] == Padded(minute, 2) && text[17..19] == Padded(second, 2)
  {
    hide Padded;
    var front := Padded(date.year, 4) + "-" + Padded(date.month, 2) + "-" + Padded(date.day, 2) + "T";
    var back := Padded(hour, 2) + ":" + Padded(minute, 2) + ":" + Padded(second, 2) + "Z";
    FrontParts(Padded(date.year, 4), Padded(date.month, 2), Padded(date.day, 2));
    BackParts(Padded(hour, 2), Padded(minute, 2), Padded(second, 2));
    assert Text(date, hour, minute, second) == front + back;
    HalfParts(front, back);
  }

  lemma FrontParts(year: string, month: string, day: string)
    requires |year| == 4 && |month| == 2 && |day| == 2
    ensures var front := year + "-" + month + "-" + day + "T";
            && |front| == 11 && front[4] == '-' && front[7] == '-' && front[10] == 'T'
            && front[0..4] == year && front[5..7] == month && front[8..10] == day
  {
  }

  lemma BackParts(hour: string, minute: string, second: string)
    requires |hour| == 2 && |minute| == 2 && |second| == 2
    ensures var back := hour + ":" + minute + ":" + second + "Z";
            && |back| == 9 && back[2] == ':' && back[5] == ':' && back[8] == 'Z'
            && back[0..2] == hour && back[3..5] == minute && back[6..8] == second
  {
  }

  lemma HalfParts(front: string, back: string)
    requires |front| == 11 && |back| == 9
    ensures var text := front + back;
            && (forall i :: 0 <= i < 11 ==> text[i] == front[i]) && (forall i :: 0 <= i < 9 ==> text[11 + i] == back[i])
            && text[0..4] == front[0..4] && text[5..7] == front[5..7] && text[8..10] == front[8..10]
            && text[11..13] == back[0..2] && text[14..16] == back[3..5] && text[17..19] == back[6..8]
  {
  }

  lemma PaddedUnsigned(n: nat, width: nat, maximum: nat)
    requires n < Power(width) && 0 < width
    ensures |Padded(n, width)| == width
    ensures Unsigned(Padded(n, width), maximum) == if n <= maximum then Some(n) else None
  {
    PaddedReads(n, width);
  }

  lemma Powers()
    ensures Power(2) == 100 && Power(4) == 10000
  {
    assert Power(1) == 10 && Power(2) == 100 && Power(3) == 1000;
  }

  /** A written date and clock time are read back. */
  lemma TextReads(date: Date, hour: nat, minute: nat, second: nat)
    requires ValidDate(date) && date.year <= LastYear && hour < 24 && minute < 60 && second < 60
    ensures ParseUtc(Text(date, hour, minute, second)) ==
              Some(Seconds(date, hour, minute, second))
  {
    hide Padded, Unsigned, Text, Punctuated, Seconds, Power;
    Powers();
    PaddedUnsigned(date.year, 4, 9999);
    PaddedUnsigned(date.month, 2, 12);
    PaddedUnsigned(date.day, 2, 31);
    PaddedUnsigned(hour, 2, 23);
    PaddedUnsigned(minute, 2, 59);
    PaddedUnsigned(second, 2, 59);
    TextParts(date, hour, minute, second);
  }

  /** A time has a timestamp exactly in the supported range, and the timestamp gives it back. */
  lemma UtcInverse(time: int)
    ensures Utc(time).Some? <==> InRange(time)
    ensures InRange(time) ==> ParseUtc(Utc(time).value) == Some(time)
  {
    hide DateOf, DayNumber, Text, ParseUtc, ValidDate;
    if InRange(time) {
      var day, clock := time / DaySeconds, time % DaySeconds;
      DayInverse(day);
      DayRange(day);
      TextReads(DateOf(day), clock / 3600, clock / 60 % 60, clock % 60);
      ClockSum(clock);
    }
  }

  lemma ClockSum(clock: nat)
    requires clock < DaySeconds
    ensures clock / 3600 < 24 && clock / 3600 * 3600 + clock / 60 % 60 * 60 + clock % 60 == clock
  {
    assert clock / 60 / 60 == clock / 3600;
  }

  /** The clock of a time in a day. */
  lemma ClockParts(day: nat, hour: nat, minute: nat, second: nat)
    requires hour < 24 && minute < 60 && second < 60
    ensures var time := day * DaySeconds + hour * 3600 + minute * 60 + second;
            && time / DaySeconds == day
            && time % DaySeconds / 3600 == hour && time % DaySeconds / 60 % 60 == minute && time % DaySeconds % 60 == second
  {
    var clock := hour * 3600 + minute * 60 + second;
    assert 0 <= clock < DaySeconds;
    assert clock / 60 == hour * 60 + minute;
  }

  lemma UnsignedPadded(text: string, maximum: nat)
    requires Unsigned(text, maximum).Some?
    ensures Padded(Unsigned(text, maximum).value, |text|) == text && Unsigned(text, maximum).value <= maximum
  {
    ReadsPadded(text);
  }

  /** Every text that is read is the timestamp of its time, so no two texts mean one time. */
  lemma ParseInverse(text: string)
    ensures ParseUtc(text).Some? ==> InRange(ParseUtc(text).value) && Utc(ParseUtc(text).value) == Some(text)
  {
    hide Unsigned, Padded, DayNumber, DateOf, ValidDate, Digits, Value, MonthDays;
    if ParseUtc(text).Some? {
      var year, month, day := Unsigned(text[0..4], 9999), Unsigned(text[5..7], 12), Unsigned(text[8..10], 31);
      var hour, minute, second := Unsigned(text[11..13], 23), Unsigned(text[14..16], 59), Unsigned(text[17..19], 59);
      var date := Date(year.value, month.value, day.value);
      UnsignedPadded(text[0..4], 9999);
      UnsignedPadded(text[5..7], 12);
      UnsignedPadded(text[8..10], 31);
      UnsignedPadded(text[11..13], 23);
      UnsignedPadded(text[14..16], 59);
      UnsignedPadded(text[17..19], 59);
      Reassembled(text);
      SecondsWrite(date, hour.value, minute.value, second.value);
    }
  }

  /** A field of a timestamp: digits, up to the bound. */
  predicate Field(text: string, maximum: nat) {
    (forall i :: 0 <= i < |text| ==> '0' <= text[i] <= '9') && text != "" && Value(text) <= maximum
  }

  /**
    * A text is read exactly when it has the form YYYY-MM-DDTHH:MM:SSZ with a day of the calendar from 1970 on, and
    * then it means the seconds since 1 January 1970, by the closed rule of the calendar.
    */
  lemma ParseUtcExactly(text: string)
    ensures ParseUtc(text).Some? <==>
              && Punctuated(text)
              && Field(text[0..4], 9999) && Field(text[5..7], 12) && Field(text[8..10], 31)
              && Field(text[11..13], 23) && Field(text[14..16], 59) && Field(text[17..19], 59)
              && ValidDate(Date(Value(text[0..4]), Value(text[5..7]), Value(text[8..10])))
    ensures ParseUtc(text).Some? ==>
              ParseUtc(text).value == (CivilDays(Value(text[0..4]), Value(text[5..7]), Value(text[8..10])) - 719468) * 86400
                                      + Value(text[11..13]) * 3600 + Value(text[14..16]) * 60 + Value(text[17..19])
  {
    if ParseUtc(text).Some? { DayNumberIs(Date(Value(text[0..4]), Value(text[5..7]), Value(text[8..10]))); }
    hide ValidDate, DayNumber, CivilDays, Value;
  }

  /** A date and clock time in range are written from their seconds. */
  lemma SecondsWrite(date: Date, hour: nat, minute: nat, second: nat)
    requires ValidDate(date) && date.year <= LastYear && hour < 24 && minute < 60 && second < 60
    ensures InRange(Seconds(date, hour, minute, second))
    ensures Utc(Seconds(date, hour, minute, second)) == Some(Text(date, hour, minute, second))
  {
    hide Padded, DayNumber, DateOf, ValidDate, Text;
    DateInverse(date);
    DayRange(DayNumber(date));
    ClockParts(DayNumber(date), hour, minute, second);
  }

  lemma Reassembled(text: string)
    requires Punctuated(text)
    ensures text == text[0..4] + "-" + text[5..7] + "-" + text[8..10] + "T" + text[11..13] + ":" + text[14..16] + ":" + text[17..19] + "Z"
  {
  }
}
