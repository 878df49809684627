/** Day numbers and the proleptic Gregorian calendar (RFC 3339, section 5.7 and appendix C): the source's
    closed arithmetic, with Rust's truncating division, against the calendar's own successor rule. */
module Calendar {
  import opened Decimal

  datatype Date = Date(year: int, month: int, day: int)

  /** Division that truncates toward zero. */
  function Quot(a: int, b: int): int
    requires b > 0
  {
    if a >= 0 then a / b else -((-a) / b)
  }

  // ----- the calendar

  predicate Leap(year: int) {
    year % 4 == 0 && (year % 100 != 0 || year % 400 == 0)
  }

  function MonthLength(year: int, month: int): int
    requires 1 <= month <= 12
  {
    if month == 2 then (if Leap(year) then 29 else 28)
    else if month in {4, 6, 9, 11} then 30
    else 31
  }

  predicate IsDate(d: Date) {
    1 <= d.month <= 12 && 1 <= d.day <= MonthLength(d.year, d.month)
  }

  function NextDate(d: Date): (n: Date)
    requires IsDate(d)
    ensures IsDate(n)
  {
    if d.day < MonthLength(d.year, d.month) then d.(day := d.day + 1)
    else if d.month < 12 then Date(d.year, d.month + 1, 1)
    else Date(d.year + 1, 1, 1)
  }

  // ----- the source's arithmetic

  function Era(z: int): int {
    Quot(if z >= 0 then z else z - 146_096, 146_097)
  }

  function YearOfEra(dayOfEra: int): int {
    Quot(dayOfEra - Quot(dayOfEra, 1_460) + Quot(dayOfEra, 36_524) - Quot(dayOfEra, 146_096), 365)
  }

  function CivilFromDay(day: int): Date {
    var z := day + 719_468;
    var era := Era(z);
    CivilOfEra(era, z - era * 146_097)
  }

  function CivilOfEra(era: int, dayOfEra: int): Date {
    var yearOfEra := YearOfEra(dayOfEra);
    CivilOfYear(yearOfEra + era * 400, dayOfEra - (365 * yearOfEra + Quot(yearOfEra, 4) - Quot(yearOfEra, 100)))
  }

  function CivilOfYear(year: int, dayOfYear: int): Date {
    var monthPrime := Quot(5 * dayOfYear + 2, 153);
    var d := dayOfYear - Quot(153 * monthPrime + 2, 5) + 1;
    var month := monthPrime + (if monthPrime < 10 then 3 else -9);
    Date(if month <= 2 then year + 1 else year, month, d)
  }

  // ----- counting days, with years that start in March

  /** Days of a 400-year era before its year `y`. */
  function YearStart(y: int): int {
    365 * y + y / 4 - y / 100
  }

  /** Days of a March year before its month `m`. */
  function MonthStart(m: int): int {
    (153 * m + 2) / 5
  }

  /** The number of a date, counted from the epoch. */
  function DayNumber(d: Date): int {
    var y := if d.month <= 2 then d.year - 1 else d.year;
    var m := if d.month <= 2 then d.month + 9 else d.month - 3;
    (y / 400) * 146_097 + (YearStart(y % 400) + (MonthStart(m) + d.day - 1)) - 719_468
  }

  lemma EraIsFloor(z: int)
    ensures Era(z) == z / 146_097
  {
  }

  /** The last day of the March year `y` of an era is a leap day. */
  predicate LeapDay(y: int) {
    (y + 1) % 4 == 0 && ((y + 1) % 100 != 0 || y == 399)
  }

  lemma Centuries(c: int, rest: int)
    requires 0 <= c < 4 && 0 <= rest <= 36_524 && (rest == 36_524 ==> c == 3)
    ensures (36_524 * c + rest) / 36_524 - (36_524 * c + rest) / 146_096 == c
  {
  }

  lemma Cycles(n: int, e: int)
    requires 0 <= e < 2_920
    ensures (1_460 * n + e) / 1_460 == if e >= 1_460 then n + 1 else n
  {
    if e >= 1_460 {
      assert 1_460 * n + e == 1_460 * (n + 1) + (e - 1_460);
    }
  }

  /** Day `k` of the year with `c` centuries, `q` four-year cycles and `s` years before it. */
  lemma YearOfEraParts(c: int, q: int, s: int, k: int)
    requires 0 <= c < 4 && 0 <= q < 25 && 0 <= s < 4 && 0 <= k <= 365
    requires k == 365 ==> s == 3 && (q < 24 || c == 3)
    ensures YearOfEra(36_524 * c + 1_461 * q + 365 * s + k) == 100 * c + 4 * q + s
  {
    var doe := 36_524 * c + 1_461 * q + 365 * s + k;
    var rest := 1_461 * q + 365 * s + k;
    Centuries(c, rest);
    var e := 24 * c + q + 365 * s + k;
    var f := if e >= 1_460 then 1 else 0;
    Cycles(25 * c + q, e);
    assert doe == 1_460 * (25 * c + q) + e;
    assert 0 <= k - f < 365;
    assert doe - doe / 1_460 + doe / 36_524 - doe / 146_096 == 365 * (100 * c + 4 * q + s) + (k - f);
  }

  lemma YearStartParts(c: int, q: int, s: int)
    requires 0 <= c < 4 && 0 <= q < 25 && 0 <= s < 4
    ensures YearStart(100 * c + 4 * q + s) == 36_524 * c + 1_461 * q + 365 * s
    ensures LeapDay(100 * c + 4 * q + s) <==> s == 3 && (q < 24 || c == 3)
  {
    var y := 100 * c + 4 * q + s;
    assert y / 100 == c && y / 4 == 25 * c + q;
    assert (y + 1) % 4 == (s + 1) % 4;
    assert (y + 1) % 100 == (4 * q + s + 1) % 100;
  }

  lemma YearParts(y: int) returns (c: int, q: int, s: int)
    requires 0 <= y < 400
    ensures 0 <= c < 4 && 0 <= q < 25 && 0 <= s < 4 && y == 100 * c + 4 * q + s
  {
    c, q, s := y / 100, y % 100 / 4, y % 4;
    assert y % 100 % 4 == y % 4;
  }

  /** Days of the March year `y`. */
  function YearLength(y: int): int {
    if LeapDay(y) then 366 else 365
  }

  /** The source's year of the era is the year whose days contain the day. */
  lemma YearOfEraIs(y: int, k: int)
    requires 0 <= y < 400 && 0 <= k < YearLength(y)
    ensures YearOfEra(YearStart(y) + k) == y
    ensures 0 <= YearStart(y) + k < 146_097
  {
    var c, q, s := YearParts(y);
    YearStartParts(c, q, s);
    YearOfEraParts(c, q, s, k);
  }

  lemma YearFollows(y: int)
    requires 0 <= y < 400
    ensures y < 399 ==> YearStart(y + 1) == YearStart(y) + YearLength(y)
    ensures y == 399 ==> YearStart(y) + YearLength(y) == 146_097
  {
    var c, q, s := YearParts(y);
    YearStartParts(c, q, s);
    if s < 3 {
      YearStartParts(c, q, s + 1);
    } else if q < 24 {
      YearStartParts(c, q + 1, 0);
    } else if c < 3 {
      YearStartParts(c + 1, 0, 0);
    }
  }

  /** Every day of an era lies in one of its years. */
  lemma YearContains(dayOfEra: int) returns (y: int, k: int)
    requires 0 <= dayOfEra < 146_097
    ensures 0 <= y < 400 && 0 <= k < YearLength(y) && dayOfEra == YearStart(y) + k
  {
    y := 0;
    while YearStart(y) + YearLength(y) <= dayOfEra
      invariant 0 <= y < 400 && YearStart(y) <= dayOfEra
      decreases 400 - y
    {
      YearFollows(y);
      y := y + 1;
    }
    k := dayOfEra - YearStart(y);
  }

  /** The length of month `m` of a March year: February comes last. */
  function MarchMonthLength(y: int, m: int): int {
    if m == 11 then (if LeapDay(y) then 29 else 28) else MonthStart(m + 1) - MonthStart(m)
  }

  lemma MonthIs(y: int, m: int, d: int)
    requires 0 <= m < 12 && 1 <= d <= MarchMonthLength(y, m)
    ensures var k := MonthStart(m) + d - 1;
            0 <= k < YearLength(y) && Quot(5 * k + 2, 153) == m
  {
    assert MonthStart(0) == 0 && MonthStart(1) == 31 && MonthStart(2) == 61 && MonthStart(3) == 92;
    assert MonthStart(4) == 122 && MonthStart(5) == 153 && MonthStart(6) == 184 && MonthStart(7) == 214;
    assert MonthStart(8) == 245 && MonthStart(9) == 275 && MonthStart(10) == 306 && MonthStart(11) == 337;
    assert MonthStart(12) == 367;
  }

  /** Every day of a year lies in one of its months. */
  lemma MonthContains(y: int, k: int) returns (m: int, d: int)
    requires 0 <= k < YearLength(y)
    ensures 0 <= m < 12 && 1 <= d <= MarchMonthLength(y, m) && k == MonthStart(m) + d - 1
  {
    m := 0;
    while m < 11 && MonthStart(m + 1) <= k
      invariant 0 <= m < 12 && MonthStart(m) <= k
    {
      m := m + 1;
    }
    d := k - MonthStart(m) + 1;
  }

  /** The calendar date of day `d` of month `m` of March year `y` of an era. */
  function MarchDate(era: int, y: int, m: int, d: int): Date {
    var year := y + era * 400;
    var month := m + (if m < 10 then 3 else -9);
    Date(if month <= 2 then year + 1 else year, month, d)
  }

  lemma Mod4(n: int, k: int)
    ensures (n + 4 * k) % 4 == n % 4
  {
    assert n + 4 * k == 4 * (n / 4 + k) + n % 4;
  }

  lemma Mod100(n: int, k: int)
    ensures (n + 100 * k) % 100 == n % 100
  {
    assert n + 100 * k == 100 * (n / 100 + k) + n % 100;
  }

  lemma Mod400(n: int, k: int)
    ensures (n + 400 * k) % 400 == n % 400
  {
    assert n + 400 * k == 400 * (n / 400 + k) + n % 400;
  }

  lemma LeapIs(era: int, y: int)
    requires 0 <= y < 400
    ensures Leap(y + era * 400 + 1) <==> LeapDay(y)
  {
    var n := y + 1;
    var year := n + era * 400;
    Mod4(n, 100 * era);
    Mod100(n, 4 * era);
    Mod400(n, era);
    assert year % 4 == n % 4 && year % 100 == n % 100 && year % 400 == n % 400;
  }

  lemma MarchDateIsDate(era: int, y: int, m: int, d: int)
    requires 0 <= y < 400 && 0 <= m < 12
    ensures IsDate(MarchDate(era, y, m, d)) <==> 1 <= d <= MarchMonthLength(y, m)
  {
    LeapIs(era, y);
  }

  lemma NumberOfParts(era: int, y: int, m: int, d: int)
    requires 0 <= y < 400 && 0 <= m < 12
    ensures DayNumber(MarchDate(era, y, m, d)) == era * 146_097 + (YearStart(y) + (MonthStart(m) + d - 1)) - 719_468
  {
    var year := y + era * 400;
    assert year / 400 == era && year % 400 == y;
  }

  lemma CivilOfYearIs(era: int, y: int, m: int, d: int)
    requires 0 <= m < 12 && 1 <= d <= MarchMonthLength(y, m)
    ensures CivilOfYear(y + era * 400, MonthStart(m) + d - 1) == MarchDate(era, y, m, d)
  {
    MonthIs(y, m, d);
  }

  lemma CivilOfEraIs(era: int, y: int, k: int)
    requires 0 <= y < 400 && 0 <= k < YearLength(y)
    ensures CivilOfEra(era, YearStart(y) + k) == CivilOfYear(y + era * 400, k)
  {
    YearOfEraIs(y, k);
  }

  lemma EraOf(era: int, dayOfEra: int)
    requires 0 <= dayOfEra < 146_097
    ensures Era(era * 146_097 + dayOfEra) == era
  {
    EraIsFloor(era * 146_097 + dayOfEra);
  }

  lemma CivilOfEraDay(era: int, dayOfEra: int)
    requires 0 <= dayOfEra < 146_097
    ensures CivilFromDay(era * 146_097 + dayOfEra - 719_468) == CivilOfEra(era, dayOfEra)
  {
    EraOf(era, dayOfEra);
    var z := era * 146_097 + dayOfEra - 719_468 + 719_468;
    assert Era(z) == era && z - era * 146_097 == dayOfEra;
  }

  lemma CivilOfYearDay(era: int, y: int, k: int, date: Date)
    requires 0 <= y < 400 && 0 <= k < YearLength(y) && CivilOfYear(y + era * 400, k) == date
    ensures CivilFromDay(era * 146_097 + (YearStart(y) + k) - 719_468) == date
  {
    YearOfEraIs(y, k);
    CivilOfEraDay(era, YearStart(y) + k);
    CivilOfEraIs(era, y, k);
  }

  /** The source's arithmetic on a day given by its place in the March calendar. */
  lemma CivilOfParts(era: int, y: int, m: int, d: int)
    requires 0 <= y < 400 && 0 <= m < 12 && 1 <= d <= MarchMonthLength(y, m)
    ensures CivilFromDay(era * 146_097 + (YearStart(y) + (MonthStart(m) + d - 1)) - 719_468) == MarchDate(era, y, m, d)
  {
    MonthIs(y, m, d);
    CivilOfYearIs(era, y, m, d);
    CivilOfYearDay(era, y, MonthStart(m) + d - 1, MarchDate(era, y, m, d));
  }

  /** Every day number has a valid date whose number it is. */
  lemma CivilRoundTrip(day: int)
    ensures IsDate(CivilFromDay(day)) && DayNumber(CivilFromDay(day)) == day
  {
    var z := day + 719_468;
    var y, k := YearContains(z % 146_097);
    var m, d := MonthContains(y, k);
    CivilOfParts(z / 146_097, y, m, d);
    NumberOfParts(z / 146_097, y, m, d);
    MarchDateIsDate(z / 146_097, y, m, d);
  }

  /** Every valid date is the date of its number. */
  lemma NumberRoundTrip(d: Date)
    requires IsDate(d)
    ensures CivilFromDay(DayNumber(d)) == d
  {
    var era, y, m := PartsOf(d);
    NumberOfParts(era, y, m, d.day);
    CivilOfParts(era, y, m, d.day);
  }

  lemma PartsOf(d: Date) returns (era: int, y: int, m: int)
    requires IsDate(d)
    ensures 0 <= y < 400 && 0 <= m < 12 && 1 <= d.day <= MarchMonthLength(y, m) && MarchDate(era, y, m, d.day) == d
  {
    var year := if d.month <= 2 then d.year - 1 else d.year;
    m := if d.month <= 2 then d.month + 9 else d.month - 3;
    era, y := year / 400, year % 400;
    assert year == y + era * 400;
    MarchDateIsDate(era, y, m, d.day);
  }

  /** The day after, within a month, at a month's end, and at the end of February. */
  lemma NextMarchDate(era: int, y: int, m: int, d: int)
    requires 0 <= y < 400 && 0 <= m < 12 && 1 <= d <= MarchMonthLength(y, m) && IsDate(MarchDate(era, y, m, d))
    ensures NextDate(MarchDate(era, y, m, d)) == MarchNext(era, y, m, d)
  {
    MarchDateIsDate(era, y, m, d + 1);
    if m < 11 {
      assert MarchMonthLength(y, m) == MonthLength(2001, MarchDate(era, y, m, d).month);
    }
  }

  /** The date after day `d` of month `m` of March year `y`. */
  function MarchNext(era: int, y: int, m: int, d: int): Date {
    if d < MarchMonthLength(y, m) then MarchDate(era, y, m, d + 1)
    else if m < 11 then MarchDate(era, y, m + 1, 1)
    else if y < 399 then MarchDate(era, y + 1, 0, 1)
    else MarchDate(era + 1, 0, 0, 1)
  }

  /** A month is followed by the next, and the last by the next year. */
  lemma MonthFollows(y: int, m: int)
    requires 0 <= m < 12
    ensures m < 11 ==> MonthStart(m) + MarchMonthLength(y, m) == MonthStart(m + 1)
    ensures m == 11 ==> MonthStart(m) + MarchMonthLength(y, m) == YearLength(y)
    ensures MonthStart(0) == 0
  {
  }

  lemma MarchNextNumber(era: int, y: int, m: int, d: int)
    requires 0 <= y < 400 && 0 <= m < 12 && 1 <= d <= MarchMonthLength(y, m)
    ensures DayNumber(MarchNext(era, y, m, d)) == DayNumber(MarchDate(era, y, m, d)) + 1
  {
    NumberOfParts(era, y, m, d);
    MonthFollows(y, m);
    YearFollows(y);
    if d < MarchMonthLength(y, m) {
      NumberOfParts(era, y, m, d + 1);
    } else if m < 11 {
      NumberOfParts(era, y, m + 1, 1);
    } else if y < 399 {
      NumberOfParts(era, y + 1, 0, 1);
    } else {
      NumberOfParts(era + 1, 0, 0, 1);
    }
  }

  /** The calendar's successor has the next number. */
  lemma NextNumber(d: Date)
    requires IsDate(d)
    ensures DayNumber(NextDate(d)) == DayNumber(d) + 1
  {
    var era, y, m := PartsOf(d);
    NextMarchDate(era, y, m, d.day);
    MarchNextNumber(era, y, m, d.day);
  }

  /** Day zero is the epoch. */
  lemma Epoch()
    ensures CivilFromDay(0) == Date(1970, 1, 1)
  {
    assert YearStart(369) == 134_774 && MonthStart(10) == 306 && MarchDate(4, 369, 10, 1) == Date(1970, 1, 1);
    CivilOfParts(4, 369, 10, 1);
  }

  /** Consecutive days have successive dates, in both directions from the epoch. */
  lemma ConsecutiveDays(day: int)
    ensures IsDate(CivilFromDay(day)) && CivilFromDay(day + 1) == NextDate(CivilFromDay(day))
  {
    CivilRoundTrip(day);
    CivilOfNext(CivilFromDay(day), day);
  }

  lemma CivilOfNext(d: Date, day: int)
    requires IsDate(d) && DayNumber(d) == day
    ensures CivilFromDay(day + 1) == NextDate(d)
  {
    NextNumber(d);
    CivilOfNumber(NextDate(d), day + 1);
  }

  lemma CivilOfNumber(d: Date, day: int)
    requires IsDate(d) && DayNumber(d) == day
    ensures CivilFromDay(day) == d
  {
    NumberRoundTrip(d);
  }

  // ----- the printed forms

  /** `{year:04}`: the sign counts towards the width. */
  function YearText(year: int): string {
    if year < 0 then "-" + Padded(-year, 3) else Padded(year, 4)
  }

  function DateText(d: Date): string
    requires IsDate(d)
  {
    YearText(d.year) + "-" + Padded(d.month, 2) + "-" + Padded(d.day, 2)
  }

  function FormatUtcDay(day: int): string {
    CivilRoundTrip(day);
    DateText(CivilFromDay(day))
  }

  /** A year by sign and value: four characters, or as many as it needs. */
  predicate YearDenoted(text: string, year: int) {
    if year < 0 then |text| > 0 && text[0] == '-' && Denotes(text[1..], -year, 3) else Denotes(text, year, 4)
  }

  /** The text names the date: its year, a dash, its month in two digits, a dash, its day in two digits. */
  predicate DateDenoted(text: string, d: Date) {
    var n := |text|;
    && n >= 6 && text[n - 6] == text[n - 3] == '-'
    && PartsDenoted(text[..n - 6], text[n - 5..n - 3], text[n - 2..], d)
  }

  predicate PartsDenoted(year: string, month: string, day: string, d: Date) {
    YearDenoted(year, d.year) && d.month >= 0 && Denotes(month, d.month, 2) && d.day >= 0 && Denotes(day, d.day, 2)
  }

  lemma DateFromParts(year: string, month: string, day: string, d: Date)
    requires PartsDenoted(year, month, day, d) && |month| == |day| == 2
    ensures DateDenoted(year + "-" + month + "-" + day, d)
  {
    var text := year + "-" + month + "-" + day;
    var n := |text|;
    assert text[..n - 6] == year && text[n - 5..n - 3] == month && text[n - 2..] == day;
  }

  lemma DateTextDenotes(d: Date)
    requires IsDate(d)
    ensures DateDenoted(DateText(d), d)
  {
    YearTextDenotes(d.year);
    TwoDigits(d.month);
    TwoDigits(d.day);
    PaddedDenotes(d.month, 2);
    PaddedDenotes(d.day, 2);
    DateFromParts(YearText(d.year), Padded(d.month, 2), Padded(d.day, 2), d);
  }

  lemma YearTextDenotes(year: int)
    ensures YearDenoted(YearText(year), year)
  {
    if year < 0 {
      PaddedDenotes(-year, 3);
      assert ("-" + Padded(-year, 3))[1..] == Padded(-year, 3);
    } else {
      PaddedDenotes(year, 4);
    }
  }

  /** The printed day names the one date with this number. */
  lemma FormatUtcDayDenotes(d: Date)
    requires IsDate(d)
    ensures DateDenoted(FormatUtcDay(DayNumber(d)), d)
  {
    NumberRoundTrip(d);
    DateTextDenotes(d);
  }

  lemma YearTextSign(year: int)
    ensures |YearText(year)| > 0 && (YearText(year)[0] == '-' <==> year < 0)
  {
  }

  lemma NegativeYears(a: nat, b: nat)
    requires "-" + Padded(a, 3) == "-" + Padded(b, 3)
    ensures a == b
  {
    var pa, pb := Padded(a, 3), Padded(b, 3);
    assert pa == ("-" + pa)[1..] && pb == ("-" + pb)[1..];
    PaddedInjective(a, b, 3);
  }

  lemma YearTextInjective(a: int, b: int)
    requires YearText(a) == YearText(b)
    ensures a == b
  {
    YearTextSign(a);
    YearTextSign(b);
    if a < 0 {
      NegativeYears(-a, -b);
    } else {
      PaddedInjective(a, b, 4);
    }
  }

  lemma DateTextInjective(a: Date, b: Date)
    requires IsDate(a) && IsDate(b) && DateText(a) == DateText(b)
    ensures a == b
  {
    TwoDigits(a.month);
    TwoDigits(a.day);
    TwoDigits(b.month);
    TwoDigits(b.day);
    SplitEqual(YearText(a.year) + "-" + Padded(a.month, 2) + "-", Padded(a.day, 2),
               YearText(b.year) + "-" + Padded(b.month, 2) + "-", Padded(b.day, 2));
    SplitEqual(YearText(a.year) + "-" + Padded(a.month, 2), "-", YearText(b.year) + "-" + Padded(b.month, 2), "-");
    SplitEqual(YearText(a.year) + "-", Padded(a.month, 2), YearText(b.year) + "-", Padded(b.month, 2));
    SplitEqual(YearText(a.year), "-", YearText(b.year), "-");
    YearTextInjective(a.year, b.year);
    PaddedInjective(a.month, b.month, 2);
    PaddedInjective(a.day, b.day, 2);
  }

  /** Different days print differently. */
  lemma FormatUtcDayInjective(a: int, b: int)
    requires FormatUtcDay(a) == FormatUtcDay(b)
    ensures a == b
  {
    CivilRoundTrip(a);
    CivilRoundTrip(b);
    DateTextInjective(CivilFromDay(a), CivilFromDay(b));
  }

  /** The time of day, to the second. */
  function TimeText(seconds: nat): string {
    "T" + Padded(seconds / 3_600, 2) + ":" + Padded(seconds % 3_600 / 60, 2) + ":" + Padded(seconds % 60, 2) + "Z"
  }

  function FormatUtcTimestamp(unixMs: nat): string {
    FormatUtcDay(unixMs / 86_400_000) + TimeText(unixMs / 1_000 % 86_400)
  }

  lemma TimeParts(s: nat)
    requires s < 86_400
    ensures s / 3_600 < 24 && s % 3_600 / 60 < 60 && s % 60 < 60
    ensures s == s / 3_600 * 3_600 + s % 3_600 / 60 * 60 + s % 60
  {
    assert s % 3_600 % 60 == s % 60;
  }

  lemma TimeTextParts(s: nat)
    requires s < 86_400
    ensures var t := TimeText(s);
            && |t| == 10
            && t[1..3] == Padded(s / 3_600, 2)
            && t[4..6] == Padded(s % 3_600 / 60, 2)
            && t[7..9] == Padded(s % 60, 2)
  {
    TimeParts(s);
    TwoDigits(s / 3_600);
    TwoDigits(s % 3_600 / 60);
    TwoDigits(s % 60);
  }

  /** The text names a time of day: hour, minute and second in two digits each. */
  predicate TimeDenoted(text: string, seconds: nat) {
    && |text| == 10 && text[0] == 'T' && text[3] == text[6] == ':' && text[9] == 'Z'
    && IsNumeral(text[1..3]) && IsNumeral(text[4..6]) && IsNumeral(text[7..9])
    && Value(text[1..3]) < 24 && Value(text[4..6]) < 60 && Value(text[7..9]) < 60
    && seconds == Value(text[1..3]) * 3_600 + Value(text[4..6]) * 60 + Value(text[7..9])
  }

  lemma TimeTextDenotes(s: nat)
    requires s < 86_400
    ensures TimeDenoted(TimeText(s), s)
  {
    TimeTextParts(s);
    TimeParts(s);
    ValueOfPadded(s / 3_600, 2);
    ValueOfPadded(s % 3_600 / 60, 2);
    ValueOfPadded(s % 60, 2);
  }

  /** The moment, in milliseconds from the epoch, falls in this second of this day. */
  predicate AtSecond(unixMs: nat, day: int, second: nat) {
    unixMs / 1_000 == day * 86_400 + second
  }

  lemma DayAndSecond(unixMs: nat, day: int, second: nat)
    requires second < 86_400 && AtSecond(unixMs, day, second)
    ensures unixMs / 86_400_000 == day && unixMs / 1_000 % 86_400 == second
  {
    assert unixMs / 86_400_000 == unixMs / 1_000 / 86_400;
  }

  /** The printed moment names the date of its day, and the second of that day. */
  lemma FormatUtcTimestampDenotes(unixMs: nat, d: Date, second: nat)
    requires IsDate(d) && second < 86_400 && AtSecond(unixMs, DayNumber(d), second)
    ensures var text := FormatUtcTimestamp(unixMs);
            |text| >= 10 && DateDenoted(text[..|text| - 10], d) && TimeDenoted(text[|text| - 10..], second)
  {
    DayAndSecond(unixMs, DayNumber(d), second);
    PrintedMoment(unixMs / 86_400_000, second, d);
  }

  lemma PrintedMoment(day: nat, second: nat, d: Date)
    requires IsDate(d) && second < 86_400 && DayNumber(d) == day
    ensures var text := FormatUtcDay(day) + TimeText(second);
            |text| >= 10 && DateDenoted(text[..|text| - 10], d) && TimeDenoted(text[|text| - 10..], second)
  {
    FormatUtcDayDenotes(d);
    TimeTextDenotes(second);
    var date, t := FormatUtcDay(day), TimeText(second);
    var text := date + t;
    assert text[..|text| - 10] == date && text[|text| - 10..] == t;
  }

  lemma TimeTextInjective(a: nat, b: nat)
    requires a < 86_400 && b < 86_400 && TimeText(a) == TimeText(b)
    ensures a == b
  {
    TimeTextParts(a);
    TimeTextParts(b);
    PaddedInjective(a / 3_600, b / 3_600, 2);
    PaddedInjective(a % 3_600 / 60, b % 3_600 / 60, 2);
    PaddedInjective(a % 60, b % 60, 2);
    TimeParts(a);
    TimeParts(b);
  }

  lemma SameSecond(a: nat, b: nat)
    ensures a / 1_000 == b / 1_000 <==>
              a / 86_400_000 == b / 86_400_000 && a / 1_000 % 86_400 == b / 1_000 % 86_400
  {
    assert a / 86_400_000 == a / 1_000 / 86_400;
    assert b / 86_400_000 == b / 1_000 / 86_400;
  }

  lemma SplitTimes(a: string, ta: nat, b: string, tb: nat)
    requires ta < 86_400 && tb < 86_400 && a + TimeText(ta) == b + TimeText(tb)
    ensures a == b && ta == tb
  {
    TimeTextParts(ta);
    TimeTextParts(tb);
    SplitEqual(a, TimeText(ta), b, TimeText(tb));
    TimeTextInjective(ta, tb);
  }

  /** Two moments print alike exactly when they lie in the same second. */
  lemma FormatUtcTimestampInjective(a: nat, b: nat)
    ensures FormatUtcTimestamp(a) == FormatUtcTimestamp(b) <==> a / 1_000 == b / 1_000
  {
    SameSecond(a, b);
    if FormatUtcTimestamp(a) == FormatUtcTimestamp(b) {
      SameText(a / 86_400_000, a / 1_000 % 86_400, b / 86_400_000, b / 1_000 % 86_400);
    }
  }

  lemma SameText(da: nat, ta: nat, db: nat, tb: nat)
    requires ta < 86_400 && tb < 86_400 && FormatUtcDay(da) + TimeText(ta) == FormatUtcDay(db) + TimeText(tb)
    ensures da == db && ta == tb
  {
    SplitTimes(FormatUtcDay(da), ta, FormatUtcDay(db), tb);
    FormatUtcDayInjective(da, db);
  }
}
