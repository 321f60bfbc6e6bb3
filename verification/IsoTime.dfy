/** UTC timestamps as text (core.py, `to_iso` and `from_iso`): the SQL test for an open
    quote compares strings, order creation compares times; both must agree. */
module IsoTime {
  import opened Wrappers
  import opened Digits
  import opened Division

  datatype DateTime = DateTime(
    year: nat, month: nat, day: nat, hour: nat, minute: nat, second: nat, micro: nat)

  predicate Leap(y: nat) { y % 4 == 0 && (y % 100 != 0 || y % 400 == 0) }

  function DaysIn(y: nat, m: nat): nat {
    if m == 2 then (if Leap(y) then 29 else 28)
    else if m == 4 || m == 6 || m == 9 || m == 11 then 30 else 31
  }

  predicate Valid(d: DateTime) {
    && 1 <= d.year <= 9999 && 1 <= d.month <= 12 && 1 <= d.day <= DaysIn(d.year, d.month)
    && d.hour < 24 && d.minute < 60 && d.second < 60 && d.micro < 1_000_000
  }

  // --- elapsed time ---------------------------------------------------------------

  function DaysBeforeMonth(y: nat, m: nat): nat {
    if m <= 1 then 0 else DaysBeforeMonth(y, m - 1) + DaysIn(y, m - 1)
  }

  function DaysBeforeYear(y: nat): int
    requires y >= 1
  {
    (y - 1) * 365 + (y - 1) / 4 - (y - 1) / 100 + (y - 1) / 400
  }

  /** The proleptic Gregorian day number, 0001-01-01 being day 1. */
  function Ordinal(d: DateTime): int
    requires Valid(d)
  {
    DaysBeforeYear(d.year) + DaysBeforeMonth(d.year, d.month) + d.day
  }

  /** Microseconds since the calendar began. */
  function Micros(d: DateTime): int
    requires Valid(d)
  {
    (((Ordinal(d) * 24 + d.hour) * 60 + d.minute) * 60 + d.second) * 1_000_000 + d.micro
  }

  predicate EarlierDate(a: DateTime, b: DateTime) {
    a.year < b.year || (a.year == b.year && (a.month < b.month || (a.month == b.month && a.day < b.day)))
  }

  predicate SameDate(a: DateTime, b: DateTime) { a.year == b.year && a.month == b.month && a.day == b.day }

  predicate EarlierTime(a: DateTime, b: DateTime) {
    a.hour < b.hour || (a.hour == b.hour && (a.minute < b.minute || (a.minute == b.minute
      && (a.second < b.second || (a.second == b.second && a.micro < b.micro)))))
  }

  /** Field by field, most significant first. */
  predicate Earlier(a: DateTime, b: DateTime) {
    EarlierDate(a, b) || (SameDate(a, b) && EarlierTime(a, b))
  }

  lemma {:induction false} MonthsGrow(y: nat, m: nat, m': nat)
    requires 1 <= m < m'
    ensures DaysBeforeMonth(y, m) + DaysIn(y, m) <= DaysBeforeMonth(y, m')
  {
    if m + 1 < m' {
      MonthsGrow(y, m, m' - 1);
    }
  }

  function LeapDay(y: nat): nat { if Leap(y) then 1 else 0 }

  /** Each kind of year counts one more quotient, and each kind is among the one before. */
  lemma Quotients(y: nat)
    requires y >= 1
    ensures y / 4 == (y - 1) / 4 + if y % 4 == 0 then 1 else 0
    ensures y / 100 == (y - 1) / 100 + if y % 100 == 0 then 1 else 0
    ensures y / 400 == (y - 1) / 400 + if y % 400 == 0 then 1 else 0
    ensures (y % 100 == 0 ==> y % 4 == 0) && (y % 400 == 0 ==> y % 100 == 0)
  {
    NextQuotient(y, 4);
    NextQuotient(y, 100);
    NextQuotient(y, 400);
    if y % 100 == 0 { MultipleOf(y, 4, 25); }
    if y % 400 == 0 { MultipleOf(y, 100, 4); }
  }

  /** The three division counts between consecutive years add up to the leap day. */
  lemma LeapCount(y: nat, a: bool, b: bool, c: bool)
    requires a == (y % 4 == 0) && b == (y % 100 == 0) && c == (y % 400 == 0) && (b ==> a) && (c ==> b)
    ensures LeapDay(y) == (if a then 1 else 0) - (if b then 1 else 0) + (if c then 1 else 0)
  {
  }

  lemma YearLength(y: nat)
    requires y >= 1
    ensures DaysBeforeYear(y + 1) == DaysBeforeYear(y) + 365 + LeapDay(y)
  {
    hide LeapDay;
    Quotients(y);
    LeapCount(y, y % 4 == 0, y % 100 == 0, y % 400 == 0);
  }

  lemma MonthStep(y: nat, m: nat)
    requires 1 <= m
    ensures DaysBeforeMonth(y, m + 1) == DaysBeforeMonth(y, m) + DaysIn(y, m)
  {
  }

  lemma MonthsFillYear(y: nat)
    ensures DaysBeforeMonth(y, 12) + 31 == 365 + LeapDay(y)
  {
    hide DaysBeforeMonth, Leap;
    assert DaysBeforeMonth(y, 1) == 0 by { FirstMonth(y); }
    MonthStep(y, 1); MonthStep(y, 2); MonthStep(y, 3); MonthStep(y, 4); MonthStep(y, 5); MonthStep(y, 6);
    MonthStep(y, 7); MonthStep(y, 8); MonthStep(y, 9); MonthStep(y, 10); MonthStep(y, 11);
  }

  lemma FirstMonth(y: nat)
    ensures DaysBeforeMonth(y, 1) == 0
  {
  }

  lemma {:induction false} YearsGrow(y: nat, y': nat)
    requires 1 <= y <= y'
    ensures DaysBeforeYear(y) <= DaysBeforeYear(y')
    decreases y' - y
  {
    if y < y' {
      YearLength(y);
      YearsGrow(y + 1, y');
    }
  }

  lemma DateOrder(a: DateTime, b: DateTime)
    requires Valid(a) && Valid(b) && EarlierDate(a, b)
    ensures Ordinal(a) < Ordinal(b)
  {
    hide DaysBeforeYear, DaysBeforeMonth, DaysIn, Leap;
    DayOfYear(a);
    DayOfYear(b);
    if a.year < b.year {
      YearsGrow(a.year + 1, b.year);
    } else if a.month < b.month {
      MonthsGrow(a.year, a.month, b.month);
    }
  }

  lemma DayOfYear(d: DateTime)
    requires Valid(d)
    ensures 0 < Ordinal(d) - DaysBeforeYear(d.year) && Ordinal(d) <= DaysBeforeYear(d.year + 1)
  {
    hide DaysBeforeYear, DaysBeforeMonth, Leap;
    YearLength(d.year);
    MonthsFillYear(d.year);
    if d.month < 12 {
      MonthsGrow(d.year, d.month, 12);
    }
  }

  /** Field order is the order of elapsed time. */
  lemma FieldsOrderTime(a: DateTime, b: DateTime)
    requires Valid(a) && Valid(b)
    ensures Earlier(a, b) <==> Micros(a) < Micros(b)
    ensures Micros(a) == Micros(b) ==> a == b
  {
    hide Ordinal;
    if EarlierDate(a, b) { DateOrder(a, b); }
    if EarlierDate(b, a) { DateOrder(b, a); }
    assert SameDate(a, b) ==> Ordinal(a) == Ordinal(b) by { SameOrdinal(a, b); }
  }

  lemma SameOrdinal(a: DateTime, b: DateTime)
    requires Valid(a) && Valid(b)
    ensures SameDate(a, b) ==> Ordinal(a) == Ordinal(b)
  {
  }

  // --- text --------------------------------------------------------------------------

  /** `datetime.isoformat()` of a UTC time: zero microseconds are left out. */
  function ToIso(d: DateTime): string {
    Padded(d.year, 4) + "-" + Padded(d.month, 2) + "-" + Padded(d.day, 2) + "T"
    + Padded(d.hour, 2) + ":" + Padded(d.minute, 2) + ":" + Padded(d.second, 2)
    + (if d.micro == 0 then "" else "." + Padded(d.micro, 6)) + "+00:00"
  }

  /** Byte order of ASCII text, as SQLite compares it. */
  predicate Less(a: string, b: string) {
    b != [] && (a == [] || a[0] < b[0] || (a[0] == b[0] && Less(a[1..], b[1..])))
  }

  function Fixed(n: nat, width: nat): (s: string)
    ensures |s| == width
  {
    if width == 0 then "" else Fixed(n / 10, width - 1) + [DigitChar(n % 10)]
  }

  lemma {:induction false} PaddedIsFixed(n: nat, width: nat)
    requires width > 0 && n < Pow10(width)
    ensures Padded(n, width) == Fixed(n, width)
  {
    NumeralLength(n, width);
    if width == 1 {
      assert Pow10(1) == 10 * Pow10(0);
      assert Fixed(n, 1) == Fixed(n / 10, 0) + [DigitChar(n % 10)];
    } else {
      assert n / 10 < Pow10(width - 1);
      PaddedIsFixed(n / 10, width - 1);
      NumeralLength(n / 10, width - 1);
      if n < 10 {
        FixedZero(width - 1);
        assert Zeros(width - 1) + Numeral(n) == Zeros(width - 1) + [DigitChar(n)];
      } else {
        var front := Numeral(n / 10);
        assert Padded(n, width) == Zeros(width - |Numeral(n)|) + Numeral(n);
        assert Zeros(width - 1 - |front|) + front + [DigitChar(n % 10)]
               == Zeros(width - |Numeral(n)|) + (front + [DigitChar(n % 10)]);
      }
    }
  }

  lemma {:induction false} FixedZero(width: nat)
    ensures Fixed(0, width) == Zeros(width)
  {
    if width > 0 {
      FixedZero(width - 1);
      assert DigitChar(0) == '0';
    }
  }

  lemma LessHead(c: char, c': char, x: string, y: string)
    ensures Less([c] + x, [c'] + y) <==> c < c' || (c == c' && Less(x, y))
  {
    assert ([c] + x)[1..] == x && ([c'] + y)[1..] == y;
  }

  /** Fixed-width numerals order as numbers, and pass ties on to what follows. */
  lemma {:induction false} FixedOrder(n: nat, m: nat, width: nat, x: string, y: string)
    requires n < Pow10(width) && m < Pow10(width)
    ensures Less(Fixed(n, width) + x, Fixed(m, width) + y) <==> n < m || (n == m && Less(x, y))
  {
    if width == 0 {
      assert Fixed(n, 0) + x == x && Fixed(m, 0) + y == y;
    } else {
      var c, c' := DigitChar(n % 10), DigitChar(m % 10);
      FixedOrder(n / 10, m / 10, width - 1, [c] + x, [c'] + y);
      LessHead(c, c', x, y);
      assert Fixed(n, width) + x == Fixed(n / 10, width - 1) + ([c] + x);
      assert Fixed(m, width) + y == Fixed(m / 10, width - 1) + ([c'] + y);
    }
  }

  /** One field and its separator. */
  lemma FieldOrder(n: nat, m: nat, width: nat, sep: char, x: string, y: string)
    requires width > 0 && n < Pow10(width) && m < Pow10(width)
    ensures Less(Padded(n, width) + [sep] + x, Padded(m, width) + [sep] + y) <==> n < m || (n == m && Less(x, y))
  {
    PaddedIsFixed(n, width);
    PaddedIsFixed(m, width);
    FixedOrder(n, m, width, [sep] + x, [sep] + y);
    LessHead(sep, sep, x, y);
    assert Padded(n, width) + [sep] + x == Fixed(n, width) + ([sep] + x);
    assert Padded(m, width) + [sep] + y == Fixed(m, width) + ([sep] + y);
  }

  lemma Powers()
    ensures Pow10(2) == 100 && Pow10(4) == 10_000 && Pow10(6) == 1_000_000
  {
    assert Pow10(4) == 10 * Pow10(3) && Pow10(3) == 10 * Pow10(2) && Pow10(2) == 10 * Pow10(1);
    assert Pow10(1) == 10 * Pow10(0) && Pow10(6) == 10 * Pow10(5) && Pow10(5) == 10 * Pow10(4);
  }

  function Fraction(micro: nat): string {
    (if micro == 0 then "" else "." + Padded(micro, 6)) + "+00:00"
  }

  lemma {:induction false} LessIrreflexive(s: string)
    ensures !Less(s, s)
  {
    if s != [] {
      LessIrreflexive(s[1..]);
    }
  }

  /** Omitted zero microseconds sort first, because '+' is below '.'. */
  lemma FractionOrder(u: nat, v: nat)
    requires u < 1_000_000 && v < 1_000_000
    ensures Less(Fraction(u), Fraction(v)) <==> u < v
  {
    hide Padded;
    LessIrreflexive(Fraction(0));
    if u > 0 { assert Fraction(u)[0] == '.'; }
    if v > 0 { assert Fraction(v)[0] == '.'; }
    assert Fraction(0)[0] == '+';
    if u > 0 && v > 0 {
      WrittenFractions(u, v);
    }
  }

  lemma WrittenFractions(u: nat, v: nat)
    requires 0 < u < 1_000_000 && 0 < v < 1_000_000
    ensures Less(Fraction(u), Fraction(v)) <==> u < v
  {
    hide Padded, Less, Fixed;
    Powers();
    LessIrreflexive("+00:00");
    PaddedIsFixed(u, 6);
    PaddedIsFixed(v, 6);
    LessHead('.', '.', Padded(u, 6) + "+00:00", Padded(v, 6) + "+00:00");
    assert Fraction(u) == ['.'] + (Padded(u, 6) + "+00:00");
    assert Fraction(v) == ['.'] + (Padded(v, 6) + "+00:00");
    FixedOrder(u, v, 6, "+00:00", "+00:00");
  }

  function TimeText(d: DateTime): string {
    Padded(d.hour, 2) + ":" + (Padded(d.minute, 2) + ":" + (Padded(d.second, 2) + Fraction(d.micro)))
  }

  function DateText(d: DateTime, rest: string): string {
    Padded(d.year, 4) + "-" + (Padded(d.month, 2) + "-" + (Padded(d.day, 2) + "T" + rest))
  }

  lemma IsoParts(d: DateTime)
    ensures ToIso(d) == DateText(d, TimeText(d))
  {
    hide Padded;
  }

  lemma TimeOrder(a: DateTime, b: DateTime)
    requires Valid(a) && Valid(b)
    ensures Less(TimeText(a), TimeText(b)) <==> EarlierTime(a, b)
  {
    hide Padded, Fraction, Less, Fixed;
    Powers();
    FractionOrder(a.micro, b.micro);
    PaddedIsFixed(a.second, 2);
    PaddedIsFixed(b.second, 2);
    FixedOrder(a.second, b.second, 2, Fraction(a.micro), Fraction(b.micro));
    var sa, sb := Padded(a.second, 2) + Fraction(a.micro), Padded(b.second, 2) + Fraction(b.micro);
    FieldOrder(a.minute, b.minute, 2, ':', sa, sb);
    FieldOrder(a.hour, b.hour, 2, ':', Padded(a.minute, 2) + ":" + sa, Padded(b.minute, 2) + ":" + sb);
  }

  lemma DateTextOrder(a: DateTime, b: DateTime, x: string, y: string)
    requires Valid(a) && Valid(b)
    ensures Less(DateText(a, x), DateText(b, y)) <==> EarlierDate(a, b) || (SameDate(a, b) && Less(x, y))
  {
    hide Padded, Less;
    Powers();
    FieldOrder(a.day, b.day, 2, 'T', x, y);
    var da, db := Padded(a.day, 2) + "T" + x, Padded(b.day, 2) + "T" + y;
    FieldOrder(a.month, b.month, 2, '-', da, db);
    FieldOrder(a.year, b.year, 4, '-', Padded(a.month, 2) + "-" + da, Padded(b.month, 2) + "-" + db);
  }

  /** Over all UTC datetimes, byte order of the texts is chronological order. */
  lemma IsoOrder(a: DateTime, b: DateTime)
    requires Valid(a) && Valid(b)
    ensures Less(ToIso(a), ToIso(b)) <==> Micros(a) < Micros(b)
  {
    hide Less, ToIso, DateText, TimeText, Micros;
    IsoParts(a);
    IsoParts(b);
    TimeOrder(a, b);
    DateTextOrder(a, b, TimeText(a), TimeText(b));
    FieldsOrderTime(a, b);
  }

  // --- reading back --------------------------------------------------------------------

  function Number2(s: string, at: nat, len: nat): Option<nat>
    requires at + len <= |s|
  {
    Number(AsciiDigit, s[at..at + len])
  }

  /** `from_iso` on the shapes `isoformat` writes; a text without offset is taken as UTC. */
  function FromIso(text: string): Option<DateTime> {
    var s := if |text| >= 6 && text[|text| - 6..] == "+00:00" then text[..|text| - 6] else text;
    if |s| != 19 && |s| != 26 then None
    else if s[4] != '-' || s[7] != '-' || s[10] != 'T' || s[13] != ':' || s[16] != ':' then None
    else if |s| == 26 && s[19] != '.' then None
    else
      match (Number2(s, 0, 4), Number2(s, 5, 2), Number2(s, 8, 2), Number2(s, 11, 2), Number2(s, 14, 2),
             Number2(s, 17, 2), if |s| == 26 then Number2(s, 20, 6) else Some(0))
      case (Some(y), Some(mo), Some(d), Some(h), Some(mi), Some(sec), Some(us)) =>
        var t := DateTime(y, mo, d, h, mi, sec, us);
        if Valid(t) then Some(t) else None
      case _ => None
  }

  lemma PaddedLength(n: nat, width: nat)
    requires width > 0 && n < Pow10(width)
    ensures |Padded(n, width)| == width
  {
    NumeralLength(n, width);
  }

  /** Reading undoes printing. */
  lemma IsoRoundTrip(d: DateTime)
    requires Valid(d)
    ensures FromIso(ToIso(d)) == Some(d)
  {
    hide Padded, Number;
    Powers();
    assert d.day < 100 by { assert DaysIn(d.year, d.month) <= 31; }
    FieldReads(d.year, 4);
    FieldReads(d.month, 2);
    FieldReads(d.day, 2);
    FieldReads(d.hour, 2);
    FieldReads(d.minute, 2);
    FieldReads(d.second, 2);
    FieldReads(d.micro, 6);
    var text := ToIso(d);
    var s := text[..|text| - 6];
    assert text[|text| - 6..] == "+00:00";
    assert s[0..4] == Padded(d.year, 4) && s[5..7] == Padded(d.month, 2) && s[8..10] == Padded(d.day, 2);
    assert s[11..13] == Padded(d.hour, 2) && s[14..16] == Padded(d.minute, 2) && s[17..19] == Padded(d.second, 2);
    if d.micro != 0 {
      assert s[20..26] == Padded(d.micro, 6);
    }
  }

  lemma FieldReads(n: nat, width: nat)
    requires width > 0 && n < Pow10(width)
    ensures |Padded(n, width)| == width && Number(AsciiDigit, Padded(n, width)) == Some(n)
  {
    PaddedLength(n, width);
    NumberOfPadded(AsciiDigit, n, width);
  }

  /** The SQL string test `expires_at > now` and the datetime test of order creation
      agree on every stored expiry. */
  lemma ExpiryTestsAgree(expires: DateTime, now: DateTime)
    requires Valid(expires) && Valid(now)
    ensures FromIso(ToIso(expires)).Some? && Valid(FromIso(ToIso(expires)).value)
    ensures Less(ToIso(now), ToIso(expires)) <==> !(Micros(FromIso(ToIso(expires)).value) <= Micros(now))
  {
    hide Less, ToIso, Micros, FromIso;
    IsoRoundTrip(expires);
    IsoOrder(now, expires);
  }

  // --- the format and the calendar themselves ---------------------------------------------

  lemma IsoVectors()
    ensures ToIso(DateTime(2024, 2, 29, 7, 5, 9, 1_200)) ==
            "2024" + "-" + "02" + "-" + "29" + "T" + "07" + ":" + "05" + ":" + "09" + ".001200" + "+00:00"
    ensures ToIso(DateTime(987, 12, 31, 23, 59, 0, 0)) ==
            "0987" + "-" + "12" + "-" + "31" + "T" + "23" + ":" + "59" + ":" + "00" + "" + "+00:00"
  {
    hide Padded;
    TwoDigits();
    FourDigits();
    SixDigits();
  }

  lemma LeapDays()
    ensures Valid(DateTime(2024, 2, 29, 0, 0, 0, 0)) && !Valid(DateTime(2023, 2, 29, 0, 0, 0, 0))
    ensures Valid(DateTime(2000, 2, 29, 0, 0, 0, 0)) && !Valid(DateTime(1900, 2, 29, 0, 0, 0, 0))
  {
  }

  lemma SixDigits()
    ensures "." + Padded(1_200, 6) == ".001200"
  {
    assert Numeral(1) == "1" && Numeral(12) == "12" && Numeral(120) == "120" && Numeral(1_200) == "1200";
  }

  lemma TwoDigits()
    ensures Padded(2, 2) == "02" && Padded(29, 2) == "29" && Padded(7, 2) == "07" && Padded(5, 2) == "05"
    ensures Padded(9, 2) == "09" && Padded(12, 2) == "12" && Padded(31, 2) == "31" && Padded(23, 2) == "23"
    ensures Padded(59, 2) == "59" && Padded(0, 2) == "00"
  {
    assert Numeral(2) == "2" && Numeral(29) == "29" && Numeral(7) == "7" && Numeral(5) == "5" && Numeral(9) == "9";
    assert Numeral(12) == "12" && Numeral(31) == "31" && Numeral(23) == "23";
    assert Numeral(59) == "59" && Numeral(0) == "0";
  }

  lemma FourDigits()
    ensures Padded(2024, 4) == "2024" && Padded(987, 4) == "0987"
  {
    assert Numeral(2) == "2" && Numeral(20) == "20" && Numeral(202) == "202" && Numeral(2024) == "2024";
    assert Numeral(9) == "9" && Numeral(98) == "98" && Numeral(987) == "987";
  }

  /** Where the quarters of a year begin. */
  lemma Quarters(y: nat)
    ensures DaysBeforeMonth(y, 4) == 90 + LeapDay(y) && DaysBeforeMonth(y, 7) == 181 + LeapDay(y)
    ensures DaysBeforeMonth(y, 10) == 273 + LeapDay(y)
  {
    assert DaysBeforeMonth(y, 2) == DaysBeforeMonth(y, 1) + DaysIn(y, 1);
    assert DaysBeforeMonth(y, 4) == DaysBeforeMonth(y, 2) + DaysIn(y, 2) + DaysIn(y, 3);
    assert DaysBeforeMonth(y, 6) == DaysBeforeMonth(y, 4) + DaysIn(y, 4) + DaysIn(y, 5);
    assert DaysBeforeMonth(y, 8) == DaysBeforeMonth(y, 6) + DaysIn(y, 6) + DaysIn(y, 7);
    assert DaysBeforeMonth(y, 10) == DaysBeforeMonth(y, 8) + DaysIn(y, 8) + DaysIn(y, 9);
  }
}
