/** Calendar dates as Python's datetime.strptime(s, '%Y-%m-%d') reads them. */
module Dates {
  import opened Wrappers
  import opened Text
  import opened Numbers

  datatype Date = Date(year: int, month: int, day: int)

  predicate IsLeapYear(y: int)
  {
    y % 4 == 0 && (y % 100 != 0 || y % 400 == 0)
  }

  function DaysInMonth(y: int, m: int): int
    requires 1 <= m <= 12
  {
    if m == 2 then (if IsLeapYear(y) then 29 else 28)
    else if m == 4 || m == 6 || m == 9 || m == 11 then 30
    else 31
  }

  /** A date datetime() accepts: years 1 to 9999, a real month, a day that exists in it. */
  predicate IsValid(d: Date)
  {
    1 <= d.year <= 9999 && 1 <= d.month <= 12 && 1 <= d.day <= DaysInMonth(d.year, d.month)
  }

  /** The `%m` field: "10".."12", "01".."09" or a single digit "1".."9". */
  function MonthField(t: string): (r: Option<int>)
    ensures r.Some? ==> 1 <= r.value <= 12
  {
    if |t| == 1 && '1' <= t[0] <= '9' then Some(DigitValue(t[0]))
    else if |t| == 2 && t[0] == '0' && '1' <= t[1] <= '9' then Some(DigitValue(t[1]))
    else if |t| == 2 && t[0] == '1' && '0' <= t[1] <= '2' then Some(10 + DigitValue(t[1]))
    else None
  }

  /** The `%d` field: "30", "31", "10".."29", "01".."09", a single digit "1".."9",
      or a space followed by a digit " 1".." 9". */
  function DayField(t: string): (r: Option<int>)
    ensures r.Some? ==> 1 <= r.value <= 31
  {
    if |t| == 1 && '1' <= t[0] <= '9' then Some(DigitValue(t[0]))
    else if |t| == 2 && (t[0] == '0' || t[0] == ' ') && '1' <= t[1] <= '9' then Some(DigitValue(t[1]))
    else if |t| == 2 && (t[0] == '1' || t[0] == '2') && IsDigit(t[1]) then
      Some(10 * DigitValue(t[0]) + DigitValue(t[1]))
    else if |t| == 2 && t[0] == '3' && (t[1] == '0' || t[1] == '1') then Some(30 + DigitValue(t[1]))
    else None
  }

  /** strptime with '%Y-%m-%d': exactly four year digits, a dash, the month
      field, a dash and the day field, nothing else, and a date that exists. */
  function ParseDate(s: string): (r: Option<Date>)
    ensures r.Some? ==> IsValid(r.value)
  {
    if |s| < 5 || !AllDigits(s[..4]) || s[4] != '-' then None
    else
      var fields := Split(s[5..], '-');
      if |fields| != 2 then None
      else Assemble(DigitsValue(s[..4]), MonthField(fields[0]), DayField(fields[1]))
  }

  /** datetime(year, month, day) once the fields have been read: a ValueError
      (None) for a field that did not match or a date that does not exist. */
  function Assemble(y: int, month: Option<int>, day: Option<int>): (r: Option<Date>)
    ensures r.Some? ==> IsValid(r.value)
  {
    if month.Some? && day.Some? && IsValid(Date(y, month.value, day.value))
    then Some(Date(y, month.value, day.value))
    else None
  }

  /** Python's validate_date (and the date check of the window's add form). */
  predicate ValidateDate(s: string)
  {
    ParseDate(s).Some?
  }

  /** `n` written with exactly `w` digits, zero-padded on the left. */
  function PadDigits(n: nat, w: nat): (s: string)
    ensures |s| == w && AllDigits(s)
    decreases w
  {
    if w == 0 then [] else PadDigits(n / 10, w - 1) + [DigitChar(n % 10)]
  }

  lemma {:induction false} PadDigitsValue(n: nat, w: nat)
    requires n < Pow10(w)
    ensures DigitsValue(PadDigits(n, w)) == n
    decreases w
  {
    if w > 0 {
      PadDigitsValue(n / 10, w - 1);
      var s := PadDigits(n, w);
      assert s[..|s| - 1] == PadDigits(n / 10, w - 1);
    }
  }

  /** The ISO 8601 calendar date in extended format, "YYYY-MM-DD" (section 4.1.2.2
      of ISO 8601:2004), for any year, month and day that fit their fields. */
  function FormatDate(d: Date): string
    requires 0 <= d.year <= 9999 && 0 <= d.month <= 99 && 0 <= d.day <= 99
  {
    PadDigits(d.year, 4) + "-" + PadDigits(d.month, 2) + "-" + PadDigits(d.day, 2)
  }

  /** The same date written without leading zeros in month and day, which
      strptime also accepts ("2024-9-5"). */
  function FormatLoose(d: Date): string
    requires 0 <= d.year <= 9999 && 0 <= d.month && 0 <= d.day
  {
    PadDigits(d.year, 4) + "-" + NatToString(d.month) + "-" + NatToString(d.day)
  }

  /** A number below 100 padded to two digits: its tens digit, then its units. */
  lemma PadTwoDigits(n: nat) returns (tens: nat, units: nat)
    requires n < 100
    ensures tens < 10 && units < 10 && n == 10 * tens + units
    ensures PadDigits(n, 2) == [DigitChar(tens), DigitChar(units)]
  {
    tens, units := n / 10, n % 10;
    assert tens % 10 == tens;
    assert PadDigits(tens, 1) == [DigitChar(tens)];
  }

  lemma MonthFieldPadded(m: nat)
    requires m < 100
    ensures MonthField(PadDigits(m, 2)) == if 1 <= m <= 12 then Some(m) else None
  {
    var tens, units := PadTwoDigits(m);
    var t := [DigitChar(tens), DigitChar(units)];
    if tens == 0 {
      assert t[0] == '0';
    } else if tens == 1 {
      assert t[0] == '1';
    } else {
      assert t[0] > '1';
    }
  }

  lemma DayFieldPadded(d: nat)
    requires d < 100
    ensures DayField(PadDigits(d, 2)) == if 1 <= d <= 31 then Some(d) else None
  {
    var tens, units := PadTwoDigits(d);
    DayFieldDigits(tens, units);
  }

  /** The day field read from a tens digit and a units digit. */
  lemma DayFieldDigits(tens: nat, units: nat)
    requires tens < 10 && units < 10
    ensures DayField([DigitChar(tens), DigitChar(units)]) ==
      if 1 <= 10 * tens + units <= 31 then Some(10 * tens + units) else None
  {
    var t := [DigitChar(tens), DigitChar(units)];
    if tens == 0 {
      assert t[0] == '0';
      if units == 0 {
        assert t[1] == '0';
        assert DayField(t) == None;
      } else {
        assert DayField(t) == Some(units);
      }
    } else if tens <= 2 {
      assert DayField(t) == Some(10 * tens + units);
    } else if tens == 3 {
      assert t[0] == '3';
      if units <= 1 {
        assert DayField(t) == Some(30 + units);
      } else {
        assert DayField(t) == None;
      }
    } else {
      assert t[0] > '3';
      assert DayField(t) == None;
    }
  }

  lemma MonthFieldLoose(m: nat)
    requires 1 <= m <= 12
    ensures MonthField(NatToString(m)) == Some(m)
  {
    if m >= 10 {
      assert NatToString(m) == [DigitChar(1), DigitChar(m - 10)];
    }
  }

  lemma DayFieldLoose(d: nat)
    requires 1 <= d <= 31
    ensures DayField(NatToString(d)) == Some(d)
  {
    if d >= 10 {
      assert NatToString(d) == [DigitChar(d / 10), DigitChar(d % 10)];
    }
  }

  /** How ParseDate takes apart "YYYY-<month>-<day>". */
  lemma ParseDateFields(y: nat, month: string, day: string)
    requires y < 10000 && '-' !in month && '-' !in day
    ensures ParseDate(PadDigits(y, 4) + "-" + month + "-" + day)
         == Assemble(y, MonthField(month), DayField(day))
  {
    var s := PadDigits(y, 4) + "-" + month + "-" + day;
    assert s[..4] == PadDigits(y, 4);
    assert s[4] == '-';
    assert s[5..] == Join([month, day], '-');
    SplitJoin([month, day], '-');
    PadDigitsValue(y, 4);
  }

  /** strptime accepts the canonical form of a date exactly when the date exists,
      and then reads back the same date. So month 13, February 30 and February 29
      of a common year are rejected. */
  lemma ParseFormatDate(d: Date)
    requires 0 <= d.year <= 9999 && 0 <= d.month <= 99 && 0 <= d.day <= 99
    ensures ParseDate(FormatDate(d)) == if IsValid(d) then Some(d) else None
  {
    MonthFieldPadded(d.month);
    DayFieldPadded(d.day);
    ParseDateFields(d.year, PadDigits(d.month, 2), PadDigits(d.day, 2));
  }

  /** February 29 is a valid date exactly in leap years. */
  lemma LeapDay(y: int)
    requires 1 <= y <= 9999
    ensures ValidateDate(FormatDate(Date(y, 2, 29))) <==> IsLeapYear(y)
  {
    ParseFormatDate(Date(y, 2, 29));
  }

  /** Month 13 and February 30 never pass, whatever the year. */
  lemma ImpossibleDates(y: int, day: int)
    requires 0 <= y <= 9999 && 0 <= day <= 99
    ensures !ValidateDate(FormatDate(Date(y, 13, day)))
    ensures !ValidateDate(FormatDate(Date(y, 2, 30)))
  {
    ParseFormatDate(Date(y, 13, day));
    ParseFormatDate(Date(y, 2, 30));
  }

  /** One-digit months and days are accepted too, and mean the same date. */
  lemma ParseLooseDate(d: Date)
    requires IsValid(d)
    ensures ParseDate(FormatLoose(d)) == Some(d)
  {
    MonthFieldLoose(d.month);
    DayFieldLoose(d.day);
    ParseDateFields(d.year, NatToString(d.month), NatToString(d.day));
  }

  /** Chronological order. */
  predicate Before(a: Date, b: Date)
  {
    a.year < b.year
    || (a.year == b.year && a.month < b.month)
    || (a.year == b.year && a.month == b.month && a.day < b.day)
  }

  /** Comparing two strings that start with pieces of the same length compares
      those pieces first. */
  lemma {:induction false} LessConcat(a: string, x: string, b: string, y: string)
    requires |a| == |b|
    ensures Less(a + x, b + y) <==> (Less(a, b) || (a == b && Less(x, y)))
    decreases |a|
  {
    if a != [] {
      assert (a + x)[1..] == a[1..] + x && (b + y)[1..] == b[1..] + y;
      LessConcat(a[1..], x, b[1..], y);
      if a[0] == b[0] && a[1..] == b[1..] {
        assert a == [a[0]] + a[1..] && b == [b[0]] + b[1..];
      }
    } else {
      assert a + x == x && b + y == y;
    }
  }

  /** Zero-padded numbers of one width sort as strings exactly as they sort as numbers. */
  lemma {:induction false} PadDigitsLess(n: nat, m: nat, w: nat)
    requires n < Pow10(w) && m < Pow10(w)
    ensures Less(PadDigits(n, w), PadDigits(m, w)) <==> n < m
    ensures PadDigits(n, w) == PadDigits(m, w) <==> n == m
    decreases w
  {
    if w == 0 {
    } else {
      PadDigitsLess(n / 10, m / 10, w - 1);
      LessConcat(PadDigits(n / 10, w - 1), [DigitChar(n % 10)], PadDigits(m / 10, w - 1), [DigitChar(m % 10)]);
      var a, b := PadDigits(n, w), PadDigits(m, w);
      if a == b {
        assert a[..w - 1] == b[..w - 1] && a[w - 1] == b[w - 1];
        assert DigitValue(a[w - 1]) == n % 10 && DigitValue(b[w - 1]) == m % 10;
      }
    }
  }

  /** Comparing "Y-M-D" strings whose fields have matching widths compares year,
      then month, then day. */
  lemma LessFields(ya: string, ma: string, da: string, yb: string, mb: string, db: string)
    requires |ya| == |yb| && |ma| == |mb|
    ensures Less(ya + "-" + ma + "-" + da, yb + "-" + mb + "-" + db)
        <==> Less(ya, yb) || (ya == yb && (Less(ma, mb) || (ma == mb && Less(da, db))))
  {
    assert ya + "-" + ma + "-" + da == ya + (("-" + ma) + ("-" + da));
    assert yb + "-" + mb + "-" + db == yb + (("-" + mb) + ("-" + db));
    LessConcat(ya, ("-" + ma) + ("-" + da), yb, ("-" + mb) + ("-" + db));
    LessConcat("-" + ma, "-" + da, "-" + mb, "-" + db);
    LessConcat("-", ma, "-", mb);
    LessConcat("-", da, "-", db);
    assert "-" + ma == "-" + mb <==> ma == mb;
  }

  /** For dates in canonical form, the string order the search filter uses is
      the chronological order. */
  lemma CanonicalOrderIsChronological(a: Date, b: Date)
    requires IsValid(a) && IsValid(b)
    ensures Less(FormatDate(a), FormatDate(b)) <==> Before(a, b)
  {
    PadDigitsLess(a.year, b.year, 4);
    PadDigitsLess(a.month, b.month, 2);
    PadDigitsLess(a.day, b.day, 2);
    LessFields(PadDigits(a.year, 4), PadDigits(a.month, 2), PadDigits(a.day, 2),
               PadDigits(b.year, 4), PadDigits(b.month, 2), PadDigits(b.day, 2));
  }

  /** Different dates have different canonical forms. */
  lemma CanonicalFormInjective(a: Date, b: Date)
    requires IsValid(a) && IsValid(b) && FormatDate(a) == FormatDate(b)
    ensures a == b
  {
    ParseFormatDate(a);
    ParseFormatDate(b);
  }

  lemma Year2024()
    ensures PadDigits(2024, 4) == "2024"
  {
    assert PadDigits(2, 1) == "2";
    assert PadDigits(20, 2) == "20";
    assert PadDigits(202, 3) == "202";
  }

  lemma ParseSeptember30()
    ensures ParseDate("2024-9-30") == Some(Date(2024, 9, 30))
  {
    Year2024();
    ParseLooseDate(Date(2024, 9, 30));
    assert NatToString(30) == NatToString(3) + "0";
    assert FormatLoose(Date(2024, 9, 30)) == "2024" + "-" + "9" + "-" + "30";
    assert "2024" + "-" + "9" + "-" + "30" == "2024-9-30";
  }

  lemma ParseOctober1()
    ensures ParseDate("2024-10-01") == Some(Date(2024, 10, 1))
  {
    Year2024();
    ParseFormatDate(Date(2024, 10, 1));
    assert PadDigits(10, 2) == PadDigits(1, 1) + "0";
    assert PadDigits(1, 2) == PadDigits(0, 1) + "1";
    assert FormatDate(Date(2024, 10, 1)) == "2024" + "-" + "10" + "-" + "01";
    assert "2024" + "-" + "10" + "-" + "01" == "2024-10-01";
  }

  /** Dates that strptime accepts without zero padding do not sort as strings:
      "2024-10-01" sorts before "2024-9-30", although 30 September comes first. */
  lemma LooseDatesMisorder()
    ensures ParseDate("2024-9-30") == Some(Date(2024, 9, 30))
    ensures ParseDate("2024-10-01") == Some(Date(2024, 10, 1))
    ensures Before(Date(2024, 9, 30), Date(2024, 10, 1))
    ensures Less("2024-10-01", "2024-9-30")
  {
    ParseSeptember30();
    ParseOctober1();
    LessConcat("2024-", "10-01", "2024-", "9-30");
    assert "2024-10-01" == "2024-" + "10-01";
    assert "2024-9-30" == "2024-" + "9-30";
  }
}
