/** Calendar dates as the application writes them: the `full-date` grammar of
    section 5.6 of RFC 3339 (`YYYY-MM-DD`, four-digit year, two-digit month and
    day of month), with the day of month limited to 01-31 whatever the month. */
module Calendar {
  import opened Strings

  datatype Date = Date(year: nat, month: nat, day: nat)

  /** `date-fullyear "-" date-month "-" date-mday`, with month 01-12 and day
      01-31. The per-month and leap-year limit on the day is not checked, so
      `2023-02-31` is accepted. */
  predicate IsFullDate(s: string) {
    && |s| == 10 && s[4] == '-' && s[7] == '-'
    && AllDigits(s[..4]) && AllDigits(s[5..7]) && AllDigits(s[8..])
    && 1 <= DecimalValue(s[5..7]) <= 12
    && 1 <= DecimalValue(s[8..]) <= 31
  }

  /** Reads the three fields of a full-date back as numbers. */
  function ParseFullDate(s: string): Date
    requires IsFullDate(s)
  {
    Date(DecimalValue(s[..4]), DecimalValue(s[5..7]), DecimalValue(s[8..]))
  }

  /** `String(n).padStart(2, '0')`: a decimal form of two or more characters
      is kept as it is, and 0..99 become exactly two digits denoting `n`. */
  function Pad2(n: int): (r: string)
    ensures |IntToDecimal(n)| >= 2 ==> r == IntToDecimal(n)
    ensures 0 <= n < 100 ==> |r| == 2 && AllDigits(r) && DecimalValue(r) == n
  {
    if 0 <= n < 100 then PadStartTwoDigits(n); PadStart(IntToDecimal(n), 2, '0')
    else PadStart(IntToDecimal(n), 2, '0')
  }

  /** For 0..99, padding the decimal form to width two with `'0'` gives exactly
      two digits denoting `n`. */
  lemma PadStartTwoDigits(n: nat)
    requires n < 100
    ensures var p := PadStart(IntToDecimal(n), 2, '0');
      |p| == 2 && AllDigits(p) && DecimalValue(p) == n
  {
    var d := NatToDecimal(n);
    DecimalLength(n);
    DecimalRoundTrip(n);
    if n < 10 {
      assert PadStart(IntToDecimal(n), 2, '0') == "0" + d;
      LeadingZero(d);
    }
  }

  /** Four, two and two digits joined by hyphens form a full-date whose fields
      read back as the digit strings' values. */
  lemma FullDateOfFields(y: string, m: string, d: string)
    requires |y| == 4 && |m| == 2 && |d| == 2
    requires AllDigits(y) && AllDigits(m) && AllDigits(d)
    requires 1 <= DecimalValue(m) <= 12 && 1 <= DecimalValue(d) <= 31
    ensures IsFullDate(y + "-" + m + "-" + d)
    ensures ParseFullDate(y + "-" + m + "-" + d) == Date(DecimalValue(y), DecimalValue(m), DecimalValue(d))
  {
    var s := y + "-" + m + "-" + d;
    assert s[..4] == y;
    assert s[5..7] == m;
    assert s[8..] == d;
  }
}
