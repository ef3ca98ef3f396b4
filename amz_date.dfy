/** The `x-amz-date` stamp: a UTC time written `yyyyMMdd'T'HHmmss'Z'` by an
    `en_US_POSIX` date formatter. The clock reading is a parameter. */
module AmzDate {
  import opened Wrappers

  /** A UTC calendar time, to the second. */
  datatype DateTime = DateTime(year: int, month: int, day: int, hour: int, minute: int, second: int)

  predicate IsLeapYear(y: int) {
    y % 4 == 0 && (y % 100 != 0 || y % 400 == 0)
  }

  function DaysInMonth(y: int, m: int): int
    requires 1 <= m <= 12
  {
    if m == 2 then (if IsLeapYear(y) then 29 else 28)
    else if m == 4 || m == 6 || m == 9 || m == 11 then 30
    else 31
  }

  /** A real calendar time whose year has at most four digits. */
  predicate Valid(d: DateTime) {
    && 0 <= d.year <= 9999
    && 1 <= d.month <= 12
    && 1 <= d.day <= DaysInMonth(d.year, d.month)
    && 0 <= d.hour < 24 && 0 <= d.minute < 60 && 0 <= d.second < 60
  }

  function Pow10(w: nat): (p: nat)
    ensures p >= 1
  {
    if w == 0 then 1 else 10 * Pow10(w - 1)
  }

  predicate IsDigit(c: char) {
    '0' <= c <= '9'
  }

  predicate AllDigits(s: string) {
    forall i | 0 <= i < |s| :: IsDigit(s[i])
  }

  /** `n` in decimal, zero-padded to `w` digits. */
  function Digits(n: nat, w: nat): (s: string)
    requires n < Pow10(w)
    ensures |s| == w && AllDigits(s)
  {
    if w == 0 then []
    else Digits(n / 10, w - 1) + [('0' as int + n % 10) as char]
  }

  /** The number a string of decimal digits denotes. */
  function ReadDigits(s: string): (n: nat)
    requires AllDigits(s)
    ensures n < Pow10(|s|)
  {
    if s == [] then 0
    else 10 * ReadDigits(s[..|s| - 1]) + (s[|s| - 1] as int - '0' as int)
  }

  lemma {:induction false} ReadDigitsOfDigits(n: nat, w: nat)
    requires n < Pow10(w)
    ensures ReadDigits(Digits(n, w)) == n
  {
    if w > 0 {
      var s := Digits(n, w);
      assert s[..|s| - 1] == Digits(n / 10, w - 1);
      ReadDigitsOfDigits(n / 10, w - 1);
    }
  }

  lemma {:induction false} DigitsOfReadDigits(s: string)
    requires AllDigits(s)
    ensures Digits(ReadDigits(s), |s|) == s
  {
    if s != [] {
      var init := s[..|s| - 1];
      var n := ReadDigits(s);
      assert n / 10 == ReadDigits(init) && n % 10 == s[|s| - 1] as int - '0' as int;
      DigitsOfReadDigits(init);
      assert s == init + [s[|s| - 1]];
    }
  }

  /** The stamp for a time. */
  function Format(d: DateTime): (s: string)
    requires Valid(d)
    ensures |s| == 16 && s[8] == 'T' && s[15] == 'Z'
    ensures forall i | 0 <= i < 16 && i != 8 && i != 15 :: IsDigit(s[i])
  {
    Digits(d.year, 4) + Digits(d.month, 2) + Digits(d.day, 2) + "T"
      + Digits(d.hour, 2) + Digits(d.minute, 2) + Digits(d.second, 2) + "Z"
  }

  /** Read a stamp back; none unless it is the stamp of a valid time. */
  function Parse(s: string): Option<DateTime> {
    if && |s| == 16 && s[8] == 'T' && s[15] == 'Z'
       && AllDigits(s[0..4]) && AllDigits(s[4..6]) && AllDigits(s[6..8])
       && AllDigits(s[9..11]) && AllDigits(s[11..13]) && AllDigits(s[13..15])
    then
      var d := DateTime(ReadDigits(s[0..4]), ReadDigits(s[4..6]), ReadDigits(s[6..8]),
                        ReadDigits(s[9..11]), ReadDigits(s[11..13]), ReadDigits(s[13..15]));
      if Valid(d) then Some(d) else None
    else None
  }

  /** Every valid time is read back from its stamp. */
  lemma ParseFormat(d: DateTime)
    requires Valid(d)
    ensures Parse(Format(d)) == Some(d)
  {
    var s := Format(d);
    assert s[0..4] == Digits(d.year, 4) && s[4..6] == Digits(d.month, 2) && s[6..8] == Digits(d.day, 2);
    assert s[9..11] == Digits(d.hour, 2) && s[11..13] == Digits(d.minute, 2) && s[13..15] == Digits(d.second, 2);
    ReadDigitsOfDigits(d.year, 4);
    ReadDigitsOfDigits(d.month, 2);
    ReadDigitsOfDigits(d.day, 2);
    ReadDigitsOfDigits(d.hour, 2);
    ReadDigitsOfDigits(d.minute, 2);
    ReadDigitsOfDigits(d.second, 2);
  }

  /** A stamp that parses is the stamp of the time it parses to. */
  lemma FormatParse(s: string)
    requires Parse(s).Some?
    ensures Format(Parse(s).value) == s
  {
    DigitsOfReadDigits(s[0..4]);
    DigitsOfReadDigits(s[4..6]);
    DigitsOfReadDigits(s[6..8]);
    DigitsOfReadDigits(s[9..11]);
    DigitsOfReadDigits(s[11..13]);
    DigitsOfReadDigits(s[13..15]);
    StampParts(s);
  }

  /** A stamp is the concatenation of its fields and separators. */
  lemma StampParts(s: string)
    requires |s| == 16 && s[8] == 'T' && s[15] == 'Z'
    ensures s == s[0..4] + s[4..6] + s[6..8] + "T" + s[9..11] + s[11..13] + s[13..15] + "Z"
  {
  }
}
