/** The time text of the watch face: `String.format(Locale.ENGLISH, "%d:%02d", hour, minute)`,
    with a parser for that format that recovers the hour and minute. */
module TimeText {

  import opened Optional

  predicate IsDigit(c: char) {
    '0' <= c <= '9'
  }

  predicate AllDigits(s: string) {
    forall i :: 0 <= i < |s| ==> IsDigit(s[i])
  }

  /** A numeral as `%d` prints it: at least one digit and no leading zero. */
  predicate Canonical(s: string) {
    |s| >= 1 && AllDigits(s) && (s[0] == '0' ==> |s| == 1)
  }

  function DigitChar(d: nat): (c: char)
    requires d < 10
    ensures IsDigit(c)
  {
    ('0' as int + d) as char
  }

  function DigitValue(c: char): (d: nat)
    requires IsDigit(c)
    ensures d < 10 && DigitChar(d) == c
  {
    c as int - '0' as int
  }

  /** `%d` of a non-negative value: its decimal digits, the most significant first. */
  function Decimal(n: nat): (s: string)
    ensures Canonical(s)
    ensures s[|s| - 1] == DigitChar(n % 10)
    ensures n < 10 <==> |s| == 1
  {
    if n < 10 then [DigitChar(n)] else Decimal(n / 10) + [DigitChar(n % 10)]
  }

  /** `%02d` of a non-negative value: padded on the left with '0' to two characters. */
  function ZeroPad2(n: nat): string {
    if n < 10 then ['0', DigitChar(n)] else Decimal(n)
  }

  /** The time text drawn at the top of the face. */
  function FormatTime(hour: nat, minute: nat): string {
    Decimal(hour) + ":" + ZeroPad2(minute)
  }

  /** The value of a string of digits, read most significant first. */
  function DigitsValue(s: string): nat
    requires AllDigits(s)
  {
    if |s| == 0 then 0 else 10 * DigitsValue(s[..|s| - 1]) + DigitValue(s[|s| - 1])
  }

  /** Reads a time text back: an hour numeral without leading zeros, ':' and exactly two
      minute digits, with hour 0..23 and minute 0..59. */
  function ParseTime(s: string): Option<(nat, nat)> {
    if |s| >= 4 && s[|s| - 3] == ':' && Canonical(s[..|s| - 3]) && AllDigits(s[|s| - 2..]) then
      var hour := DigitsValue(s[..|s| - 3]);
      var minute := DigitsValue(s[|s| - 2..]);
      if hour < 24 && minute < 60 then Some((hour, minute)) else None
    else
      None
  }

  /** Reading the digits `%d` prints gives back the value printed. */
  lemma {:induction false} DecimalValue(n: nat)
    ensures DigitsValue(Decimal(n)) == n
  {
    if n >= 10 {
      DecimalValue(n / 10);
      var s := Decimal(n);
      assert s[..|s| - 1] == Decimal(n / 10);
    }
  }

  /** A numeral without leading zeros is what `%d` prints for its value. */
  lemma {:induction false} ValueDecimal(s: string)
    requires Canonical(s)
    ensures Decimal(DigitsValue(s)) == s
  {
    if |s| > 1 {
      var p := s[..|s| - 1];
      assert p[0] == s[0];
      assert Canonical(p);
      ValueDecimal(p);
      LeadingDigitPositive(p);
      var n := DigitsValue(s);
      assert n / 10 == DigitsValue(p) && n % 10 == DigitValue(s[|s| - 1]);
      assert s == p + [s[|s| - 1]];
    }
  }

  /** A numeral whose first digit is not '0' has a positive value. */
  lemma {:induction false} LeadingDigitPositive(s: string)
    requires |s| >= 1 && AllDigits(s) && s[0] != '0'
    ensures DigitsValue(s) >= 1
  {
    var p := s[..|s| - 1];
    if |p| >= 1 {
      assert p[0] == s[0];
      LeadingDigitPositive(p);
    }
  }

  /** The value of a two-digit string. */
  lemma TwoDigitsValue(m: string)
    requires |m| == 2 && AllDigits(m)
    ensures DigitsValue(m) == 10 * DigitValue(m[0]) + DigitValue(m[1])
  {
    var p := m[..1];
    assert p[..0] == [] && p[0] == m[0];
    assert DigitsValue(p) == DigitValue(m[0]);
  }

  /** The shape of the time text: the unpadded hour, ':' and exactly two minute digits,
      four characters long for a one-digit hour and five for a two-digit one. */
  lemma FormatTimeShape(hour: nat, minute: nat)
    requires hour < 24 && minute < 60
    ensures var t := FormatTime(hour, minute);
      && |t| == (if hour < 10 then 4 else 5)
      && t[..|t| - 3] == Decimal(hour)
      && t[|t| - 3] == ':'
      && t[|t| - 2] == DigitChar(minute / 10)
      && t[|t| - 1] == DigitChar(minute % 10)
  {
  }

  /** Parsing the time text recovers the hour and minute it was made from. */
  lemma ParseFormatTime(hour: nat, minute: nat)
    requires hour < 24 && minute < 60
    ensures ParseTime(FormatTime(hour, minute)) == Some((hour, minute))
  {
    var t := FormatTime(hour, minute);
    FormatTimeShape(hour, minute);
    DecimalValue(hour);
    var m := t[|t| - 2..];
    assert m == [DigitChar(minute / 10), DigitChar(minute % 10)];
    TwoDigitsValue(m);
    assert DigitsValue(m) == minute;
  }

  /** Every text the parser accepts is exactly the time text of what it returns, so
      the time text is one-to-one and the parser is its inverse. */
  lemma FormatParseTime(s: string, hour: nat, minute: nat)
    requires ParseTime(s) == Some((hour, minute))
    ensures FormatTime(hour, minute) == s
  {
    var h, m := s[..|s| - 3], s[|s| - 2..];
    ValueDecimal(h);
    TwoDigitsValue(m);
    if minute < 10 {
      assert DigitValue(m[0]) == 0;
      assert ZeroPad2(minute) == m;
    } else {
      assert Decimal(minute) == Decimal(minute / 10) + [DigitChar(minute % 10)];
      assert ZeroPad2(minute) == m;
    }
    assert s == h + ":" + m;
  }

  /** Worked cases: minutes are zero-padded, hours are not. */
  lemma FormatTimeExamples()
    ensures FormatTime(14, 5) == "14:05"
    ensures FormatTime(9, 30) == "9:30"
    ensures FormatTime(0, 0) == "0:00"
  {
  }
}
