/** `formatDate` of the date-range step: a calendar date as `YYYY/MM/DD`,
    over the integers `getFullYear()`, `getMonth()` (0-based) and `getDate()`. */
module Dates {
  import opened Wrappers
  import opened Text
  import Extractor

  /** `String(n).padStart(2, '0')` */
  function TwoDigits(n: nat): (r: string)
    requires n < 100
    ensures |r| == 2 && AllDigits(r)
  {
    DecimalLength(n);
    PadStart(NatToDecimal(n), 2, '0')
  }

  /** The two-digit field reads back as the number it pads. */
  lemma TwoDigitsValue(n: nat)
    requires n < 100
    ensures DecimalValue(TwoDigits(n)) == n
  {
    DecimalLength(n);
    DecimalRoundTrip(n);
    var s := NatToDecimal(n);
    var r := TwoDigits(n);
    assert r[..1] + [r[1]] == r;
    if |s| == 1 {
      assert r == ['0', s[0]];
      assert r[..1] == ['0'];
    } else {
      assert r == s;
    }
  }

  /** `${y}/${m}/${d}` */
  function JoinDate(y: string, m: string, d: string): (r: string)
    requires |m| == 2 && |d| == 2
    ensures |r| == |y| + 6 && r[|r| - 6] == '/' && r[|r| - 3] == '/'
    ensures r[..|r| - 6] == y && r[|r| - 5..|r| - 3] == m && r[|r| - 2..] == d
  {
    y + "/" + m + "/" + d
  }

  /** `formatDate`: the year as `String` writes it (not padded), then the
      1-based month and the day, each padded to two digits, joined by '/'. */
  function FormatDate(year: int, monthIndex: int, day: int): (r: string)
    requires 0 <= monthIndex <= 11 && 1 <= day <= 31
    ensures |r| >= 7 && r[|r| - 6] == '/' && r[|r| - 3] == '/'
    ensures r[..|r| - 6] == IntToString(year)
  {
    JoinDate(IntToString(year), TwoDigits(monthIndex + 1), TwoDigits(day))
  }

  /** Reads `Y/MM/DD` back into (year, month, day), the year possibly negative. */
  function ParseDate(s: string): Option<(int, int, int)> {
    if |s| >= 7 && s[|s| - 6] == '/' && s[|s| - 3] == '/' then
      var y, m, d := s[..|s| - 6], s[|s| - 5..|s| - 3], s[|s| - 2..];
      if !AllDigits(m) || !AllDigits(d) then None
      else if |y| >= 1 && AllDigits(y) then Some((DecimalValue(y), DecimalValue(m), DecimalValue(d)))
      else if |y| >= 2 && y[0] == '-' && AllDigits(y[1..]) then
        var magnitude: int := DecimalValue(y[1..]);
        Some((-magnitude, DecimalValue(m), DecimalValue(d)))
      else None
    else None
  }

  /** The formatted date reads back as the year, the 1-based month and the day. */
  lemma FormatDateRoundTrip(year: int, monthIndex: int, day: int)
    requires 0 <= monthIndex <= 11 && 1 <= day <= 31
    ensures ParseDate(FormatDate(year, monthIndex, day)) == Some((year, monthIndex + 1, day))
  {
    var ys, mm, dd := IntToString(year), TwoDigits(monthIndex + 1), TwoDigits(day);
    TwoDigitsValue(monthIndex + 1);
    TwoDigitsValue(day);
    IntToStringValue(year);
    ParseJoinDate(ys, mm, dd);
  }

  /** Parsing a joined date gives back its three fields' values. */
  lemma ParseJoinDate(y: string, m: string, d: string)
    requires |m| == 2 && AllDigits(m) && |d| == 2 && AllDigits(d)
    requires (|y| >= 1 && AllDigits(y)) || (|y| >= 2 && y[0] == '-' && AllDigits(y[1..]))
    ensures var year: int := if y[0] == '-' then -(DecimalValue(y[1..]) as int) else DecimalValue(y);
      ParseDate(JoinDate(y, m, d)) == Some((year, DecimalValue(m), DecimalValue(d)))
  {
    var r := JoinDate(y, m, d);
    assert r[..|r| - 6] == y && r[|r| - 5..|r| - 3] == m && r[|r| - 2..] == d;
    if y[0] == '-' {
      assert !IsDigit(y[0]);
    }
  }

  /** A four-digit year joined with two two-digit fields has the date shape. */
  lemma JoinDateShape(y: string, m: string, d: string)
    requires |y| == 4 && AllDigits(y) && |m| == 2 && AllDigits(m) && |d| == 2 && AllDigits(d)
    ensures Extractor.HasDatePrefix(JoinDate(y, m, d))
  {
    var r := JoinDate(y, m, d);
    assert r[0] == y[0] && r[1] == y[1] && r[2] == y[2] && r[3] == y[3];
    assert r[5] == m[0] && r[6] == m[1] && r[8] == d[0] && r[9] == d[1];
  }

  /** For four-digit years the output is exactly ten characters and carries the
      date shape the result extractor looks for in the date column. */
  lemma FormatDateMatchesDateColumn(year: int, monthIndex: int, day: int)
    requires 0 <= monthIndex <= 11 && 1 <= day <= 31
    requires 1000 <= year <= 9999
    ensures |FormatDate(year, monthIndex, day)| == 10
    ensures Extractor.HasDatePrefix(FormatDate(year, monthIndex, day))
  {
    DecimalLength(year);
    JoinDateShape(IntToString(year), TwoDigits(monthIndex + 1), TwoDigits(day));
  }
}
