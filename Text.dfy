/** Text helpers: substring containment (the JavaScript `includes` test and the
    SQL pattern `LIKE '%q%'`), and the decimal rendering of an integer that a
    JavaScript template literal produces, with its parser as inverse. */
module Text {
  import opened Relational

  /** sub occurs somewhere in s. */
  function Contains(s: string, sub: string): bool
  {
    sub <= s || (|s| > 0 && Contains(s[1..], sub))
  }

  /** Contains agrees with the positional definition of an occurrence. */
  lemma {:induction false} ContainsIffOccurs(s: string, sub: string)
    ensures Contains(s, sub) <==> exists i | 0 <= i <= |s| :: sub <= s[i..]
  {
    if sub <= s {
      assert s[0..] == s;
    } else if |s| > 0 {
      ContainsIffOccurs(s[1..], sub);
      if exists i | 0 <= i <= |s[1..]| :: sub <= s[1..][i..] {
        var i :| 0 <= i <= |s[1..]| && sub <= s[1..][i..];
        assert s[1..][i..] == s[i + 1..];
      }
      if exists i | 0 <= i <= |s| :: sub <= s[i..] {
        var i :| 0 <= i <= |s| && sub <= s[i..];
        if i > 0 {
          assert s[1..][i - 1..] == s[i..];
        }
      }
    } else {
      assert s[0..] == s;
    }
  }

  // ---------------------------------------------------------------------------
  // Decimal rendering of integers.

  predicate IsDigit(c: char)
  {
    '0' <= c <= '9'
  }

  function DigitChar(d: int): (c: char)
    requires 0 <= d <= 9
    ensures IsDigit(c) && c as int - '0' as int == d
  {
    ('0' as int + d) as char
  }

  function NatToDecimal(n: nat): (s: string)
    ensures |s| >= 1
    ensures forall i | 0 <= i < |s| :: IsDigit(s[i])
  {
    if n < 10 then [DigitChar(n)] else NatToDecimal(n / 10) + [DigitChar(n % 10)]
  }

  /** What `${n}` gives for an integer n: an optional minus sign and the digits. */
  function IntToDecimal(n: int): string
  {
    if n < 0 then "-" + NatToDecimal(-n) else NatToDecimal(n)
  }

  function DigitsValue(s: string): nat
    requires forall i | 0 <= i < |s| :: IsDigit(s[i])
  {
    if s == [] then 0
    else
      var d := s[|s| - 1] as int - '0' as int;
      assert IsDigit(s[|s| - 1]);
      DigitsValue(s[..|s| - 1]) * 10 + d
  }

  /** Reads back an optionally signed decimal integer. */
  function ParseDecimal(s: string): Option<int>
  {
    if |s| > 0 && s[0] == '-' then
      var digits := s[1..];
      if |digits| > 0 && forall i | 0 <= i < |digits| :: IsDigit(digits[i])
      then Some(0 - DigitsValue(digits) as int) else None
    else if |s| > 0 && forall i | 0 <= i < |s| :: IsDigit(s[i])
    then Some(DigitsValue(s))
    else None
  }

  lemma {:induction false} NatDecimalRoundTrip(n: nat)
    ensures DigitsValue(NatToDecimal(n)) == n
  {
    if n >= 10 {
      var s := NatToDecimal(n);
      var prefix := NatToDecimal(n / 10);
      assert s == prefix + [DigitChar(n % 10)];
      assert s[..|s| - 1] == prefix;
      NatDecimalRoundTrip(n / 10);
    }
  }

  /** Rendering an integer in decimal loses nothing: parsing gives it back. */
  lemma DecimalRoundTrip(n: int)
    ensures ParseDecimal(IntToDecimal(n)) == Some(n)
  {
    var s := IntToDecimal(n);
    if n < 0 {
      var digits := NatToDecimal(-n);
      assert s == "-" + digits && s[1..] == digits;
      NatDecimalRoundTrip(-n);
      assert DigitsValue(digits) == -n;
    } else {
      var digits := NatToDecimal(n);
      assert s == digits && IsDigit(s[0]);
      NatDecimalRoundTrip(n);
    }
  }
}
