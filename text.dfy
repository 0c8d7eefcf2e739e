/** The string operations the source relies on: `String.prototype.includes`, and the decimal
    rendering of integers done by template literals and `String(n)`. */
module Text {

  /** `s.includes(part)`: part occurs in s as a contiguous substring (the empty string occurs everywhere). */
  predicate Includes(s: string, part: string)
    decreases |s|
  {
    if |part| > |s| then false
    else if s[..|part|] == part then true
    else Includes(s[1..], part)
  }

  /** The reference meaning of Includes: some position of s starts an occurrence of part. */
  ghost predicate OccursAt(s: string, part: string, i: int)
  {
    0 <= i && i + |part| <= |s| && s[i..i + |part|] == part
  }

  lemma {:induction false} IncludesIff(s: string, part: string)
    ensures Includes(s, part) <==> exists i :: OccursAt(s, part, i)
    decreases |s|
  {
    if |part| > |s| {
      forall i | OccursAt(s, part, i) ensures false { }
    } else if s[..|part|] == part {
      assert OccursAt(s, part, 0);
    } else {
      IncludesIff(s[1..], part);
      if Includes(s[1..], part) {
        var i :| OccursAt(s[1..], part, i);
        assert s[1..][i..i + |part|] == s[i + 1..i + 1 + |part|];
        assert OccursAt(s, part, i + 1);
      } else {
        forall i | OccursAt(s, part, i) ensures false {
          if i > 0 {
            assert s[1..][i - 1..i - 1 + |part|] == s[i..i + |part|];
            assert OccursAt(s[1..], part, i - 1);
          }
        }
      }
    }
  }

  predicate IsDigit(c: char)
  {
    '0' <= c <= '9'
  }

  function DigitChar(d: nat): (c: char)
    requires d < 10
    ensures IsDigit(c) && c as int - '0' as int == d
  {
    ('0' as int + d) as char
  }

  /** The decimal rendering of a natural number, without leading zeros (`${n}` in a template literal). */
  function NatToString(n: nat): (s: string)
    ensures |s| > 0
    ensures forall k :: 0 <= k < |s| ==> IsDigit(s[k])
    ensures |s| > 1 ==> s[0] != '0'
    decreases n
  {
    if n < 10 then [DigitChar(n)] else NatToString(n / 10) + [DigitChar(n % 10)]
  }

  /** `String(n)` for an integer: a leading minus sign for negative values. */
  function IntToString(n: int): (s: string)
    ensures |s| > 0
    ensures n < 0 <==> s[0] == '-'
  {
    if n < 0 then "-" + NatToString(-n) else NatToString(n)
  }

  /** The value of a string of decimal digits: the inverse of NatToString. */
  function DigitsValue(s: string): (n: nat)
    requires forall k :: 0 <= k < |s| ==> IsDigit(s[k])
    decreases |s|
  {
    if s == [] then 0
    else
      assert IsDigit(s[|s| - 1]);
      10 * DigitsValue(s[..|s| - 1]) + (s[|s| - 1] as int - '0' as int)
  }

  lemma {:induction false} DigitsValueOfNatToString(n: nat)
    ensures DigitsValue(NatToString(n)) == n
    decreases n
  {
    if n >= 10 {
      var s := NatToString(n);
      DigitsValueOfNatToString(n / 10);
      assert s[..|s| - 1] == NatToString(n / 10);
    }
  }

  /** Distinct numbers have distinct decimal renderings. */
  lemma NatToStringInjective(m: nat, n: nat)
    requires NatToString(m) == NatToString(n)
    ensures m == n
  {
    DigitsValueOfNatToString(m);
    DigitsValueOfNatToString(n);
  }
}
