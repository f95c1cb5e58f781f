/** Strings as sequences of characters: substring search, Python's `str.join`,
    and the decimal rendering used by `%d`. */
module Text {

  /** `p` is a prefix of `s`. */
  predicate IsPrefix(p: string, s: string) {
    |p| <= |s| && s[..|p|] == p
  }

  /** `w` occurs in `s` as a contiguous substring. */
  predicate Contains(s: string, w: string) {
    exists i :: 0 <= i <= |s| && IsPrefix(w, s[i..])
  }

  /** An occurrence in a suffix of `s` is an occurrence in `s`. */
  lemma ContainsInSuffix(s: string, pos: nat, w: string)
    requires pos <= |s|
    requires Contains(s[pos..], w)
    ensures Contains(s, w)
  {
  }

  /** Python's `sep.join(parts)`. */
  function Join(sep: string, parts: seq<string>): string {
    if |parts| == 0 then ""
    else if |parts| == 1 then parts[0]
    else parts[0] + sep + Join(sep, parts[1..])
  }

  function DigitChar(d: nat): char
    requires d < 10
  {
    "0123456789"[d]
  }

  function CharValue(c: char): int {
    c as int - '0' as int
  }

  /** `%d` of a natural number. */
  function NatStr(n: nat): (r: string)
    ensures |r| >= 1
  {
    if n < 10 then [DigitChar(n)] else NatStr(n / 10) + [DigitChar(n % 10)]
  }

  /** Every character is a decimal digit. */
  predicate IsDigits(s: string) {
    forall i :: 0 <= i < |s| ==> '0' <= s[i] <= '9'
  }

  /** `%d` writes digits only, with no leading zero, and at most two of them below 100. */
  lemma {:induction false} NatStrDigits(n: nat)
    ensures IsDigits(NatStr(n))
    ensures NatStr(n)[0] == '0' ==> n == 0
    ensures n < 100 ==> |NatStr(n)| <= 2
  {
    if n >= 10 {
      NatStrDigits(n / 10);
      var s := NatStr(n);
      assert s == NatStr(n / 10) + [DigitChar(n % 10)];
      assert s[0] == NatStr(n / 10)[0];
    }
  }

  /** `%d` of any integer. */
  function IntStr(n: int): string {
    if n < 0 then "-" + NatStr(-n) else NatStr(n)
  }

  /** `%02d` of a natural number. */
  function Pad2(n: nat): string {
    if n < 10 then "0" + NatStr(n) else NatStr(n)
  }

  /** The value of a string of decimal digits, most significant first. */
  function DigitsValue(s: string): int {
    if s == [] then 0 else DigitsValue(s[..|s| - 1]) * 10 + CharValue(s[|s| - 1])
  }

  /** Reading back the digits `%d` writes gives the number. */
  lemma {:induction false} NatStrRoundTrip(n: nat)
    ensures DigitsValue(NatStr(n)) == n
  {
    if n >= 10 {
      var s := NatStr(n);
      assert s[..|s| - 1] == NatStr(n / 10);
      NatStrRoundTrip(n / 10);
    }
  }

  /** `%02d` of a value below 100 is two digits that read back as the value. */
  lemma Pad2RoundTrip(n: nat)
    requires n < 100
    ensures |Pad2(n)| == 2 && DigitsValue(Pad2(n)) == n
    ensures IsDigits(Pad2(n))
  {
    NatStrDigits(n);
    if n < 10 {
      var s := Pad2(n);
      assert s == ['0', DigitChar(n)];
      assert s[..1] == "0";
      assert DigitsValue("0") == 0;
    } else {
      NatStrRoundTrip(n);
      assert NatStr(n / 10) == [DigitChar(n / 10)];
    }
  }
}
