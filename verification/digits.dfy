/**
  Positional notation as JavaScript writes and reads it: `Number.prototype.toString(radix)`
  on integers (used for the tag-cloud colours in base 16 and the section numbers in
  base 10) and the digit set that `parseInt` accepts in base 16.
 */
module Digits {
  import opened Wrappers

  /** The lower-case digit character for `d`, as `toString` prints it. */
  function DigitChar(d: nat): (c: char)
    requires d < 16
  {
    if d < 10 then (48 + d) as char else (87 + d) as char
  }

  /** The value of a hexadecimal digit of either case; None for every other character. */
  function DigitValue(c: char): (r: Option<nat>)
    ensures r.Some? ==> r.value < 16
    ensures r.Some? <==> ('0' <= c <= '9' || 'a' <= c <= 'f' || 'A' <= c <= 'F')
  {
    if '0' <= c <= '9' then Some(c as int - '0' as int)
    else if 'a' <= c <= 'f' then Some(c as int - 'a' as int + 10)
    else if 'A' <= c <= 'F' then Some(c as int - 'A' as int + 10)
    else None
  }

  predicate IsDigitIn(c: char, radix: nat) {
    DigitValue(c).Some? && DigitValue(c).value < radix
  }

  /** Every character is a digit of `radix`. */
  predicate AllDigitsIn(s: string, radix: nat) {
    forall i :: 0 <= i < |s| ==> IsDigitIn(s[i], radix)
  }

  /** `DigitChar` and `DigitValue` are inverse on the sixteen digits. */
  lemma DigitRoundTrip(d: nat)
    requires d < 16
    ensures DigitValue(DigitChar(d)) == Some(d)
  {
  }

  /** Euclidean division by a radix, stated once so that proofs need not redo it. */
  lemma DivideByRadix(n: nat, radix: nat)
    requires 2 <= radix <= 16
    ensures n == (n / radix) * radix + n % radix
    ensures 0 <= n % radix < radix
    ensures n >= radix ==> 1 <= n / radix < n
  {
  }

  /** `n.toString(radix)` for a non-negative integer: most significant digit first,
      no leading zero, a single "0" for zero. */
  function NatToString(n: nat, radix: nat): (s: string)
    requires 2 <= radix <= 16
    ensures |s| >= 1
    ensures AllDigitsIn(s, radix)
    ensures |s| == 1 <==> n < radix
    ensures n > 0 ==> s[0] != '0'
    decreases n
  {
    if n < radix then
      DigitRoundTrip(n);
      [DigitChar(n)]
    else
      DivideByRadix(n, radix);
      DigitRoundTrip(n % radix);
      NatToString(n / radix, radix) + [DigitChar(n % radix)]
  }

  /** `n.toString(radix)` for any integer: a minus sign before the magnitude when negative. */
  function IntToString(n: int, radix: nat): (s: string)
    requires 2 <= radix <= 16
    ensures n >= 0 ==> AllDigitsIn(s, radix)
    ensures n < 0 ==> |s| >= 2 && s[0] == '-' && AllDigitsIn(s[1..], radix)
  {
    if n < 0 then "-" + NatToString(-n, radix) else NatToString(n, radix)
  }

  /** The value of a string of digits read in `radix`, most significant first. */
  function DigitsValue(s: string, radix: nat): nat
    requires forall i :: 0 <= i < |s| ==> DigitValue(s[i]).Some?
  {
    if |s| == 0 then 0
    else DigitsValue(s[..|s| - 1], radix) * radix + DigitValue(s[|s| - 1]).value
  }

  /** Reading back what `toString(radix)` printed gives the number again. */
  lemma {:induction false} NatToStringRoundTrip(n: nat, radix: nat)
    requires 2 <= radix <= 16
    ensures DigitsValue(NatToString(n, radix), radix) == n
    decreases n
  {
    var s := NatToString(n, radix);
    if n < radix {
      DigitRoundTrip(n);
    } else {
      DivideByRadix(n, radix);
      var t := NatToString(n / radix, radix);
      DigitRoundTrip(n % radix);
      assert s[..|s| - 1] == t;
      NatToStringRoundTrip(n / radix, radix);
    }
  }

  /** Distinct numbers print differently. */
  lemma NatToStringInjective(a: nat, b: nat, radix: nat)
    requires 2 <= radix <= 16
    requires NatToString(a, radix) == NatToString(b, radix)
    ensures a == b
  {
    NatToStringRoundTrip(a, radix);
    NatToStringRoundTrip(b, radix);
  }
}
