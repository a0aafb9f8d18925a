/**
  The hex colour codec of the tag cloud (`toRGB`, `toHex` in assets/js/core.js).

  `toRGB` works with two regular expressions: for a four-character code it takes the
  first match of `/\w+/` and writes it twice, then it takes the leftmost match of
  `(\w{2})(\w{2})(\w{2})` and reads each pair with `parseInt("0x" + pair)`.
  `toHex` prints each channel with `toString(16)`, padding one-digit results with a zero.
 */
module Color {
  import opened Wrappers
  import opened JsNumber
  import opened Digits

  /** `toRGB` throws when line 54 finds no six word characters: `hex` is null and `hex[1]`
      fails. The checked decoder also rejects a code that is neither `#rrggbb` nor `#rgb`. */
  datatype ColorError = NoHexTriple | NotHexCode

  /** A channel that `toHex` prints as exactly two hexadecimal digits. */
  predicate IsByte(n: Number) {
    n.Finite? && IsIntegral(n) && 0.0 <= n.value <= 255.0
  }

  /** Channels `toString(16)` prints as digits (or as NaN or Infinity): none is fractional. */
  predicate AllIntegral(ary: seq<Number>) {
    forall k :: 0 <= k < |ary| ==> IsIntegral(ary[k])
  }

  /** Three byte channels: a colour `toHex` prints as `#rrggbb`. The last conjunct follows
      from the others; it is spelled out so that `toHex` may be applied at once. */
  predicate IsRgb(c: seq<Number>) {
    |c| == 3 && IsByte(c[0]) && IsByte(c[1]) && IsByte(c[2]) && AllIntegral(c)
  }

  /** What a decoded or clamped channel can be: a byte, or NaN. */
  predicate IsByteOrNaN(n: Number) {
    n.NaN? || IsByte(n)
  }

  /** The integer held by a byte channel. */
  function ByteOf(n: Number): (b: nat)
    requires IsByte(n)
    ensures b < 256 && n == Finite(b as real)
  {
    n.value.Floor
  }

  /** Membership in the regular-expression class `\w`. */
  predicate IsWordChar(c: char) {
    'a' <= c <= 'z' || 'A' <= c <= 'Z' || '0' <= c <= '9' || c == '_'
  }

  predicate AllWord(s: string) {
    forall i :: 0 <= i < |s| ==> IsWordChar(s[i])
  }

  // ---------------------------------------------------------------------------
  // The shorthand expansion of lines 49-53

  /** The leftmost word character at or after `from`. */
  function FirstWordStart(s: string, from: nat): (r: Option<nat>)
    ensures r.Some? ==> from <= r.value < |s| && IsWordChar(s[r.value])
    ensures r.Some? ==> forall j :: from <= j < r.value ==> !IsWordChar(s[j])
    ensures r.None? ==> forall j :: from <= j < |s| ==> !IsWordChar(s[j])
    decreases |s| - from
  {
    if from >= |s| then None
    else if IsWordChar(s[from]) then Some(from)
    else FirstWordStart(s, from + 1)
  }

  /** The end of the run of word characters that starts at `k`. */
  function WordRunEnd(s: string, k: nat): (e: nat)
    requires k <= |s|
    ensures k <= e <= |s|
    ensures forall j :: k <= j < e ==> IsWordChar(s[j])
    ensures e == |s| || !IsWordChar(s[e])
    decreases |s| - k
  {
    if k < |s| && IsWordChar(s[k]) then WordRunEnd(s, k + 1) else k
  }

  /** The match of `/\w+/` in `s`, or "" when there is none (mapping over a null match
      yields an empty array, which joins to ""). */
  function FirstWordRun(s: string): (r: string)
    ensures AllWord(r)
    ensures r == "" <==> forall j :: 0 <= j < |s| ==> !IsWordChar(s[j])
  {
    match FirstWordStart(s, 0)
    case None => ""
    case Some(k) => s[k..WordRunEnd(s, k)]
  }

  /** The string with each character written twice, `abc` to `aabbcc`. */
  function DoubleEachChar(s: string): (r: string)
    ensures |r| == 2 * |s|
    ensures forall i :: 0 <= i < |s| ==> r[2 * i] == s[i] && r[2 * i + 1] == s[i]
  {
    if s == [] then [] else [s[0], s[0]] + DoubleEachChar(s[1..])
  }

  // ---------------------------------------------------------------------------
  // The pair decoding of lines 54-55

  /** Six word characters start at `i`: a place where `(\w{2})(\w{2})(\w{2})` matches. */
  predicate SixWordAt(s: string, i: nat) {
    i + 6 <= |s| && forall j :: i <= j < i + 6 ==> IsWordChar(s[j])
  }

  /** The leftmost match position at or after `from`. */
  function FindTriple(s: string, from: nat): (r: Option<nat>)
    ensures r.Some? ==> from <= r.value && SixWordAt(s, r.value)
    ensures r.Some? ==> forall j :: from <= j < r.value ==> !SixWordAt(s, j)
    ensures r.None? ==> forall j: nat :: from <= j ==> !SixWordAt(s, j)
    decreases |s| - from
  {
    if from + 6 > |s| then None
    else if SixWordAt(s, from) then Some(from)
    else FindTriple(s, from + 1)
  }

  /** The value of two hexadecimal digits. */
  function PairValue(hi: char, lo: char): nat
    requires DigitValue(hi).Some? && DigitValue(lo).Some?
  {
    16 * DigitValue(hi).value + DigitValue(lo).value
  }

  /** `parseInt("0x" + p)`: the value of the longest prefix of hexadecimal digits of `p`,
      NaN when `p` does not start with one. */
  function ParseHexPair(p: string): (r: Number)
    requires |p| == 2
    ensures r.NaN? <==> DigitValue(p[0]).None?
    ensures IsByteOrNaN(r)
    ensures DigitValue(p[0]).Some? && DigitValue(p[1]).Some? ==> r == Finite(PairValue(p[0], p[1]) as real)
    ensures DigitValue(p[0]).Some? && DigitValue(p[1]).None? ==> r == Finite(DigitValue(p[0]).value as real)
  {
    match DigitValue(p[0])
    case None => NaN
    case Some(hi) =>
      match DigitValue(p[1])
      case None => Finite(hi as real)
      case Some(lo) => Finite((16 * hi + lo) as real)
  }

  /** Line 54-55: the three pairs of the leftmost six word characters, read as numbers. */
  function DecodePairs(code: string): (r: Result<seq<Number>, ColorError>)
    ensures r.Success? <==> exists i: nat :: SixWordAt(code, i)
    ensures r.Success? ==> |r.value| == 3 && AllIntegral(r.value) && forall k :: 0 <= k < 3 ==> IsByteOrNaN(r.value[k])
  {
    match FindTriple(code, 0)
    case None => Failure(NoHexTriple)
    case Some(i) =>
      Success([ParseHexPair(code[i..i + 2]), ParseHexPair(code[i + 2..i + 4]), ParseHexPair(code[i + 4..i + 6])])
  }

  /** `toRGB(code)` as written: a four-character code is replaced by its first word run
      written twice before the pairs are read. */
  function ToRGB(code: string): (r: Result<seq<Number>, ColorError>)
    ensures r.Success? ==> |r.value| == 3 && AllIntegral(r.value) && forall k :: 0 <= k < 3 ==> IsByteOrNaN(r.value[k])
    ensures |code| != 4 ==> (r.Success? <==> exists i: nat :: SixWordAt(code, i))
  {
    if |code| == 4 then
      var run := FirstWordRun(code);
      DecodePairs(run + run)
    else DecodePairs(code)
  }

  /** `toRGB` with the shorthand expanded digit by digit, `#abc` read as `#aabbcc`. */
  function ToRGBPerDigit(code: string): (r: Result<seq<Number>, ColorError>)
    ensures r.Success? ==> |r.value| == 3 && AllIntegral(r.value) && forall k :: 0 <= k < 3 ==> IsByteOrNaN(r.value[k])
    ensures |code| != 4 ==> r == ToRGB(code)
  {
    if |code| == 4 then DecodePairs(DoubleEachChar(FirstWordRun(code)))
    else DecodePairs(code)
  }

  // ---------------------------------------------------------------------------
  // toHex, lines 59-65

  /** `n.toString(16)` for the integer-valued numbers the tag cloud prints. */
  function ToString16(n: Number): string
    requires IsIntegral(n)
  {
    match n
    case Finite(x) => IntToString(x.Floor, 16)
    case PosInf => "Infinity"
    case NegInf => "-Infinity"
    case NaN => "NaN"
  }

  /** Line 62: a single digit gets a leading zero; longer text is left alone. */
  function PadChannel(h: string): string {
    if |h| == 1 then "0" + h else h
  }

  /** A byte prints as its two digits, high nibble first. */
  lemma ByteToHex(n: Number)
    ensures IsByte(n) ==>
      PadChannel(ToString16(n)) == [DigitChar(ByteOf(n) / 16), DigitChar(ByteOf(n) % 16)]
  {
    if IsByte(n) && ByteOf(n) >= 16 {
      var b := ByteOf(n);
      assert NatToString(b / 16, 16) == [DigitChar(b / 16)];
    }
  }

  /** Every channel is a byte. */
  predicate AllBytes(ary: seq<Number>) {
    forall k :: 0 <= k < |ary| ==> IsByte(ary[k])
  }

  /** `r` is two hexadecimal digits per byte of `ary`, high nibble first. */
  predicate PrintsBytes(ary: seq<Number>, r: string)
    requires AllBytes(ary)
  {
    |r| == 2 * |ary| &&
    forall k :: 0 <= k < |ary| ==>
      r[2 * k] == DigitChar(ByteOf(ary[k]) / 16) && r[2 * k + 1] == DigitChar(ByteOf(ary[k]) % 16)
  }

  /** The digits of one byte followed by those of the rest are the digits of all of them. */
  lemma PrintsBytesCons(ary: seq<Number>, head: string, tail: string)
    requires |ary| > 0 && AllBytes(ary) && AllBytes(ary[1..])
    requires head == [DigitChar(ByteOf(ary[0]) / 16), DigitChar(ByteOf(ary[0]) % 16)]
    requires PrintsBytes(ary[1..], tail)
    ensures PrintsBytes(ary, head + tail)
  {
    var r := head + tail;
    forall k | 1 <= k < |ary|
      ensures r[2 * k] == DigitChar(ByteOf(ary[k]) / 16) && r[2 * k + 1] == DigitChar(ByteOf(ary[k]) % 16)
    {
      assert ary[1..][k - 1] == ary[k];
      assert r[2 * k] == tail[2 * (k - 1)] && r[2 * k + 1] == tail[2 * (k - 1) + 1];
    }
  }

  /** The printed channels, joined with no separator. */
  function JoinChannels(ary: seq<Number>): (r: string)
    requires AllIntegral(ary)
    ensures AllBytes(ary) ==> PrintsBytes(ary, r)
  {
    if ary == [] then ""
    else
      assert AllIntegral(ary[1..]) by {
        assert forall k :: 0 <= k < |ary| - 1 ==> ary[1..][k] == ary[k + 1];
      }
      var head := PadChannel(ToString16(ary[0]));
      var tail := JoinChannels(ary[1..]);
      if AllBytes(ary) then
        assert AllBytes(ary[1..]) by {
          assert forall k :: 0 <= k < |ary| - 1 ==> ary[1..][k] == ary[k + 1];
        }
        ByteToHex(ary[0]);
        PrintsBytesCons(ary, head, tail);
        head + tail
      else head + tail
  }

  /** `toHex(ary)`: "#" and every channel in base 16. */
  function ToHex(ary: seq<Number>): (r: string)
    requires AllIntegral(ary)
    ensures |r| >= 1 && r[0] == '#'
    ensures AllBytes(ary) ==>
      |r| == 1 + 2 * |ary| &&
      forall k :: 0 <= k < |ary| ==>
        r[2 * k + 1] == DigitChar(ByteOf(ary[k]) / 16) && r[2 * k + 2] == DigitChar(ByteOf(ary[k]) % 16)
  {
    "#" + JoinChannels(ary)
  }

  // ---------------------------------------------------------------------------
  // Round trips and the shorthand branch

  /** A seven-character code `#rrggbb` of hexadecimal digits of either case. */
  predicate IsHexCode(s: string) {
    |s| == 7 && s[0] == '#' && forall i :: 1 <= i < 7 ==> DigitValue(s[i]).Some?
  }

  /** Any code of the form `#rrggbb`: the three consecutive pairs, each a byte. */
  lemma DecodeHexCode(s: string)
    requires IsHexCode(s)
    ensures ToRGB(s) == Success([Finite(PairValue(s[1], s[2]) as real),
                                 Finite(PairValue(s[3], s[4]) as real),
                                 Finite(PairValue(s[5], s[6]) as real)])
  {
    assert !IsWordChar(s[0]);
    assert SixWordAt(s, 1);
    assert FindTriple(s, 0) == Some(1);
    assert s[1..3] == [s[1], s[2]] && s[3..5] == [s[3], s[4]] && s[5..7] == [s[5], s[6]];
  }

  /** The two digits printed for a byte read back as that byte. */
  lemma PrintedPairValue(n: Number)
    requires IsByte(n)
    ensures DigitValue(DigitChar(ByteOf(n) / 16)).Some? && DigitValue(DigitChar(ByteOf(n) % 16)).Some?
    ensures PairValue(DigitChar(ByteOf(n) / 16), DigitChar(ByteOf(n) % 16)) == ByteOf(n)
  {
    DigitRoundTrip(ByteOf(n) / 16);
    DigitRoundTrip(ByteOf(n) % 16);
  }

  /** The seven characters `toHex` prints for three bytes: `#` and two digits per byte. */
  lemma HexDigitsOf(c: seq<Number>)
    requires IsRgb(c)
    ensures ToHex(c) ==
      ['#', DigitChar(ByteOf(c[0]) / 16), DigitChar(ByteOf(c[0]) % 16),
            DigitChar(ByteOf(c[1]) / 16), DigitChar(ByteOf(c[1]) % 16),
            DigitChar(ByteOf(c[2]) / 16), DigitChar(ByteOf(c[2]) % 16)]
  {
    assert forall k :: 0 <= k < |c| ==> IsByte(c[k]);
  }

  /** Three bytes print as a code `#rrggbb` whose pairs are those bytes. */
  lemma PrintedHexCode(c: seq<Number>)
    requires IsRgb(c)
    ensures var s := ToHex(c);
      IsHexCode(s) &&
      PairValue(s[1], s[2]) == ByteOf(c[0]) &&
      PairValue(s[3], s[4]) == ByteOf(c[1]) &&
      PairValue(s[5], s[6]) == ByteOf(c[2])
  {
    HexDigitsOf(c);
    PrintedPairValue(c[0]);
    PrintedPairValue(c[1]);
    PrintedPairValue(c[2]);
    SixDigitsCode(DigitChar(ByteOf(c[0]) / 16), DigitChar(ByteOf(c[0]) % 16),
                  DigitChar(ByteOf(c[1]) / 16), DigitChar(ByteOf(c[1]) % 16),
                  DigitChar(ByteOf(c[2]) / 16), DigitChar(ByteOf(c[2]) % 16));
  }

  /** `#` and six hexadecimal digits make a code `#rrggbb`. */
  lemma SixDigitsCode(a: char, b: char, c: char, d: char, e: char, f: char)
    requires DigitValue(a).Some? && DigitValue(b).Some? && DigitValue(c).Some?
    requires DigitValue(d).Some? && DigitValue(e).Some? && DigitValue(f).Some?
    ensures IsHexCode(['#', a, b, c, d, e, f])
  {
    var s := ['#', a, b, c, d, e, f];
    assert s[1] == a && s[2] == b && s[3] == c && s[4] == d && s[5] == e && s[6] == f;
  }

  /** Printing three bytes and reading them back gives the same bytes. */
  lemma HexRoundTrip(c: seq<Number>)
    requires IsRgb(c)
    ensures |ToHex(c)| == 7
    ensures ToRGB(ToHex(c)) == Success(c)
  {
    var s := ToHex(c);
    PrintedHexCode(c);
    DecodeHexCode(s);
    assert c == [c[0], c[1], c[2]];
  }

  /** `s` with every hexadecimal digit in its canonical lower-case form. */
  function LowerDigits(s: string): (r: string)
    ensures |r| == |s|
  {
    seq(|s|, i requires 0 <= i < |s| =>
      match DigitValue(s[i])
      case Some(v) => DigitChar(v)
      case None => s[i])
  }

  /** The high and low digit of a pair are recovered by division by sixteen. */
  lemma PairDigits(hi: char, lo: char)
    requires DigitValue(hi).Some? && DigitValue(lo).Some?
    ensures PairValue(hi, lo) < 256
    ensures PairValue(hi, lo) / 16 == DigitValue(hi).value
    ensures PairValue(hi, lo) % 16 == DigitValue(lo).value
  {
  }

  /** A pair read as a channel prints as the lower-case forms of its two digits. */
  lemma PairPrints(hi: char, lo: char)
    requires DigitValue(hi).Some? && DigitValue(lo).Some?
    ensures var n := Finite(PairValue(hi, lo) as real);
      IsByte(n) &&
      DigitChar(ByteOf(n) / 16) == DigitChar(DigitValue(hi).value) &&
      DigitChar(ByteOf(n) % 16) == DigitChar(DigitValue(lo).value)
  {
    PairDigits(hi, lo);
    var n := Finite(PairValue(hi, lo) as real);
    assert IsByte(n);
    assert ByteOf(n) == PairValue(hi, lo);
  }

  /** The channels read from a code `#rrggbb` print as its digits in lower case. */
  lemma PairsPrintLower(c: seq<Number>, s: string)
    requires IsHexCode(s)
    requires c == [Finite(PairValue(s[1], s[2]) as real),
                   Finite(PairValue(s[3], s[4]) as real),
                   Finite(PairValue(s[5], s[6]) as real)]
    ensures IsRgb(c) && ToHex(c) == "#" + LowerDigits(s[1..])
  {
    PairPrints(s[1], s[2]);
    PairPrints(s[3], s[4]);
    PairPrints(s[5], s[6]);
    HexDigitsOf(c);
    LowerHexCode(s);
  }

  /** The lower-case form of a code `#rrggbb`, character by character. */
  lemma LowerHexCode(s: string)
    requires IsHexCode(s)
    ensures "#" + LowerDigits(s[1..]) ==
      ['#', DigitChar(DigitValue(s[1]).value), DigitChar(DigitValue(s[2]).value),
            DigitChar(DigitValue(s[3]).value), DigitChar(DigitValue(s[4]).value),
            DigitChar(DigitValue(s[5]).value), DigitChar(DigitValue(s[6]).value)]
  {
    var low := LowerDigits(s[1..]);
    assert forall i :: 0 <= i < 6 ==> low[i] == DigitChar(DigitValue(s[i + 1]).value);
  }

  /** Reading `#rrggbb` and printing the result gives the code back in lower case. */
  lemma HexCodeRoundTrip(s: string)
    requires IsHexCode(s)
    ensures ToRGB(s).Success?
    ensures ToHex(ToRGB(s).value) == "#" + LowerDigits(s[1..])
  {
    DecodeHexCode(s);
    PairsPrintLower(ToRGB(s).value, s);
  }

  /** The default start colour of the tag cloud reads as (255, 216, 216). */
  lemma DefaultStartColor()
    ensures ToRGB("#ffd8d8") == Success([Finite(255.0), Finite(216.0), Finite(216.0)])
  {
    DecodeHexCode("#ffd8d8");
  }

  /** The default end colour `#dd0000` is a colour code and reads as (221, 0, 0). */
  lemma DefaultEndColor()
    ensures IsHexCode("#dd0000")
    ensures ToRGB("#dd0000") == Success([Finite(221.0), Finite(0.0), Finite(0.0)])
  {
    assert DigitValue('d') == Some(13) && DigitValue('0') == Some(0);
    DecodeHexCode("#dd0000");
  }

  /** In `#xyz` with word characters `xyz`, the match of `/\w+/` is `xyz`. */
  lemma ShorthandWordRun(code: string)
    requires |code| == 4 && code[0] == '#' && AllWord(code[1..])
    ensures FirstWordRun(code) == code[1..]
  {
    assert IsWordChar(code[1]) && IsWordChar(code[2]) && IsWordChar(code[3]) by {
      assert code[1..][0] == code[1] && code[1..][1] == code[2] && code[1..][2] == code[3];
    }
    assert FirstWordStart(code, 0) == Some(1);
    assert WordRunEnd(code, 4) == 4;
    assert WordRunEnd(code, 3) == 4;
    assert WordRunEnd(code, 2) == 4;
    assert WordRunEnd(code, 1) == 4;
  }

  /** The pairs read from a string that starts with six word characters. */
  lemma DecodeFromStart(d: string)
    requires SixWordAt(d, 0)
    ensures DecodePairs(d) == Success([ParseHexPair([d[0], d[1]]), ParseHexPair([d[2], d[3]]),
                                       ParseHexPair([d[4], d[5]])])
  {
    assert FindTriple(d, 0) == Some(0);
    assert d[0..2] == [d[0], d[1]] && d[2..4] == [d[2], d[3]] && d[4..6] == [d[4], d[5]];
  }

  /** The four-character branch as written: `#xyz` is read from `xyzxyz`, so the pairs are
      `xy`, `zx` and `yz`. */
  lemma ShorthandAsWritten(code: string)
    requires |code| == 4 && code[0] == '#' && AllWord(code[1..])
    ensures ToRGB(code) == Success([ParseHexPair([code[1], code[2]]),
                                    ParseHexPair([code[3], code[1]]),
                                    ParseHexPair([code[2], code[3]])])
  {
    ShorthandWordRun(code);
    var doubled := code[1..] + code[1..];
    assert doubled == [code[1], code[2], code[3], code[1], code[2], code[3]];
    DecodeFromStart(doubled);
  }

  /** A doubled digit `xx` reads as seventeen times the digit. */
  lemma DoubledDigit(x: char)
    requires DigitValue(x).Some?
    ensures ParseHexPair([x, x]) == Finite((17 * DigitValue(x).value) as real)
  {
  }

  /** The digit-by-digit expansion: `#xyz` reads as `#xxyyzz`. */
  lemma ShorthandPerDigit(code: string)
    requires |code| == 4 && code[0] == '#' && forall i :: 1 <= i < 4 ==> DigitValue(code[i]).Some?
    ensures ToRGBPerDigit(code) == Success([Finite((17 * DigitValue(code[1]).value) as real),
                                            Finite((17 * DigitValue(code[2]).value) as real),
                                            Finite((17 * DigitValue(code[3]).value) as real)])
  {
    ShorthandWordRun(code);
    var d := DoubleEachChar(code[1..]);
    assert d == [code[1], code[1], code[2], code[2], code[3], code[3]];
    DecodeFromStart(d);
    DoubledDigit(code[1]);
    DoubledDigit(code[2]);
    DoubledDigit(code[3]);
  }

  /** Seventeen times a digit is a byte whose two hexadecimal digits are that digit. */
  lemma DoubledByte(n: Number, v: nat)
    requires v < 16 && n == Finite((17 * v) as real)
    ensures IsByte(n) && ByteOf(n) / 16 == v && ByteOf(n) % 16 == v
  {
    assert IsByte(n);
    assert ByteOf(n) == 17 * v;
  }

  /** Three channels of seventeen times a digit print as each digit doubled. */
  lemma DoubledDigitsPrint(r: Result<seq<Number>, ColorError>, digits: string, x: char, y: char, z: char)
    requires DigitValue(x).Some? && DigitValue(y).Some? && DigitValue(z).Some? && digits == [x, y, z]
    requires r == Success([Finite((17 * DigitValue(x).value) as real),
                           Finite((17 * DigitValue(y).value) as real),
                           Finite((17 * DigitValue(z).value) as real)])
    ensures r.Success? && IsRgb(r.value)
    ensures ToHex(r.value) == "#" + DoubleEachChar(LowerDigits(digits))
  {
    var c := r.value;
    var low := LowerDigits(digits);
    assert low == [DigitChar(DigitValue(x).value), DigitChar(DigitValue(y).value), DigitChar(DigitValue(z).value)];
    assert "#" + DoubleEachChar(low) == ['#', low[0], low[0], low[1], low[1], low[2], low[2]];
    DoubledByte(c[0], DigitValue(x).value);
    DoubledByte(c[1], DigitValue(y).value);
    DoubledByte(c[2], DigitValue(z).value);
    HexDigitsOf(c);
  }

  /** ... and prints back as `#xxyyzz` in lower case, the six-digit form of the shorthand. */
  lemma ShorthandPerDigitPrints(code: string)
    requires |code| == 4 && code[0] == '#' && forall i :: 1 <= i < 4 ==> DigitValue(code[i]).Some?
    ensures ToRGBPerDigit(code).Success?
    ensures ToHex(ToRGBPerDigit(code).value) == "#" + DoubleEachChar(LowerDigits(code[1..]))
  {
    ShorthandPerDigit(code);
    assert code[1..] == [code[1], code[2], code[3]];
    DoubledDigitsPrint(ToRGBPerDigit(code), code[1..], code[1], code[2], code[3]);
  }

  /** The pairs of `#f00` read as the shorthand branch reads them. */
  lemma RedPairs()
    ensures ParseHexPair(['f', '0']) == Finite(240.0)
    ensures ParseHexPair(['0', 'f']) == Finite(15.0)
    ensures ParseHexPair(['0', '0']) == Finite(0.0)
  {
    assert DigitValue('f') == Some(15) && DigitValue('0') == Some(0);
  }

  /** The letters of `#f00` are word characters and hexadecimal digits. */
  lemma RedDigits()
    ensures AllWord("#f00"[1..])
    ensures DigitValue('f') == Some(15) && DigitValue('0') == Some(0)
  {
    assert "#f00"[1..] == ['f', '0', '0'];
  }

  /** The shorthand `#f00` (pure red) reads as (240, 15, 0) as written; digit by digit it is
      (255, 0, 0). */
  lemma ShorthandRedCounterexample()
    ensures ToRGB("#f00") == Success([Finite(240.0), Finite(15.0), Finite(0.0)])
    ensures ToRGBPerDigit("#f00") == Success([Finite(255.0), Finite(0.0), Finite(0.0)])
  {
    RedDigits();
    RedPairs();
    ShorthandAsWritten("#f00");
    ShorthandPerDigit("#f00");
  }

  // ---------------------------------------------------------------------------
  // Codes that are not colours

  /** The shorthand `#rgb` of three hexadecimal digits of either case. */
  predicate IsShortHexCode(s: string) {
    |s| == 4 && s[0] == '#' && forall i :: 1 <= i < 4 ==> DigitValue(s[i]).Some?
  }

  /** `#rrggbb` decodes to three bytes. */
  lemma HexCodeIsRgb(code: string)
    requires IsHexCode(code)
    ensures ToRGB(code).Success? && IsRgb(ToRGB(code).value)
  {
    DecodeHexCode(code);
    PairPrints(code[1], code[2]);
    PairPrints(code[3], code[4]);
    PairPrints(code[5], code[6]);
  }

  /** `#rgb` decodes digit by digit to three bytes. */
  lemma ShortHexCodeIsRgb(code: string)
    requires IsShortHexCode(code)
    ensures ToRGBPerDigit(code).Success? && IsRgb(ToRGBPerDigit(code).value)
  {
    ShorthandPerDigit(code);
    var c := ToRGBPerDigit(code).value;
    DoubledByte(c[0], DigitValue(code[1]).value);
    DoubledByte(c[1], DigitValue(code[2]).value);
    DoubledByte(c[2], DigitValue(code[3]).value);
  }

  /** A decoder that accepts only colour codes: `#rrggbb` as `toRGB` reads it, `#rgb` digit by
      digit, and nothing else. */
  function ToRGBChecked(code: string): (r: Result<seq<Number>, ColorError>)
    ensures r.Success? <==> IsHexCode(code) || IsShortHexCode(code)
    ensures r.Success? ==> IsRgb(r.value)
    ensures IsHexCode(code) ==> r == ToRGB(code)
    ensures IsShortHexCode(code) ==> r == ToRGBPerDigit(code)
  {
    if IsHexCode(code) then
      HexCodeIsRgb(code);
      ToRGB(code)
    else if IsShortHexCode(code) then
      ShortHexCodeIsRgb(code);
      ToRGBPerDigit(code)
    else Failure(NotHexCode)
  }

  /** As written, codes that are not colours still decode: `#xyz` takes the four-character
      branch and reads as three NaN channels, and `#ffffff0` reads as its first six digits.
      The checked decoder rejects both. */
  lemma MalformedCodesDecode()
    ensures ToRGB("#xyz") == Success([NaN, NaN, NaN])
    ensures ToRGB("#ffffff0") == Success([Finite(255.0), Finite(255.0), Finite(255.0)])
    ensures ToRGBChecked("#xyz") == Failure(NotHexCode)
    ensures ToRGBChecked("#ffffff0") == Failure(NotHexCode)
  {
    assert "#xyz"[1..] == ['x', 'y', 'z'];
    assert DigitValue('x').None? && DigitValue('y').None? && DigitValue('z').None?;
    ShorthandAsWritten("#xyz");
    assert !IsShortHexCode("#xyz") by {
      assert DigitValue("#xyz"[1]).None?;
    }
    var s := "#ffffff0";
    assert !IsWordChar(s[0]) && SixWordAt(s, 1);
    assert FindTriple(s, 0) == Some(1);
    assert s[1..3] == ['f', 'f'] && s[3..5] == ['f', 'f'] && s[5..7] == ['f', 'f'];
    assert DigitValue('f') == Some(15);
  }
}
