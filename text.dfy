/** Small string helpers shared by the model: searching, prefixes, decimal
    numerals and zero padding. */
module TextUtil {

  predicate StartsWith(s: string, prefix: string) {
    |prefix| <= |s| && s[..|prefix|] == prefix
  }

  predicate EndsWith(s: string, suffix: string) {
    |suffix| <= |s| && s[|s| - |suffix|..] == suffix
  }

  /** Index of the first occurrence of `c` in `s`, or |s| when there is none
      (Python's `str.find`, with |s| standing for -1). */
  function FirstIndex(s: string, c: char): (k: nat)
    ensures k <= |s|
    ensures c !in s[..k]
    ensures k < |s| ==> s[k] == c
    ensures k == |s| <==> c !in s
  {
    if s == [] then 0
    else if s[0] == c then 0
    else
      var k := 1 + FirstIndex(s[1..], c);
      assert s[..k] == [s[0]] + s[1..][..k - 1];
      k
  }

  /** Index of the last occurrence of `c` in `s`, or |s| when there is none. */
  function LastIndex(s: string, c: char): (k: nat)
    ensures k <= |s|
    ensures k < |s| ==> s[k] == c && c !in s[k + 1..]
    ensures k == |s| <==> c !in s
  {
    if s == [] then 0
    else if s[|s| - 1] == c then |s| - 1
    else
      var j := LastIndex(s[..|s| - 1], c);
      if j == |s| - 1 then
        assert s == s[..|s| - 1] + [s[|s| - 1]];
        |s|
      else
        assert s[j + 1..] == s[..|s| - 1][j + 1..] + [s[|s| - 1]];
        j
  }

  lemma Assoc<T>(a: seq<T>, b: seq<T>, c: seq<T>)
    ensures (a + b) + c == a + (b + c)
  {
  }

  lemma DropPrefix<T>(a: seq<T>, b: seq<T>)
    ensures (a + b)[|a|..] == b
  {
  }

  /** A non-empty sequence is its head followed by its tail. */
  lemma HeadTail<T>(s: seq<T>)
    requires s != []
    ensures [s[0]] + s[1..] == s
  {
  }

  /** A text that differs from `prefix` at some position does not start with it. */
  lemma DiffersAt(s: string, prefix: string, i: nat)
    requires i < |prefix| && i < |s| && s[i] != prefix[i]
    ensures !StartsWith(s, prefix)
  {
    if |prefix| <= |s| {
      assert s[..|prefix|][i] == s[i];
    }
  }

  /** The last occurrence is the one with no occurrence after it. */
  lemma LastIndexIs(s: string, c: char, k: nat)
    requires k < |s| && s[k] == c && c !in s[k + 1..]
    ensures LastIndex(s, c) == k
  {
  }

  /** The first occurrence is the one with no occurrence before it. */
  lemma FirstIndexIs(s: string, c: char, k: nat)
    requires k < |s| && s[k] == c && c !in s[..k]
    ensures FirstIndex(s, c) == k
  {
  }

  predicate IsDigit(c: char) {
    '0' <= c <= '9'
  }

  predicate AllDigits(s: string) {
    forall i :: 0 <= i < |s| ==> IsDigit(s[i])
  }

  function DigitChar(d: nat): (c: char)
    requires d < 10
    ensures IsDigit(c) && c as int - '0' as int == d
  {
    ('0' as int + d) as char
  }

  /** The value of a decimal numeral; leading zeros are allowed. */
  function ParseDecimal(s: string): nat
    requires AllDigits(s)
  {
    if s == [] then 0
    else 10 * ParseDecimal(s[..|s| - 1]) + (s[|s| - 1] as int - '0' as int)
  }

  /** The decimal numeral of `n` (Python's `str(n)` for a non-negative int). */
  function NatToString(n: nat): (s: string)
    ensures 1 <= |s| && AllDigits(s)
    ensures ParseDecimal(s) == n
    ensures |s| > 1 ==> s[0] != '0'
  {
    if n < 10 then [DigitChar(n)]
    else
      var s := NatToString(n / 10) + [DigitChar(n % 10)];
      assert s[..|s| - 1] == NatToString(n / 10);
      s
  }

  function Zeros(k: nat): (s: string)
    ensures |s| == k && AllDigits(s)
  {
    if k == 0 then [] else Zeros(k - 1) + ['0']
  }

  /** `s` padded on the left with '0' to at least `width` characters. */
  function PadLeft(s: string, width: nat): (r: string)
    ensures |r| == if |s| < width then width else |s|
  {
    Zeros(if |s| < width then width - |s| else 0) + s
  }

  lemma {:induction false} ParseZeros(k: nat)
    ensures ParseDecimal(Zeros(k)) == 0
  {
    if k > 0 {
      assert Zeros(k)[..k - 1] == Zeros(k - 1);
      ParseZeros(k - 1);
    }
  }

  /** Leading zeros do not change the value of a numeral. */
  lemma {:induction false} ParseLeadingZeros(k: nat, s: string)
    requires AllDigits(s)
    ensures AllDigits(Zeros(k) + s)
    ensures ParseDecimal(Zeros(k) + s) == ParseDecimal(s)
  {
    var z := Zeros(k) + s;
    if s == [] {
      assert z == Zeros(k);
      ParseZeros(k);
    } else {
      var s' := s[..|s| - 1];
      assert z[..|z| - 1] == Zeros(k) + s';
      ParseLeadingZeros(k, s');
    }
  }

  /** A zero-padded numeral still reads back as the number it was made from. */
  lemma PaddedNumeral(n: nat, width: nat)
    ensures AllDigits(PadLeft(NatToString(n), width))
    ensures ParseDecimal(PadLeft(NatToString(n), width)) == n
  {
    var s := NatToString(n);
    ParseLeadingZeros(if |s| < width then width - |s| else 0, s);
  }

  function Pow10(k: nat): (p: nat)
    ensures p >= 1
  {
    if k == 0 then 1 else 10 * Pow10(k - 1)
  }

  lemma {:induction false} Pow10Monotone(a: nat, b: nat)
    ensures a <= b ==> Pow10(a) <= Pow10(b)
  {
    if a < b {
      Pow10Monotone(a, b - 1);
    }
  }

  function DigitValue(c: char): int {
    c as int - '0' as int
  }

  /** A numeral of k digits is below 10^k. */
  lemma {:induction false} ParseBound(s: string)
    requires AllDigits(s)
    ensures ParseDecimal(s) < Pow10(|s|)
  {
    if s != [] {
      ParseBound(s[..|s| - 1]);
    }
  }

  /** Reading a numeral from its first digit: d * 10^(k-1) + the rest. */
  lemma {:induction false} ParseFront(s: string)
    requires AllDigits(s) && s != []
    ensures ParseDecimal(s) == DigitValue(s[0]) * Pow10(|s| - 1) + ParseDecimal(s[1..])
  {
    if |s| > 1 {
      var front := s[..|s| - 1];
      var tail := s[1..];
      assert front[0] == s[0];
      assert front[1..] == tail[..|tail| - 1];
      assert tail[|tail| - 1] == s[|s| - 1];
      ParseFront(front);
      var x := Pow10(|s| - 2);
      assert 10 * (DigitValue(s[0]) * x) == DigitValue(s[0]) * (10 * x);
    }
  }

  lemma AtLeastOnce(d: int, p: nat)
    requires d >= 1
    ensures d * p >= p
  {
  }

  /** A numeral without a leading zero has exactly as many digits as the
      number needs. */
  lemma NumeralMagnitude(n: nat)
    ensures n < Pow10(|NatToString(n)|)
    ensures |NatToString(n)| > 1 ==> Pow10(|NatToString(n)| - 1) <= n
  {
    var s := NatToString(n);
    ParseBound(s);
    if |s| > 1 {
      ParseFront(s);
      AtLeastOnce(DigitValue(s[0]), Pow10(|s| - 1));
    }
  }

  /** Smaller numbers never need more digits. */
  lemma NumeralLengthMonotone(i: nat, n: nat)
    requires i <= n
    ensures |NatToString(i)| <= |NatToString(n)|
  {
    NumeralMagnitude(i);
    NumeralMagnitude(n);
    Pow10Monotone(|NatToString(n)|, |NatToString(i)| - 1);
  }
}
