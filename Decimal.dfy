/** Decimal rendering of non-negative integers as Python's format
    specification `{n:0Wd}` produces it: the digits of `n`, left-padded with
    '0' to at least `W` characters. `ValueOf` reads a digit string back; every
    rendering is proved to denote its number through it. `LexLess` is Python's
    ordering on strings. */
module Decimal {

  function Pow10(k: nat): (r: nat)
    ensures r >= 1
  {
    if k == 0 then 1 else 10 * Pow10(k - 1)
  }

  predicate IsDigit(c: char) {
    '0' <= c <= '9'
  }

  predicate IsDigits(s: string) {
    forall i :: 0 <= i < |s| ==> IsDigit(s[i])
  }

  function DigitValue(c: char): (d: nat)
    requires IsDigit(c)
    ensures d < 10
  {
    c as int - '0' as int
  }

  function DigitChar(d: nat): (c: char)
    requires d < 10
    ensures IsDigit(c) && DigitValue(c) == d
  {
    ('0' as int + d) as char
  }

  /** The number a digit string denotes (most significant digit first). */
  function ValueOf(s: string): (v: nat)
    requires IsDigits(s)
  {
    if s == [] then 0 else 10 * ValueOf(s[..|s| - 1]) + DigitValue(s[|s| - 1])
  }

  /** `str(n)` for a non-negative `n`: no sign, no leading zero except for 0 itself. */
  function DigitsOf(n: nat): (s: string)
    ensures IsDigits(s) && |s| >= 1
    ensures s[0] == '0' <==> n == 0
    ensures n < 10 <==> |s| == 1
  {
    if n < 10 then [DigitChar(n)] else DigitsOf(n / 10) + [DigitChar(n % 10)]
  }

  function Zeros(k: nat): (z: string)
  {
    seq(k, _ => '0')
  }

  /** The string `s` right-aligned in a field of `width` characters filled with '0'. */
  function ZeroPad(s: string, width: nat): (padded: string)
  {
    if |s| < width then Zeros(width - |s|) + s else s
  }

  /** `s` is a `width`-padded decimal rendering of `n`: digits only, denoting `n`,
      at least `width` long, and longer than `width` only when no leading zero
      is needed. */
  predicate IsPaddedDecimal(s: string, n: nat, width: nat) {
    && IsDigits(s)
    && 1 <= |s|
    && ValueOf(s) == n
    && width <= |s|
    && (width < |s| ==> |s| == 1 || s[0] != '0')
  }

  /** Python's `f'{n:0{width}d}'` for a non-negative `n`. */
  function FormatPadded(n: nat, width: nat): (s: string)
    ensures IsPaddedDecimal(s, n, width)
  {
    var digits := DigitsOf(n);
    ValueOfDigitsOf(n);
    ValueOfZeros(if |digits| < width then width - |digits| else 0, digits);
    assert Zeros(0) + digits == digits;
    ZeroPad(digits, width)
  }

  // ---------------------------------------------------------------------
  // Reading a rendering back

  lemma ValueOfSnoc(s: string, c: char)
    requires IsDigits(s) && IsDigit(c)
    ensures IsDigits(s + [c]) && ValueOf(s + [c]) == 10 * ValueOf(s) + DigitValue(c)
  {
    assert (s + [c])[..|s|] == s;
  }

  /** Reading back the digits of `n` gives `n`. */
  lemma {:induction false} ValueOfDigitsOf(n: nat)
    ensures ValueOf(DigitsOf(n)) == n
  {
    if n >= 10 {
      ValueOfDigitsOf(n / 10);
      ValueOfSnoc(DigitsOf(n / 10), DigitChar(n % 10));
    }
  }

  /** The leading digit weighs `10^(number of digits after it)`. */
  lemma {:induction false} ValueOfCons(c: char, s: string)
    requires IsDigit(c) && IsDigits(s)
    ensures IsDigits([c] + s)
    ensures ValueOf([c] + s) == DigitValue(c) * Pow10(|s|) + ValueOf(s)
  {
    if s == [] {
      assert ([c] + s)[..0] == [];
    } else {
      var init := s[..|s| - 1];
      var last := s[|s| - 1];
      assert IsDigits(init) by {
        forall i | 0 <= i < |init| ensures IsDigit(init[i]) { assert init[i] == s[i]; }
      }
      ValueOfCons(c, init);
      assert [c] + s == ([c] + init) + [last];
      ValueOfSnoc([c] + init, last);
      ValueOfSnoc(init, last);
      assert s == init + [last];
      var d, p := DigitValue(c), Pow10(|init|);
      assert Pow10(|s|) == 10 * p;
      PlaceValueShift(d, p, ValueOf(init), DigitValue(last));
    }
  }

  /** A string of `k` digits denotes less than `10^k`. */
  lemma {:induction false} ValueOfBound(s: string)
    requires IsDigits(s)
    ensures ValueOf(s) < Pow10(|s|)
  {
    if s != [] {
      var init := s[..|s| - 1];
      assert IsDigits(init) by {
        forall i | 0 <= i < |init| ensures IsDigit(init[i]) { assert init[i] == s[i]; }
      }
      ValueOfBound(init);
      assert ValueOf(s) == 10 * ValueOf(init) + DigitValue(s[|s| - 1]);
    }
  }

  /** Leading zeros do not change the value. */
  lemma {:induction false} ValueOfZeros(k: nat, s: string)
    requires IsDigits(s)
    ensures IsDigits(Zeros(k) + s) && ValueOf(Zeros(k) + s) == ValueOf(s)
  {
    if k == 0 {
      assert Zeros(k) + s == s;
    } else {
      ValueOfZeros(k - 1, s);
      assert Zeros(k) + s == ['0'] + (Zeros(k - 1) + s);
      ValueOfCons('0', Zeros(k - 1) + s);
    }
  }

  lemma {:induction false} Pow10Monotone(i: nat, j: nat)
    requires i <= j
    ensures Pow10(i) <= Pow10(j)
  {
    if i < j {
      Pow10Monotone(i, j - 1);
    }
  }

  lemma Pow10ThreeAndSix()
    ensures Pow10(3) == 1000 && Pow10(6) == 1000000
  {
  }

  /** A value below `10^width` renders in exactly `width` characters. */
  lemma PaddedWidthExact(s: string, n: nat, width: nat)
    requires 1 <= width && n < Pow10(width)
    requires IsPaddedDecimal(s, n, width)
    ensures |s| == width
  {
    if width < |s| {
      LeadingDigitBound(s);
      Pow10Monotone(width, |s| - 1);
    }
  }

  /** A digit string without a leading zero denotes at least `10^(length - 1)`. */
  lemma LeadingDigitBound(s: string)
    requires IsDigits(s) && 1 <= |s| && s[0] != '0'
    ensures ValueOf(s) >= Pow10(|s| - 1)
  {
    assert s == [s[0]] + s[1..];
    ValueOfCons(s[0], s[1..]);
    AtLeastOnce(DigitValue(s[0]), Pow10(|s| - 1));
  }

  // Arithmetic steps kept apart so that the solver sees them in isolation.

  lemma PlaceValueShift(d: nat, p: nat, v: nat, e: nat)
    ensures 10 * (d * p + v) + e == d * (10 * p) + (10 * v + e)
  {
  }

  lemma AtLeastOnce(d: nat, p: nat)
    requires 1 <= d
    ensures p <= d * p
  {
    assert d * p == (d - 1) * p + p;
  }

  lemma {:induction false} PlaceValueOrder(a: nat, b: nat, x: nat, y: nat, p: nat)
    requires a < b && x < p && y < p
    ensures a * p + x < b * p + y
    decreases b - a
  {
    assert b * p == (b - 1) * p + p;
    if a + 1 < b {
      PlaceValueOrder(a, b - 1, x, y, p);
    }
  }

  // ---------------------------------------------------------------------
  // Ordering

  /** Python's `<` on `str`: lexicographic by code point, a proper prefix first. */
  predicate LexLess(s: string, t: string) {
    if s == [] then t != []
    else if t == [] then false
    else s[0] < t[0] || (s[0] == t[0] && LexLess(s[1..], t[1..]))
  }

  /** A common prefix does not affect the order. */
  lemma {:induction false} LexLessPrefix(p: string, s: string, t: string)
    ensures LexLess(p + s, p + t) <==> LexLess(s, t)
  {
    if p != [] {
      assert (p + s)[1..] == p[1..] + s;
      assert (p + t)[1..] == p[1..] + t;
      LexLessPrefix(p[1..], s, t);
    } else {
      assert p + s == s && p + t == t;
    }
  }

  lemma LexLessCommonPrefix(s: string, t: string, k: nat)
    requires k <= |s| && k <= |t| && s[..k] == t[..k]
    ensures LexLess(s, t) <==> LexLess(s[k..], t[k..])
  {
    var prefix := s[..k];
    assert s == prefix + s[k..] && t == prefix + t[k..];
    LexLessPrefix(prefix, s[k..], t[k..]);
  }

  /** On digit strings of one length, string order is numeric order. */
  lemma {:induction false} LexLessDigits(s: string, t: string)
    requires IsDigits(s) && IsDigits(t) && |s| == |t|
    ensures LexLess(s, t) <==> ValueOf(s) < ValueOf(t)
  {
    if s != [] {
      var s', t' := s[1..], t[1..];
      assert s == [s[0]] + s' && t == [t[0]] + t';
      ValueOfCons(s[0], s');
      ValueOfCons(t[0], t');
      ValueOfBound(s');
      ValueOfBound(t');
      var p := Pow10(|s'|);
      var a, b := DigitValue(s[0]), DigitValue(t[0]);
      if a < b {
        PlaceValueOrder(a, b, ValueOf(s'), ValueOf(t'), p);
      } else if b < a {
        PlaceValueOrder(b, a, ValueOf(t'), ValueOf(s'), p);
      } else {
        LexLessDigits(s', t');
      }
    }
  }

  /** Renderings of one width below `10^width` compare as the numbers do. */
  lemma PaddedOrder(s: string, n: nat, t: string, m: nat, width: nat)
    requires 1 <= width && n < Pow10(width) && m < Pow10(width)
    requires IsPaddedDecimal(s, n, width) && IsPaddedDecimal(t, m, width)
    ensures n < m <==> LexLess(s, t)
  {
    PaddedWidthExact(s, n, width);
    PaddedWidthExact(t, m, width);
    LexLessDigits(s, t);
  }
}
