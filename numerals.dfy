/** Positional numerals: Python's `str(int)`, `int(str)` and fixed-width zero-padded fields. */
module Numerals {
  import opened Outcomes

  /** The character of digit `d`; lower-case letters above nine, as `uuid` and `hex` write them. */
  function DigitChar(d: nat): char
    requires d < 16
  {
    if d < 10 then ('0' as int + d) as char else ('a' as int + d - 10) as char
  }

  /** The value of a digit character; 16 for a character that is no digit at all. */
  function DigitValue(c: char): nat
  {
    if '0' <= c <= '9' then c as int - '0' as int
    else if 'a' <= c <= 'f' then c as int - 'a' as int + 10
    else 16
  }

  predicate AllDigits(s: string, base: nat)
  {
    forall i :: 0 <= i < |s| ==> DigitValue(s[i]) < base
  }

  /** The two bases the modelled code writes numbers in: decimal and hexadecimal. */
  predicate IsBase(base: nat)
  {
    base == 10 || base == 16
  }

  lemma DivMod(n: nat, base: nat)
    requires IsBase(base)
    ensures n == (n / base) * base + n % base && n % base < base
    ensures n >= base ==> n / base < n
  {
  }

  function Pow(b: nat, e: nat): nat
  {
    if e == 0 then 1 else b * Pow(b, e - 1)
  }

  /** The shortest numeral of `n` in `base`. */
  function Digits(n: nat, base: nat): string
    requires IsBase(base)
    decreases n
  {
    if n < base then [DigitChar(n)] else Digits(n / base, base) + [DigitChar(n % base)]
  }

  /** The number a numeral denotes, most significant digit first. */
  function ValueOf(s: string, base: nat): nat
    requires IsBase(base)
    requires AllDigits(s, base)
  {
    if s == [] then 0 else ValueOf(s[..|s| - 1], base) * base + DigitValue(s[|s| - 1])
  }

  function Zeros(k: nat): (z: string)
    ensures |z| == k && forall i :: 0 <= i < k ==> z[i] == '0'
  {
    if k == 0 then "" else Zeros(k - 1) + "0"
  }

  /** `n` written in `base` with leading zeros up to `width` characters (`'%0*d'`). */
  function Pad(n: nat, width: nat, base: nat): string
    requires IsBase(base)
  {
    var s := Digits(n, base);
    if |s| < width then Zeros(width - |s|) + s else s
  }

  lemma {:induction false} DigitsRoundTrip(n: nat, base: nat)
    requires IsBase(base)
    ensures AllDigits(Digits(n, base), base) && ValueOf(Digits(n, base), base) == n
    decreases n
  {
    if n >= base {
      var q, r := n / base, n % base;
      DivMod(n, base);
      DigitsRoundTrip(q, base);
      DigitValueChar(r);
      Snoc(Digits(q, base), DigitChar(r), base);
      assert Digits(n, base) == Digits(q, base) + [DigitChar(r)];
    } else {
      DigitValueChar(n);
    }
  }

  /** A digit's character reads back as the digit. */
  lemma DigitValueChar(d: nat)
    requires d < 16
    ensures DigitValue(DigitChar(d)) == d
  {
  }

  lemma Snoc(s: string, c: char, base: nat)
    requires IsBase(base)
    requires AllDigits(s, base) && DigitValue(c) < base
    ensures AllDigits(s + [c], base) && ValueOf(s + [c], base) == ValueOf(s, base) * base + DigitValue(c)
  {
    assert (s + [c])[..|s + [c]| - 1] == s;
  }

  lemma {:induction false} ZerosPrefix(k: nat, s: string, base: nat)
    requires IsBase(base)
    requires AllDigits(s, base)
    ensures AllDigits(Zeros(k) + s, base) && ValueOf(Zeros(k) + s, base) == ValueOf(s, base)
    decreases |s|, k
  {
    var t := Zeros(k) + s;
    if s == [] {
      assert t == Zeros(k);
      if k > 0 {
        assert t[..|t| - 1] == Zeros(k - 1) + s;
        ZerosPrefix(k - 1, s, base);
      }
    } else {
      assert t[..|t| - 1] == Zeros(k) + s[..|s| - 1];
      ZerosPrefix(k, s[..|s| - 1], base);
    }
  }

  /** A padded field reads back as the number it was written from. */
  lemma {:induction false} PadRoundTrip(n: nat, width: nat, base: nat)
    requires IsBase(base)
    ensures AllDigits(Pad(n, width, base), base) && ValueOf(Pad(n, width, base), base) == n
  {
    var s := Digits(n, base);
    DigitsRoundTrip(n, base);
    assert AllDigits(s, base) && ValueOf(s, base) == n;
    if |s| < width {
      var z := Zeros(width - |s|);
      ZerosPrefix(width - |s|, s, base);
      assert AllDigits(z + s, base) && ValueOf(z + s, base) == n;
      assert Pad(n, width, base) == z + s;
    } else {
      assert Pad(n, width, base) == s;
    }
  }

  lemma {:induction false} DigitsLength(n: nat, base: nat, w: nat)
    requires IsBase(base) && 1 <= w
    requires n < Pow(base, w)
    ensures |Digits(n, base)| <= w
    decreases n
  {
    if n >= base {
      assert w >= 2;
      var p := Pow(base, w - 1);
      assert n < base * p;
      DivMod(n, base);
      MulLess(n / base, p, base);
      DigitsLength(n / base, base, w - 1);
    }
  }

  /** Multiplying by the base keeps strict order in both directions. */
  lemma MulLess(a: nat, b: nat, base: nat)
    requires IsBase(base) && a * base < b * base
    ensures a < b
  {
    if base == 10 {
      assert a * 10 < b * 10;
    } else {
      assert a * 16 < b * 16;
    }
  }

  /** A number below `base^width` fills its padded field exactly. */
  lemma PadLength(n: nat, width: nat, base: nat)
    requires IsBase(base) && 1 <= width
    requires n < Pow(base, width)
    ensures |Pad(n, width, base)| == width
  {
    DigitsLength(n, base, width);
  }

  /** Python's `str(i)` for an `int`. */
  function IntStr(i: int): string
  {
    if i < 0 then "-" + Digits(-i, 10) else Digits(i, 10)
  }

  /**
   * The whitespace below U+00FF that `int()` skips around the digits: tab to carriage return and
   * the space, the ASCII set, and U+0085 and the no-break space, which it first turns into spaces.
   * The separators U+001C to U+001F, which `str.strip()` removes, are not among them.
   */
  predicate IsSpace(c: char)
  {
    ('\t' <= c <= '\r') || c == ' ' || c == '\U{0085}' || c == '\U{00a0}'
  }

  function StripLeft(s: string): (r: string)
    ensures |r| <= |s|
    ensures r != [] ==> !IsSpace(r[0])
  {
    if s != [] && IsSpace(s[0]) then StripLeft(s[1..]) else s
  }

  function StripRight(s: string): (r: string)
    ensures |r| <= |s|
    ensures r != [] ==> !IsSpace(r[|r| - 1])
  {
    if s != [] && IsSpace(s[|s| - 1]) then StripRight(s[..|s| - 1]) else s
  }

  /** Python's `int(s)` for a `str`: surrounding whitespace, an optional sign, then decimal digits. */
  function ParseInt(s: string): (r: Option<int>)
    ensures r.Some? ==> exists t :: t != "" && AllDigits(t, 10) && (r.value == ValueOf(t, 10) || r.value == -(ValueOf(t, 10) as int))
  {
    var t := StripRight(StripLeft(s));
    if t == "" then None
    else if t[0] == '-' || t[0] == '+' then
      var ds := t[1..];
      if ds != "" && AllDigits(ds, 10) then Some(if t[0] == '-' then -(ValueOf(ds, 10) as int) else ValueOf(ds, 10)) else None
    else if AllDigits(t, 10) then Some(ValueOf(t, 10))
    else None
  }

  lemma NoSpaceInDigits(n: nat, base: nat)
    requires IsBase(base)
    ensures Digits(n, base) != [] && forall i :: 0 <= i < |Digits(n, base)| ==> !IsSpace(Digits(n, base)[i]) && Digits(n, base)[i] != '-' && Digits(n, base)[i] != '+'
  {
    DigitsRoundTrip(n, base);
  }

  /** `int(str(i)) == i`. */
  lemma ParseIntStr(i: int)
    ensures ParseInt(IntStr(i)) == Some(i)
  {
    var s := IntStr(i);
    var d := Digits(if i < 0 then -i else i, 10);
    NoSpaceInDigits(if i < 0 then -i else i, 10);
    DigitsRoundTrip(if i < 0 then -i else i, 10);
    assert StripLeft(s) == s;
    assert StripRight(s) == s;
    if i < 0 {
      assert s[1..] == d;
    }
  }
}
