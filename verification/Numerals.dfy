/** Positional numerals, as texts. */
module Numerals {
  function Digit(d: nat): (c: char)
    requires d < 16
    ensures c != ':' && c != 'r' && c != '-'
  {
    "0123456789abcdef"[d]
  }

  /** Positional notation without leading zeros. */
  function Numeral(n: nat, base: nat): (s: string)
    requires 2 <= base <= 16
    ensures |s| > 0 && ':' !in s && s[0] != 'r'
  {
    if n < base then [Digit(n)] else Numeral(n / base, base) + [Digit(n % base)]
  }

  lemma {:induction false} NumeralsAreDistinct(m: nat, n: nat, base: nat)
    requires 2 <= base <= 16 && Numeral(m, base) == Numeral(n, base)
    ensures m == n
    decreases m
  {
    if m < base && n < base {
      DigitsAreDistinct(m, n);
      assert [Digit(m)][0] == [Digit(n)][0];
    } else if m >= base && n >= base {
      var q, r := LastDigit(m, base);
      var p, s := LastDigit(n, base);
      PairsAreDistinct(Numeral(q, base), Digit(r), Numeral(p, base), Digit(s));
      DigitsAreDistinct(r, s);
      NumeralsAreDistinct(q, p, base);
    }
  }

  lemma LastDigit(n: nat, base: nat) returns (q: nat, r: nat)
    requires 2 <= base <= 16 && base <= n
    ensures r < base && n == base * q + r && q < n
    ensures Numeral(n, base) == Numeral(q, base) + [Digit(r)]
  {
    q, r := n / base, n % base;
  }

  lemma PairsAreDistinct(s: string, c: char, t: string, d: char)
    requires s + [c] == t + [d]
    ensures s == t && c == d
  {
    assert s == (s + [c])[..|s|] && t == (t + [d])[..|t|];
    assert (s + [c])[|s|] == c && (t + [d])[|t|] == d;
  }

  lemma DigitsAreDistinct(c: nat, d: nat)
    requires c < 16 && d < 16
    ensures Digit(c) == Digit(d) ==> c == d
  {
  }

  // ---------------------------------------------------------------- reading decimals

  predicate IsDigit(c: char) {
    '0' <= c <= '9'
  }

  predicate AreDigits(s: string) {
    forall i :: 0 <= i < |s| ==> IsDigit(s[i])
  }

  function Value(s: string): (n: nat)
    requires AreDigits(s)
  {
    if s == [] then 0 else Value(s[..|s| - 1]) * 10 + (s[|s| - 1] as int - '0' as int)
  }

  /** Left-pads with zeros. */
  function Padded(s: string, width: nat): (r: string)
    ensures |r| == if |s| < width then width else |s|
    decreases width - |s|
  {
    if |s| < width then Padded("0" + s, width) else s
  }

  lemma DecimalDigit(d: nat)
    requires d < 10
    ensures IsDigit(Digit(d)) && Digit(d) as int - '0' as int == d
  {
  }

  /** A decimal reads back as the number it was written from. */
  lemma {:induction false} DecimalReadsBack(n: nat)
    ensures AreDigits(Numeral(n, 10)) && Value(Numeral(n, 10)) == n
  {
    DecimalDigit(n % 10);
    var s := Numeral(n, 10);
    if n >= 10 {
      DecimalReadsBack(n / 10);
      assert s[..|s| - 1] == Numeral(n / 10, 10) && s[|s| - 1] == Digit(n % 10);
    } else {
      assert s[..0] == [] && Value([]) == 0;
    }
  }

  lemma {:induction false} ZeroFirst(s: string)
    requires AreDigits(s)
    ensures AreDigits("0" + s) && Value("0" + s) == Value(s)
    decreases |s|
  {
    if s == [] {
      assert ("0" + s)[..0] == [] && Value([]) == 0;
    } else {
      ZeroFirst(s[..|s| - 1]);
      assert ("0" + s)[..|s|] == "0" + s[..|s| - 1];
    }
  }

  lemma {:induction false} PaddingKeepsValue(s: string, width: nat)
    requires AreDigits(s)
    ensures AreDigits(Padded(s, width)) && Value(Padded(s, width)) == Value(s)
    decreases width - |s|
  {
    if |s| < width {
      ZeroFirst(s);
      PaddingKeepsValue("0" + s, width);
    }
  }

  lemma {:induction false} WidthOfDecimal(n: nat)
    ensures n < 10 ==> |Numeral(n, 10)| == 1
    ensures 10 <= n < 100 ==> |Numeral(n, 10)| == 2
    ensures 100 <= n < 1000 ==> |Numeral(n, 10)| == 3
    ensures 1000 <= n < 10000 ==> |Numeral(n, 10)| == 4
    ensures n >= 10000 ==> |Numeral(n, 10)| >= 5
    decreases n
  {
    if n >= 10 {
      WidthOfDecimal(n / 10);
    }
  }

  lemma {:induction false} ValueIsBounded(s: string)
    requires AreDigits(s) && |s| <= 4
    ensures |s| == 0 ==> Value(s) == 0
    ensures |s| == 1 ==> Value(s) < 10
    ensures |s| == 2 ==> Value(s) < 100
    ensures |s| == 3 ==> Value(s) < 1000
    ensures |s| == 4 ==> Value(s) < 10000
    decreases |s|
  {
    if s != [] {
      ValueIsBounded(s[..|s| - 1]);
    }
  }

  /** Of one width, texts of digits with the same value are the same. */
  lemma {:induction false} SameValueSameText(s: string, t: string)
    requires |s| == |t| && AreDigits(s) && AreDigits(t) && Value(s) == Value(t)
    ensures s == t
    decreases |s|
  {
    if s != [] {
      var n := |s| - 1;
      SameValueSameText(s[..n], t[..n]);
      assert s == s[..n] + [s[n]] && t == t[..n] + [t[n]];
    }
  }
}
