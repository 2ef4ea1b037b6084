/**
 * Decimal digit strings, `String(n)`, `padStart` and JavaScript's ordering of
 * strings.  The calendar compares `yyyy-MM-dd` and `HH:mm` strings with `<`,
 * `<=` and `===`; the lemmas here say when that ordering is numeric ordering.
 */
module Text {

  predicate IsDigit(c: char) { '0' <= c <= '9' }

  predicate IsDigits(s: string) { forall i :: 0 <= i < |s| ==> IsDigit(s[i]) }

  function DigitValue(c: char): (v: nat)
    requires IsDigit(c)
    ensures v < 10
  {
    c as int - '0' as int
  }

  function DigitChar(v: nat): (c: char)
    requires v < 10
    ensures IsDigit(c) && DigitValue(c) == v
  {
    ('0' as int + v) as char
  }

  function Pow10(n: nat): (r: nat)
    ensures r >= 1
  {
    if n == 0 then 1 else 10 * Pow10(n - 1)
  }

  lemma MulLeft(a: nat, b: nat, p: nat)
    requires a <= b
    ensures a * p <= b * p
  {
  }

  /** The number a string of decimal digits denotes; leading zeros are allowed. */
  function Value(s: string): (v: nat)
    requires IsDigits(s)
    ensures v < Pow10(|s|)
  {
    if |s| == 0 then 0
    else
      var p := Pow10(|s| - 1);
      DigitBound(DigitValue(s[0]), p, Value(s[1..]));
      DigitValue(s[0]) * p + Value(s[1..])
  }

  /** A leading digit d in front of a tail below p stays below ten p. */
  lemma DigitBound(d: nat, p: nat, v: nat)
    requires d < 10 && v < p
    ensures d * p + v < 10 * p
  {
    MulLeft(d + 1, 10, p);
    assert (d + 1) * p == d * p + p;
  }

  lemma SnocArithmetic(d: nat, p: nat, v: nat, c: nat)
    ensures d * (10 * p) + (v * 10 + c) == (d * p + v) * 10 + c
  {
  }

  lemma {:induction false} ValueSnoc(s: string, c: char)
    requires IsDigits(s) && IsDigit(c)
    ensures IsDigits(s + [c])
    ensures Value(s + [c]) == Value(s) * 10 + DigitValue(c)
  {
    var t := s + [c];
    assert IsDigits(t) by {
      forall i | 0 <= i < |t| ensures IsDigit(t[i]) {
        if i < |s| { assert t[i] == s[i]; }
      }
    }
    if |s| > 0 {
      assert t[1..] == s[1..] + [c];
      ValueSnoc(s[1..], c);
      SnocArithmetic(DigitValue(s[0]), Pow10(|s| - 1), Value(s[1..]), DigitValue(c));
    }
  }

  /** `String(n)` for a non-negative integer: its decimal digits without leading zeros. */
  function NatToString(n: nat): (s: string)
    ensures IsDigits(s) && 1 <= |s|
    ensures Value(s) == n
    ensures |s| > 1 ==> s[0] != '0'
    decreases n
  {
    if n < 10 then [DigitChar(n)]
    else
      var s := NatToString(n / 10);
      ValueSnoc(s, DigitChar(n % 10));
      s + [DigitChar(n % 10)]
  }

  /** The shortest decimal form of `n` fits in `w` characters when `n < 10^w`. */
  lemma {:induction false} NatToStringFits(n: nat, w: nat)
    requires 1 <= w && n < Pow10(w)
    ensures |NatToString(n)| <= w
    decreases n
  {
    if n >= 10 {
      assert w >= 2;
      assert n / 10 < Pow10(w - 1);
      NatToStringFits(n / 10, w - 1);
    }
  }

  /** JavaScript's `s.padStart(width, fill)`. */
  function PadStart(s: string, width: nat, fill: char): (r: string)
    ensures |r| == if |s| >= width then |s| else width
  {
    if |s| >= width then s else seq(width - |s|, _ => fill) + s
  }

  /** `String(n).padStart(width, '0')`, also what date-fns `format` does for `yyyy`, `MM`, `dd`, `HH`, `mm`. */
  function Fixed(n: nat, width: nat): string
  {
    PadStart(NatToString(n), width, '0')
  }

  lemma {:induction false} ValueLeadingZeros(s: string, k: nat)
    requires IsDigits(s)
    requires k <= |s| && forall i :: 0 <= i < k ==> s[i] == '0'
    ensures Value(s) == Value(s[k..])
    decreases k
  {
    if k > 0 {
      assert s[1..][k - 1..] == s[k..];
      ValueLeadingZeros(s[1..], k - 1);
    }
  }

  /** Padding with zeros never changes the number a digit string denotes. */
  lemma FixedValue(n: nat, w: nat)
    ensures IsDigits(Fixed(n, w)) && Value(Fixed(n, w)) == n
  {
    var s := NatToString(n);
    var r := Fixed(n, w);
    if |s| < w {
      assert r == seq(w - |s|, _ => '0') + s;
      assert r[w - |s|..] == s;
      assert IsDigits(r) by {
        forall i | 0 <= i < |r| ensures IsDigit(r[i]) {
          if i >= w - |s| { assert r[i] == s[i - (w - |s|)]; }
        }
      }
      ValueLeadingZeros(r, w - |s|);
    }
  }

  /** Zero-padded numbers of one width are equal only when the numbers are. */
  lemma FixedInjective(n: nat, m: nat, w: nat)
    requires Fixed(n, w) == Fixed(m, w)
    ensures n == m
  {
    FixedValue(n, w);
    FixedValue(m, w);
  }

  /** A number below `10^w` written in exactly `w` digits, and read back. */
  lemma FixedDigits(n: nat, w: nat)
    requires 1 <= w && n < Pow10(w)
    ensures |Fixed(n, w)| == w && IsDigits(Fixed(n, w))
    ensures Value(Fixed(n, w)) == n
  {
    NatToStringFits(n, w);
    FixedValue(n, w);
  }

  /** JavaScript's `a < b` on strings: the first differing character decides, a proper prefix is smaller. */
  predicate LexLess(a: string, b: string)
  {
    if |a| == 0 then |b| > 0
    else if |b| == 0 then false
    else a[0] < b[0] || (a[0] == b[0] && LexLess(a[1..], b[1..]))
  }

  lemma {:induction false} LexLessIrreflexive(a: string)
    ensures !LexLess(a, a)
  {
    if |a| > 0 { LexLessIrreflexive(a[1..]); }
  }

  /** A common-length head decides the comparison unless the heads are equal. */
  lemma {:induction false} LexLessAppend(a1: string, a2: string, b1: string, b2: string)
    requires |a1| == |b1|
    ensures LexLess(a1 + a2, b1 + b2) <==> LexLess(a1, b1) || (a1 == b1 && LexLess(a2, b2))
  {
    if |a1| > 0 {
      assert (a1 + a2)[1..] == a1[1..] + a2;
      assert (b1 + b2)[1..] == b1[1..] + b2;
      LexLessAppend(a1[1..], a2, b1[1..], b2);
      if a1[0] == b1[0] && a1[1..] == b1[1..] {
        assert a1 == [a1[0]] + a1[1..] && b1 == [b1[0]] + b1[1..];
      }
      if a1 == b1 { LexLessIrreflexive(a1); }
    } else {
      assert a1 + a2 == a2 && b1 + b2 == b2;
      LexLessIrreflexive(a1);
    }
  }

  /** A smaller leading digit makes a smaller number, whatever follows it. */
  lemma LeadingDigitDecides(d: nat, e: nat, p: nat, vs: nat, vt: nat)
    requires d < e && vs < p && vt < p
    ensures d * p + vs < e * p + vt
  {
    MulLeft(d + 1, e, p);
  }

  /** A digit string's value is its leading digit's place value plus the value of the rest. */
  lemma ValueHead(s: string)
    requires IsDigits(s) && |s| > 0
    ensures IsDigits(s[1..])
    ensures Value(s) == DigitValue(s[0]) * Pow10(|s| - 1) + Value(s[1..])
  {
  }

  /** Numbers with a leading digit and a tail below p compare by digit, then by tail. */
  lemma DigitOrder(d: nat, e: nat, p: nat, vs: nat, vt: nat)
    requires vs < p && vt < p
    ensures d * p + vs < e * p + vt <==> d < e || (d == e && vs < vt)
  {
    if d < e {
      LeadingDigitDecides(d, e, p, vs, vt);
    } else if e < d {
      LeadingDigitDecides(e, d, p, vt, vs);
    }
  }

  /** On digit strings of one length, string order is numeric order. */
  lemma {:induction false} LexLessDigits(s: string, t: string)
    requires IsDigits(s) && IsDigits(t) && |s| == |t|
    ensures LexLess(s, t) <==> Value(s) < Value(t)
  {
    if |s| > 0 {
      ValueHead(s);
      ValueHead(t);
      DigitOrder(DigitValue(s[0]), DigitValue(t[0]), Pow10(|s| - 1), Value(s[1..]), Value(t[1..]));
      if s[0] == t[0] {
        LexLessDigits(s[1..], t[1..]);
      }
    }
  }

  /** Digit strings of one length that denote the same number are the same string. */
  lemma DigitsInjective(s: string, t: string)
    requires IsDigits(s) && IsDigits(t) && |s| == |t|
    requires Value(s) == Value(t)
    ensures s == t
  {
    if s != t {
      var k :| 0 <= k < |s| && s[k] != t[k];
      LexTotal(s, t);
      LexLessDigits(s, t);
      LexLessDigits(t, s);
    }
  }

  lemma {:induction false} LexTotal(s: string, t: string)
    requires |s| == |t| && s != t
    ensures LexLess(s, t) || LexLess(t, s)
  {
    if s[0] == t[0] {
      assert s == [s[0]] + s[1..] && t == [t[0]] + t[1..];
      LexTotal(s[1..], t[1..]);
    }
  }

  /** Re-padding the number a fixed-width digit string denotes gives the string back. */
  lemma FixedOfValue(s: string)
    requires IsDigits(s) && 1 <= |s|
    ensures Fixed(Value(s), |s|) == s
  {
    FixedDigits(Value(s), |s|);
    DigitsInjective(Fixed(Value(s), |s|), s);
  }
}
