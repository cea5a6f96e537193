/** Decimal numerals, and text compared character by character. */
module Text {

  predicate Digit(c: char) {
    '0' <= c <= '9'
  }

  predicate Digits(s: string) {
    forall i :: 0 <= i < |s| ==> Digit(s[i])
  }

  /** Characters compared left to right, a proper prefix first. */
  predicate Before(a: string, b: string) {
    if a == "" then b != ""
    else b != "" && (a[0] < b[0] || (a[0] == b[0] && Before(a[1..], b[1..])))
  }

  function Value(s: string): nat
    requires Digits(s)
  {
    if s == "" then 0 else 10 * Value(s[..|s| - 1]) + (s[|s| - 1] - '0') as nat
  }

  function Decimal(n: nat): (s: string)
    ensures s != "" && Digits(s)
  {
    var d := [('0' as int + n % 10) as char];
    if n < 10 then d else Decimal(n / 10) + d
  }

  predicate Canonical(s: string) {
    s != "" && Digits(s) && (s[0] == '0' ==> |s| == 1)
  }

  lemma {:induction false} DecimalRoundTrip(n: nat)
    ensures Canonical(Decimal(n)) && Value(Decimal(n)) == n && (n > 0 ==> Decimal(n)[0] != '0')
  {
    if n >= 10 {
      DecimalRoundTrip(n / 10);
      assert Decimal(n)[..|Decimal(n)| - 1] == Decimal(n / 10);
    }
  }

  function Power10(k: nat): (p: nat)
    ensures p > 0
  {
    if k == 0 then 1 else 10 * Power10(k - 1)
  }

  lemma {:induction false} ValueBounds(s: string)
    requires Digits(s)
    ensures Value(s) < Power10(|s|)
    ensures s != "" && s[0] != '0' ==> Power10(|s| - 1) <= Value(s)
  {
    if s != "" {
      ValueBounds(s[..|s| - 1]);
    }
  }

  lemma {:induction false} Power10Grows(j: nat, k: nat)
    requires j <= k
    ensures Power10(j) <= Power10(k)
    decreases k
  {
    if j < k {
      Power10Grows(j, k - 1);
    }
  }

  lemma {:induction false} ValueFront(s: string)
    requires Digits(s) && s != ""
    ensures Value(s) == (s[0] - '0') as nat * Power10(|s| - 1) + Value(s[1..])
  {
    if |s| == 1 {
      assert s[1..] == "" && s[..0] == "";
    } else {
      var init := s[..|s| - 1];
      ValueFront(init);
      assert s[1..][..|s| - 2] == init[1..];
      assert init[0] == s[0];
      TenTimes((s[0] - '0') as nat, Power10(|s| - 2), Value(init[1..]));
    }
  }

  lemma TenTimes(c: nat, p: nat, v: nat)
    ensures 10 * (c * p + v) == c * (10 * p) + 10 * v
  {
  }

  lemma {:induction false} SameLengthOrder(a: string, b: string)
    requires Digits(a) && Digits(b) && |a| == |b|
    ensures Before(a, b) <==> Value(a) < Value(b)
    ensures a == b <==> Value(a) == Value(b)
  {
    if a != "" {
      var x, u, y, v := (a[0] - '0') as nat, a[1..], (b[0] - '0') as nat, b[1..];
      assert Value(a) == x * Power10(|u|) + Value(u) by { ValueFront(a); }
      assert Value(b) == y * Power10(|u|) + Value(v) by { ValueFront(b); }
      ValueBounds(u);
      ValueBounds(v);
      LeadingDigitDecides(x, Value(u), y, Value(v), Power10(|u|));
      SameLengthOrder(u, v);
      assert a == [a[0]] + u && b == [b[0]] + v;
    }
  }

  lemma LeadingDigitDecides(x: nat, u: nat, y: nat, v: nat, p: nat)
    requires u < p && v < p
    ensures x * p + u < y * p + v <==> x < y || (x == y && u < v)
    ensures x * p + u == y * p + v <==> x == y && u == v
  {
    if x < y {
      ScaleGap(x, y, p);
    } else if y < x {
      ScaleGap(y, x, p);
    }
  }

  lemma ScaleGap(x: nat, y: nat, p: nat)
    requires x < y
    ensures x * p + p <= y * p
  {
    assert y * p == (x + 1) * p + (y - x - 1) * p;
  }

  lemma LongerIsLarger(a: string, b: string)
    requires Canonical(a) && Canonical(b) && |a| < |b|
    ensures Value(a) < Value(b)
  {
    ValueBounds(a);
    ValueBounds(b);
    Power10Grows(|a|, |b| - 1);
  }

  function Strip(s: string): string {
    if |s| > 1 && s[0] == '0' then Strip(s[1..]) else s
  }

  lemma {:induction false} StripKeepsValue(s: string)
    requires Digits(s) && s != ""
    ensures Canonical(Strip(s)) && Value(Strip(s)) == Value(s) && |Strip(s)| <= |s|
    ensures !Canonical(s) ==> |Strip(s)| < |s|
  {
    if |s| > 1 && s[0] == '0' {
      ValueFront(s);
      StripKeepsValue(s[1..]);
    }
  }

  lemma {:induction false} BeforeTotal(a: string, b: string)
    ensures (Before(a, b) || Before(b, a)) <==> a != b
    ensures !(Before(a, b) && Before(b, a))
  {
    if a != "" && b != "" {
      BeforeTotal(a[1..], b[1..]);
      assert a == [a[0]] + a[1..] && b == [b[0]] + b[1..];
    }
  }

  lemma {:induction false} BeforeTransitive(a: string, b: string, c: string)
    requires Before(a, b) && Before(b, c)
    ensures Before(a, c)
  {
    if a != "" && a[0] == b[0] == c[0] {
      BeforeTransitive(a[1..], b[1..], c[1..]);
    }
  }
}
