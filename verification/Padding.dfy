/** Strings in lexicographic order, and numbers padded with zeros. */
module Padding {
  import opened Decimal

  predicate Less(a: string, b: string) {
    b != [] && (a == [] || a[0] < b[0] || (a[0] == b[0] && Less(a[1..], b[1..])))
  }

  lemma {:induction false} LessConcat(p: string, r: string, q: string, s: string)
    requires |p| == |q| && (Less(p, q) || (p == q && Less(r, s)))
    ensures Less(p + r, q + s)
  {
    if p == [] {
      assert p + r == r && q + s == s;
    } else {
      assert (p + r)[1..] == p[1..] + r && (q + s)[1..] == q[1..] + s;
      if p[0] == q[0] {
        LessConcat(p[1..], r, q[1..], s);
      }
    }
  }

  lemma {:induction false} LessIrreflexive(a: string, b: string)
    requires Less(a, b)
    ensures a != b && !Less(b, a)
  {
    if a != [] && a[0] == b[0] {
      LessIrreflexive(a[1..], b[1..]);
    }
  }

  function Zeros(n: nat): (s: string)
    ensures |s| == n && AllDigits(s)
  {
    if n == 0 then [] else ['0'] + Zeros(n - 1)
  }

  /** `{n:0w}`: at least `w` digits, filled with zeros in front. */
  function Pad(n: nat, w: nat): (s: string)
    ensures AllDigits(s) && |s| >= w
  {
    var s := Show(n);
    if |s| >= w then s else Zeros(w - |s|) + s
  }

  function Pow10(w: nat): nat {
    if w == 0 then 1 else 10 * Pow10(w - 1)
  }

  /** The last `w` digits. */
  function Digits(n: nat, w: nat): (s: string)
    ensures |s| == w
  {
    if w == 0 then [] else Digits(n / 10, w - 1) + [Digit(n % 10)]
  }

  lemma {:induction false} ZerosSnoc(n: nat)
    ensures Zeros(n + 1) == Zeros(n) + ['0']
  {
    if n > 0 { ZerosSnoc(n - 1); }
  }

  lemma {:induction false} ZeroDigits(w: nat)
    ensures Digits(0, w) == Zeros(w)
  {
    if w > 0 {
      ZeroDigits(w - 1);
      ZerosSnoc(w - 1);
    }
  }

  lemma {:induction false} PadIsDigits(n: nat, w: nat)
    requires w > 0 && n < Pow10(w)
    ensures Pad(n, w) == Digits(n, w)
  {
    if n < 10 {
      ZeroDigits(w - 1);
      assert Show(n) == [Digit(n)] && Digits(n, w) == Digits(0, w - 1) + [Digit(n)];
    } else {
      assert w > 1;
      PadIsDigits(n / 10, w - 1);
      var z, s := Zeros(w - |Show(n)|), Show(n / 10);
      assert Show(n) == s + [Digit(n % 10)];
      assert z + (s + [Digit(n % 10)]) == (z + s) + [Digit(n % 10)];
    }
  }

  lemma {:induction false} DigitsOrder(m: nat, n: nat, w: nat)
    requires m < n < Pow10(w)
    ensures Less(Digits(m, w), Digits(n, w))
  {
    if m / 10 < n / 10 {
      DigitsOrder(m / 10, n / 10, w - 1);
    } else {
      assert m / 10 == n / 10 && m % 10 < n % 10;
    }
    LessConcat(Digits(m / 10, w - 1), [Digit(m % 10)], Digits(n / 10, w - 1), [Digit(n % 10)]);
  }

  /** Numbers of at most `w` digits are ordered like their padded forms. */
  lemma PadOrder(m: nat, n: nat, w: nat)
    requires w > 0 && m < n < Pow10(w)
    ensures |Pad(m, w)| == |Pad(n, w)| == w && Less(Pad(m, w), Pad(n, w))
  {
    PadIsDigits(m, w);
    PadIsDigits(n, w);
    DigitsOrder(m, n, w);
  }

  lemma {:induction false} ReadZeros(n: nat, s: string)
    requires AllDigits(s)
    ensures AllDigits(Zeros(n) + s) && Read(Zeros(n) + s) == Read(s)
  {
    if s == [] {
      assert Zeros(n) + s == Zeros(n);
      if n > 0 {
        ZerosSnoc(n - 1);
        ReadZeros(n - 1, []);
        assert Zeros(n - 1) + [] == Zeros(n - 1) == Zeros(n)[..n - 1];
      }
    } else {
      var k := |s| - 1;
      ReadZeros(n, s[..k]);
      assert (Zeros(n) + s)[..n + k] == Zeros(n) + s[..k];
      assert |Zeros(n) + s| - 1 == n + k;
    }
  }

  /** A padded number reads back. */
  lemma ReadPad(n: nat, w: nat)
    ensures Read(Pad(n, w)) == n
  {
    ReadShow(n);
    hide Read, Show, Zeros;
    if |Show(n)| < w {
      ReadZeros(w - |Show(n)|, Show(n));
    }
  }
}
