/** Decimal numerals as text: printing, zero-filling, reading back, and the order of strings. */
module Decimals {
  function Digit(d: nat): char
    requires d < 10
  {
    '0' + d as char
  }

  function DigitValue(c: char): nat {
    if '0' <= c <= '9' then (c as int) - ('0' as int) else 0
  }

  function Str(n: nat): (s: string)
    ensures s != ""
  {
    if n < 10 then [Digit(n)] else Str(n / 10) + [Digit(n % 10)]
  }

  // str.zfill, and the `:0wd` of a format string.
  function ZFill(s: string, w: nat): string {
    if |s| >= w then s else ['0'] + ZFill(s, w - 1)
  }

  predicate AllDigits(s: string) {
    forall i | 0 <= i < |s| :: '0' <= s[i] <= '9'
  }

  function Parse(s: string): nat {
    if s == "" then 0 else 10 * Parse(s[..|s| - 1]) + DigitValue(s[|s| - 1])
  }

  lemma {:induction false} StrParses(n: nat)
    ensures AllDigits(Str(n)) && Parse(Str(n)) == n
  {
    if n >= 10 {
      StrParses(n / 10);
      assert Str(n)[..|Str(n)| - 1] == Str(n / 10);
    } else {
      assert Str(n)[..0] == "";
    }
  }

  lemma {:induction false} LeadingZero(s: string)
    ensures Parse(['0'] + s) == Parse(s)
  {
    var t := ['0'] + s;
    if s == "" {
      assert t[..0] == "";
    } else {
      assert t[..|t| - 1] == ['0'] + s[..|s| - 1];
      LeadingZero(s[..|s| - 1]);
    }
  }

  lemma {:induction false} ZFillParses(s: string, w: nat)
    requires AllDigits(s)
    ensures AllDigits(ZFill(s, w)) && Parse(ZFill(s, w)) == Parse(s)
    ensures |ZFill(s, w)| == if |s| < w then w else |s|
  {
    if |s| < w {
      var t := ZFill(s, w - 1);
      ZFillParses(s, w - 1);
      LeadingZero(t);
      assert ZFill(s, w) == ['0'] + t;
      assert forall i | 1 <= i <= |t| :: (['0'] + t)[i] == t[i - 1];
    }
  }

  // Printing to a width and reading back is lossless, whether or not the width is exceeded.
  lemma PaddedRoundTrip(n: nat, w: nat)
    ensures AllDigits(ZFill(Str(n), w)) && Parse(ZFill(Str(n), w)) == n
  {
    StrParses(n);
    ZFillParses(Str(n), w);
  }

  lemma StrOfFive(n: nat)
    ensures n < 100000 ==> |Str(n)| <= 5
    ensures 100000 <= n < 1000000 ==> |Str(n)| == 6
  {
    assert n < 10 ==> |Str(n)| == 1;
    assert 10 <= n ==> |Str(n)| == |Str(n / 10)| + 1;
    assert 10 <= n / 10 ==> |Str(n / 10)| == |Str(n / 10 / 10)| + 1;
    assert 10 <= n / 10 / 10 ==> |Str(n / 10 / 10)| == |Str(n / 10 / 10 / 10)| + 1;
    assert 10 <= n / 10 / 10 / 10 ==> |Str(n / 10 / 10 / 10)| == |Str(n / 10 / 10 / 10 / 10)| + 1;
    var m := n / 10 / 10 / 10 / 10;
    assert 10 <= m ==> |Str(m)| == |Str(m / 10)| + 1;
  }

  // ---- the order of strings --------------------------------------------------------------------

  predicate Less(a: string, b: string) {
    b != "" && (a == "" || a[0] < b[0] || (a[0] == b[0] && Less(a[1..], b[1..])))
  }

  lemma {:induction false} LessIsIrreflexive(a: string)
    ensures !Less(a, a)
  {
    if a != "" { LessIsIrreflexive(a[1..]); }
  }

  lemma {:induction false} LessAfterPrefix(p: string, a: string, b: string)
    ensures Less(p + a, p + b) <==> Less(a, b)
  {
    if p == "" {
      assert p + a == a && p + b == b;
    } else {
      assert (p + a)[1..] == p[1..] + a && (p + b)[1..] == p[1..] + b;
      LessAfterPrefix(p[1..], a, b);
    }
  }

  // Strings of one length differ first at their last letter, or before it.
  lemma {:induction false} LessByLast(a: string, b: string)
    requires |a| == |b| > 0
    ensures var x, y := a[..|a| - 1], b[..|b| - 1];
            Less(a, b) <==> Less(x, y) || (x == y && a[|a| - 1] < b[|b| - 1])
  {
    if |a| > 1 {
      var x, y := a[..|a| - 1], b[..|b| - 1];
      assert a[1..][..|a| - 2] == x[1..] && b[1..][..|b| - 2] == y[1..];
      assert x == [a[0]] + x[1..] && y == [b[0]] + y[1..];
      LessByLast(a[1..], b[1..]);
    }
  }

  // Among numerals of one width the order of strings is the order of numbers.
  lemma {:induction false} SameWidthOrder(a: string, b: string)
    requires |a| == |b| && AllDigits(a) && AllDigits(b)
    ensures Less(a, b) <==> Parse(a) < Parse(b)
    ensures Parse(a) == Parse(b) ==> a == b
  {
    if a != "" {
      var x, y := a[..|a| - 1], b[..|b| - 1];
      SameWidthOrder(x, y);
      LessByLast(a, b);
      if x == y { LessIsIrreflexive(x); }
      assert a == x + [a[|a| - 1]] && b == y + [b[|b| - 1]];
    }
  }
}
