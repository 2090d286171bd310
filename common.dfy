/** Small value-level helpers shared by the modules of the model. */
module Common {

  datatype Option<T> = None | Some(value: T)

  /** The elements of `s` that satisfy `p`, in their original order (JavaScript's `filter`). */
  function Filter<T>(s: seq<T>, p: T -> bool): (r: seq<T>)
    ensures |r| <= |s|
    ensures forall x :: x in r ==> x in s && p(x)
    ensures forall x :: x in s && p(x) ==> x in r
  {
    if |s| == 0 then []
    else if p(s[0]) then [s[0]] + Filter(s[1..], p)
    else Filter(s[1..], p)
  }

  lemma {:induction false} FilterAppend<T>(a: seq<T>, b: seq<T>, p: T -> bool)
    ensures Filter(a + b, p) == Filter(a, p) + Filter(b, p)
  {
    if |a| == 0 {
      assert a + b == b;
    } else {
      assert (a + b)[1..] == a[1..] + b;
      FilterAppend(a[1..], b, p);
    }
  }

  lemma {:induction false} FilterNone<T>(s: seq<T>, p: T -> bool)
    requires forall x :: x in s ==> !p(x)
    ensures Filter(s, p) == []
  {
    if |s| > 0 {
      assert s[0] in s;
      FilterNone(s[1..], p);
    }
  }

  lemma {:induction false} FilterSingle<T>(s: seq<T>, p: T -> bool, k: int)
    requires 0 <= k < |s| && p(s[k])
    requires forall j :: 0 <= j < |s| && j != k ==> !p(s[j])
    ensures Filter(s, p) == [s[k]]
  {
    if k == 0 {
      forall x | x in s[1..] ensures !p(x) {
        var j :| 0 <= j < |s[1..]| && s[1..][j] == x;
        assert s[j + 1] == x;
      }
      FilterNone(s[1..], p);
    } else {
      FilterSingle(s[1..], p, k - 1);
    }
  }

  /** The largest element of a non-empty list (JavaScript's `Math.max(...xs)`). */
  function MaxOf(xs: seq<int>): (m: int)
    requires |xs| > 0
    ensures m in xs
    ensures forall x :: x in xs ==> x <= m
  {
    if |xs| == 1 then xs[0]
    else
      var rest := MaxOf(xs[1..]);
      assert forall x :: x in xs ==> x == xs[0] || x in xs[1..];
      if xs[0] >= rest then xs[0] else rest
  }

  predicate IsDigit(c: char) { '0' <= c <= '9' }

  predicate AllDigits(s: string) { forall i :: 0 <= i < |s| ==> IsDigit(s[i]) }

  /** The decimal value of a string of ASCII digits; the empty string is 0, as for `Number("")`. */
  function DigitsValue(s: string): (n: nat)
    requires AllDigits(s)
  {
    if |s| == 0 then 0
    else 10 * DigitsValue(s[..|s| - 1]) + (s[|s| - 1] - '0') as nat
  }

  /** The shortest decimal form of `n`, as JavaScript prints a non-negative integer. */
  function NatToString(n: nat): (s: string)
    ensures |s| > 0 && AllDigits(s)
    ensures DigitsValue(s) == n
    ensures n > 0 ==> s[0] != '0'
  {
    if n < 10 then ["0123456789"[n]]
    else
      var s := NatToString(n / 10) + ["0123456789"[n % 10]];
      assert s[..|s| - 1] == NatToString(n / 10);
      s
  }

  /** An integer as a template literal prints it. */
  function IntText(n: int): (s: string)
    ensures n >= 0 ==> s == NatToString(n)
    ensures n < 0 ==> s == "-" + NatToString(-n)
  {
    if n >= 0 then NatToString(n) else "-" + NatToString(-n)
  }

  /** Distinct integers print differently. */
  lemma IntTextIsInjective(m: int, n: int)
    requires IntText(m) == IntText(n)
    ensures m == n
  {
    assert IntText(m)[0] == '-' <==> m < 0;
    assert IntText(n)[0] == '-' <==> n < 0;
    if m < 0 {
      assert NatToString(-m) == IntText(m)[1..] == IntText(n)[1..] == NatToString(-n);
    }
  }
}
