/** Decimal numerals, and how the colon-joined keys of the services come apart again. */
module Strings {
  function Digit(d: nat): char
    requires d < 10
  {
    ['0', '1', '2', '3', '4', '5', '6', '7', '8', '9'][d]
  }

  /** Decimal digits of `n`, at least `width` of them. */
  function Padded(n: nat, width: nat): string {
    if n == 0 && width == 0 then ""
    else Padded(n / 10, if width == 0 then 0 else width - 1) + [Digit(n % 10)]
  }

  /** Numerals of one padding width differ for different numbers. */
  lemma {:induction false} PaddedInjective(m: nat, n: nat, width: nat)
    requires Padded(m, width) == Padded(n, width)
    ensures m == n
    decreases m, n, width
  {
    if (m > 0 && n > 0) || width > 0 {
      var s, t := Padded(m, width), Padded(n, width);
      var rest := if width == 0 then 0 else width - 1;
      assert s[..|s| - 1] == Padded(m / 10, rest) && s[|s| - 1] == Digit(m % 10);
      assert t[..|t| - 1] == Padded(n / 10, rest) && t[|t| - 1] == Digit(n % 10);
      PaddedInjective(m / 10, n / 10, rest);
    }
  }

  /** A colon-free prefix of a key is determined by the key. */
  lemma {:induction false} SplitAtFirstColon(a: string, rest: string, a': string, rest': string)
    requires ':' !in a && ':' !in a'
    requires a + ":" + rest == a' + ":" + rest'
    ensures a == a' && rest == rest'
  {
    var s := a + ":" + rest;
    assert s[|a|] == ':' && s[|a'|] == ':';
    assert forall k | 0 <= k < |a| :: s[k] == a[k];
    assert forall k | 0 <= k < |a'| :: s[k] == a'[k];
    assert |a| == |a'|;
    assert a == s[..|a|] && a' == s[..|a'|];
    assert rest == s[|a| + 1..] && rest' == s[|a'| + 1..];
  }

  /** A colon-free suffix of a key is determined by the key. */
  lemma SplitAtLastColon(rest: string, a: string, rest': string, a': string)
    requires ':' !in a && ':' !in a'
    requires rest + ":" + a == rest' + ":" + a'
    ensures a == a' && rest == rest'
  {
    var s := rest + ":" + a;
    assert s[|rest|] == ':' && s[|rest'|] == ':';
    assert forall k | 0 <= k < |a| :: s[|rest| + 1 + k] == a[k];
    assert forall k | 0 <= k < |a'| :: s[|rest'| + 1 + k] == a'[k];
    assert |rest| == |rest'|;
    assert a == s[|rest| + 1..] && a' == s[|rest'| + 1..];
    assert rest == s[..|rest|] && rest' == s[..|rest'|];
  }
}
