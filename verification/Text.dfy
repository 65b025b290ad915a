/** Character classes and decimal printing shared by the glossary modules. */
module Text {

  /** The class [a-z0-9] of the glossary's regular expressions. */
  predicate Alnum(c: char) {
    'a' <= c <= 'z' || '0' <= c <= '9'
  }

  predicate Letter(c: char) {
    'a' <= c <= 'z'
  }

  predicate AllAlnum(s: string) {
    forall c :: c in s ==> Alnum(c)
  }

  predicate StartsAlnum(s: string) {
    s != "" && Alnum(s[0])
  }

  predicate EndsAlnum(s: string) {
    s != "" && Alnum(s[|s| - 1])
  }

  /** The longest [a-z0-9]* prefix. */
  function Run(s: string): (r: string)
    ensures r <= s && AllAlnum(r) && !StartsAlnum(s[|r|..])
  {
    if StartsAlnum(s) then [s[0]] + Run(s[1..]) else ""
  }

  lemma {:induction false} RunUnique(w: string, rest: string)
    requires AllAlnum(w) && !StartsAlnum(rest)
    ensures Run(w + rest) == w
  {
    if w == "" {
      assert w + rest == rest;
    } else {
      assert (w + rest)[1..] == w[1..] + rest;
      RunUnique(w[1..], rest);
    }
  }

  function Digit(d: nat): (c: char)
    requires d < 10
    ensures '0' <= c <= '9'
  {
    '0' + d as char
  }

  /** Decimal digits of n, as string concatenation with a number prints them. */
  function Digits(n: nat): (s: string)
    ensures s != "" && AllAlnum(s)
  {
    if n < 10 then [Digit(n)] else Digits(n / 10) + [Digit(n % 10)]
  }

  lemma {:induction false} DigitsInjective(m: nat, n: nat)
    requires Digits(m) == Digits(n)
    ensures m == n
  {
    if m >= 10 && n >= 10 {
      var a, b := Digits(m), Digits(n);
      assert a[..|a| - 1] == Digits(m / 10) && b[..|b| - 1] == Digits(n / 10);
      assert a[|a| - 1] == Digit(m % 10) && b[|b| - 1] == Digit(n % 10);
      DigitsInjective(m / 10, n / 10);
    }
  }

  lemma {:induction false} DigitsMonotone(m: nat, n: nat)
    requires m <= n
    ensures |Digits(m)| <= |Digits(n)|
  {
    if m >= 10 {
      DigitsMonotone(m / 10, n / 10);
    }
  }

  lemma SmallerSubset(a: set<string>, b: set<string>)
    requires a <= b
    ensures |a| <= |b|
  {
    assert b == a + (b - a);
  }
}
