/** Decimal rendering of integers, as Python's `str` and JavaScript's `toString` give it. */
module Texto {

  predicate EsDigito(c: char) { '0' <= c <= '9' }

  /** Whether every character of `s` is a decimal digit. */
  predicate SoloDigitos(s: string) {
    forall i :: 0 <= i < |s| ==> EsDigito(s[i])
  }

  function Digito(d: nat): (c: char)
    requires d < 10
    ensures EsDigito(c)
  {
    "0123456789"[d]
  }

  function ValorDigito(c: char): (d: nat)
    requires EsDigito(c)
    ensures d < 10
  {
    c as int - '0' as int
  }

  /** The decimal digits of `n`, most significant first, with no leading zero. */
  function NatToString(n: nat): (s: string)
    ensures |s| >= 1 && SoloDigitos(s)
    ensures s[0] == '0' ==> n == 0
  {
    if n < 10 then [Digito(n)] else NatToString(n / 10) + [Digito(n % 10)]
  }

  /** The decimal rendering of `i`, with a leading minus sign when negative. */
  function IntToString(i: int): string {
    if i < 0 then "-" + NatToString(-i) else NatToString(i)
  }

  /** The number a digit string denotes. */
  function Valor(s: string): nat
    requires SoloDigitos(s)
  {
    if s == [] then 0 else Valor(s[..|s| - 1]) * 10 + ValorDigito(s[|s| - 1])
  }

  /** Reading back the digits of `n` gives `n`. */
  lemma {:induction false} ValorNatToString(n: nat)
    ensures Valor(NatToString(n)) == n
  {
    if n >= 10 {
      ValorNatToString(n / 10);
      var s := NatToString(n);
      assert s[..|s| - 1] == NatToString(n / 10);
    }
  }

  /** `n` has at most three digits exactly when it is below 1000. */
  lemma {:induction false} LongitudNatToString(n: nat)
    ensures |NatToString(n)| <= 3 <==> n < 1000
  {
    if n >= 10 {
      LongitudNatToString(n / 10);
      if n / 10 >= 10 {
        LongitudNatToString(n / 100);
      }
    }
  }
}
