/**
 Types and functions shared by all parts of the model.
 */
module Basics {

  type byte = x: int | 0 <= x < 256

  datatype Option<+T> = None | Some(value: T)

  const TWO_256 := 0x1_0000_0000_0000_0000_0000_0000_0000_0000_0000_0000_0000_0000_0000_0000_0000_0000

  function Min(a: int, b: int): int {
    if a < b then a else b
  }

  function Abs(n: int): nat {
    if n < 0 then -n else n
  }

  // --- whole quotients

  function Quotient(x: nat, d: nat): nat
    requires d > 0
  {
    x / d
  }

  lemma Divided(x: nat, d: nat)
    requires d > 0
    ensures Quotient(x, d) * d <= x < (Quotient(x, d) + 1) * d
  {}

  lemma Times(a: nat, b: nat, c: nat, d: nat)
    ensures a <= b && c <= d ==> a * c <= b * d
  {
    if a <= b && c <= d {
      assert a * c <= a * d <= b * d;
    }
  }

  lemma QuotientsOrdered(x: nat, d: nat, e: nat)
    requires 0 < d <= e
    ensures Quotient(x, e) <= Quotient(x, d)
  {
    hide Quotient;
    Divided(x, d);
    Divided(x, e);
    var p, q := Quotient(x, d), Quotient(x, e);
    Times(p + 1, q, d, e);
  }

  lemma DividedByMore(x: nat, d: nat, e: nat)
    requires 0 < d <= e
    ensures x / e <= x / d
  {
    QuotientsOrdered(x, d, e);
  }
}
