/** Single bits of natural numbers. */
module Bits {
  predicate Bit(n: nat, j: nat) {
    if j == 0 then n % 2 == 1 else Bit(n / 2, j - 1)
  }

  /** `n | (1 << j)`. */
  function WithBit(n: nat, j: nat): nat {
    if j == 0 then (if n % 2 == 1 then n else n + 1) else n % 2 + 2 * WithBit(n / 2, j - 1)
  }

  lemma {:induction false} WithBitBits(n: nat, j: nat, k: nat)
    ensures Bit(WithBit(n, j), k) <==> Bit(n, k) || k == j
  {
    if j > 0 && k > 0 {
      WithBitBits(n / 2, j - 1, k - 1);
    }
  }

  function Power2(w: nat): nat {
    if w == 0 then 1 else 2 * Power2(w - 1)
  }

  lemma PowerStep(w: nat)
    requires w > 0
    ensures Power2(w) == 2 * Power2(w - 1)
  {
  }

  /** `a | b`. */
  function Or(a: nat, b: nat): nat {
    if a == 0 && b == 0 then 0 else (if a % 2 == 1 || b % 2 == 1 then 1 else 0) + 2 * Or(a / 2, b / 2)
  }

  /** Numbers without a common bit. */
  lemma {:induction false} OrIsSum(a: nat, b: nat, w: nat)
    requires a < Power2(w)
    ensures Or(a, b * Power2(w)) == a + b * Power2(w)
  {
    hide Or, Power2;
    if w == 0 {
      OrNothing(b);
      PowerZero();
    } else {
      PowerStep(w);
      assert b * Power2(w) == 2 * (b * Power2(w - 1));
      OrIsSum(a / 2, b, w - 1);
      OrStep(a, b * Power2(w));
    }
  }

  lemma PowerZero()
    ensures Power2(0) == 1
  {
  }

  lemma OrStep(a: nat, b: nat)
    ensures Or(a, b) == (if a % 2 == 1 || b % 2 == 1 then 1 else 0) + 2 * Or(a / 2, b / 2)
  {
  }

  lemma {:induction false} OrNothing(b: nat)
    ensures Or(0, b) == b == Or(b, 0)
  {
    if b > 0 {
      OrNothing(b / 2);
    }
  }
}
