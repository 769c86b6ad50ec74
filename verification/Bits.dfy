/** Bitwise operators on naturals, and the cases of them that the limb code relies on. */
module Bits {
  import opened Arith

  function Or(x: nat, y: nat): nat
    decreases x + y
  {
    if x == 0 then y else if y == 0 then x
    else (if x % 2 == 1 || y % 2 == 1 then 1 else 0) + 2 * Or(x / 2, y / 2)
  }

  function And(x: nat, y: nat): nat
    decreases x
  {
    if x == 0 || y == 0 then 0
    else (if x % 2 == 1 && y % 2 == 1 then 1 else 0) + 2 * And(x / 2, y / 2)
  }

  function Xor(x: nat, y: nat): nat
    decreases x + y
  {
    if x == 0 then y else if y == 0 then x
    else (if x % 2 == y % 2 then 0 else 1) + 2 * Xor(x / 2, y / 2)
  }

  /** Or adds when its operands share no bit. */
  lemma {:induction false} OrDisjoint(x: nat, y: nat, k: nat)
    requires x < Pow(2, k)
    ensures Or(x, y * Pow(2, k)) == x + y * Pow(2, k)
  {
    PowPositive(2, k);
    if k > 0 && x > 0 && y > 0 {
      var p := Pow(2, k - 1);
      PowPositive(2, k - 1);
      assert y * Pow(2, k) == 2 * (y * p);
      MulMonotone(1, y, p);
      OrDisjoint(x / 2, y, k - 1);
      assert Or(x, y * Pow(2, k)) == x % 2 + 2 * Or(x / 2, y * p);
    }
  }

  lemma {:induction false} AndOnes(x: nat, k: nat)
    requires x < Pow(2, k)
    ensures And(Pow(2, k) - 1, x) == x
    ensures And(x, Pow(2, k) - 1) == x
  {
    if x > 0 {
      AndOnes(x / 2, k - 1);
      assert (Pow(2, k) - 1) / 2 == Pow(2, k - 1) - 1;
    }
  }

  /** Masking by ones keeps the low bits. */
  lemma {:induction false} AndMask(x: nat, k: nat)
    ensures Pow(2, k) > 0
    ensures And(x, Pow(2, k) - 1) == x % Pow(2, k)
    decreases k
  {
    PowPositive(2, k);
    if k == 0 {
      DivModUnique(x, x, 0, 1);
    } else {
      PowPositive(2, k - 1);
      AndMask(x / 2, k - 1);
      HalveMod(x, Pow(2, k - 1));
      AndUnfold(x, Pow(2, k) - 1);
      assert (Pow(2, k) - 1) / 2 == Pow(2, k - 1) - 1;
    }
  }

  lemma AndUnfold(x: nat, y: nat)
    ensures And(x, y) == (if x % 2 == 1 && y % 2 == 1 then 1 else 0) + 2 * And(x / 2, y / 2)
  {}

  lemma HalveMod(x: nat, p: int)
    requires p > 0
    ensures x % (2 * p) == 2 * (x / 2 % p) + x % 2
  {
    var q, r := (x / 2) / p, (x / 2) % p;
    assert x / 2 == q * p + r;
    assert q * (2 * p) == 2 * (q * p);
    DivModUnique(x, q, 2 * r + x % 2, 2 * p);
  }

  /** Exclusive or with the difference of two numbers moves one to the other. */
  lemma {:induction false} XorCancel(x: nat, y: nat)
    ensures Xor(x, Xor(x, y)) == y
    decreases x + y
  {
    if x > 0 && y > 0 {
      XorCancel(x / 2, y / 2);
      var z := Xor(x, y);
      XorUnfold(x, y);
      XorUnfold(x, z);
      assert z / 2 == Xor(x / 2, y / 2);
    } else {
      XorSelf(x);
    }
  }

  lemma {:induction false} XorCommutes(x: nat, y: nat)
    ensures Xor(x, y) == Xor(y, x)
    decreases x + y
  {
    if x > 0 && y > 0 { XorCommutes(x / 2, y / 2); }
  }

  lemma {:induction false} XorSelf(x: nat)
    ensures Xor(x, x) == 0
  {
    if x > 0 { XorSelf(x / 2); }
  }

  lemma XorUnfold(x: nat, y: nat)
    ensures Xor(x, y) == (if x % 2 == y % 2 then 0 else 1) + 2 * Xor(x / 2, y / 2)
  {}

  lemma {:induction false} XorBound(x: nat, y: nat, k: nat)
    requires x < Pow(2, k) && y < Pow(2, k)
    ensures Xor(x, y) < Pow(2, k)
  {
    if x > 0 && y > 0 { XorBound(x / 2, y / 2, k - 1); }
  }

  /** Setting bit k of a number below 2ᵏ⁺¹. */
  lemma {:induction false} OrBit(x: nat, k: nat)
    requires x < Pow(2, k + 1)
    ensures Pow(2, k) > 0 && Or(x, Pow(2, k)) == Pow(2, k) + x % Pow(2, k)
    decreases k
  {
    PowPositive(2, k);
    if k == 0 {
      assert Pow(2, 1) == 2 && x % 1 == 0;
    } else {
      OrBit(x / 2, k - 1);
      HalveMod(x, Pow(2, k - 1));
    }
  }
}
