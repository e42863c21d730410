/** Unsigned words as natural numbers, with the bitwise operators of C defined
    on their binary digits. */
module Bits {

  const WORD := 0x1_0000_0000

  function Xor(x: nat, y: nat): nat {
    if x == 0 && y == 0 then 0 else (x % 2 + y % 2) % 2 + 2 * Xor(x / 2, y / 2)
  }

  function And(x: nat, y: nat): nat {
    if x == 0 && y == 0 then 0 else (if x % 2 == 1 && y % 2 == 1 then 1 else 0) + 2 * And(x / 2, y / 2)
  }

  function Or(x: nat, y: nat): nat {
    if x == 0 && y == 0 then 0 else (if x % 2 == 1 || y % 2 == 1 then 1 else 0) + 2 * Or(x / 2, y / 2)
  }

  /** The complement of a 32 bit word. */
  function Not(x: nat): nat
    requires x < WORD
  {
    WORD - 1 - x
  }

  lemma ScaledApart(k: nat, p: nat, q: nat)
    requires p < q
    ensures k * q >= k * p + k
  {
    assert k * q == k * p + k * (q - p) && k * (q - p) == k + k * (q - p - 1);
  }

  /** The quotient and the remainder of v are q and r. */
  lemma QuotientIs(v: nat, k: nat, q: nat, r: nat)
    requires r < k && v == k * q + r
    ensures v / k == q && v % k == r
  {
    var p := v / k;
    assert v == k * p + v % k && 0 <= v % k < k;
    if p < q {
      ScaledApart(k, p, q);
    } else if q < p {
      ScaledApart(k, q, p);
    }
  }

  lemma BitIs(v: nat, bit: nat, half: nat)
    requires bit <= 1 && v == bit + 2 * half
    ensures v % 2 == bit && v / 2 == half
  {}

  lemma XorIs(x: nat, y: nat)
    ensures Xor(x, y) == (x % 2 + y % 2) % 2 + 2 * Xor(x / 2, y / 2)
  {}

  lemma XorStep(x: nat, y: nat)
    ensures Xor(x, y) % 2 == (x % 2 + y % 2) % 2 && Xor(x, y) / 2 == Xor(x / 2, y / 2)
  {
    XorIs(x, y);
    hide Xor;
    BitIs(Xor(x, y), (x % 2 + y % 2) % 2, Xor(x / 2, y / 2));
  }

  lemma AndIs(x: nat, y: nat)
    ensures And(x, y) == (if x % 2 == 1 && y % 2 == 1 then 1 else 0) + 2 * And(x / 2, y / 2)
  {}

  lemma AndStep(x: nat, y: nat)
    ensures And(x, y) % 2 == (if x % 2 == 1 && y % 2 == 1 then 1 else 0) && And(x, y) / 2 == And(x / 2, y / 2)
  {
    AndIs(x, y);
    hide And;
    BitIs(And(x, y), if x % 2 == 1 && y % 2 == 1 then 1 else 0, And(x / 2, y / 2));
  }

  lemma {:induction false} XorBound(x: nat, y: nat, n: nat)
    requires x < Pow2(n) && y < Pow2(n)
    ensures Xor(x, y) < Pow2(n)
  {
    if n > 0 { XorBound(x / 2, y / 2, n - 1); }
  }

  function Pow2(n: nat): nat {
    if n == 0 then 1 else 2 * Pow2(n - 1)
  }

  lemma WordPow2()
    ensures Pow2(32) == WORD
  {
    assert Pow2(4) == 0x10;
    assert Pow2(8) == 0x100;
    assert Pow2(12) == 0x1000;
    assert Pow2(16) == 0x1_0000;
    assert Pow2(20) == 0x10_0000;
    assert Pow2(24) == 0x100_0000;
    assert Pow2(28) == 0x1000_0000;
  }

  lemma XorWord(x: nat, y: nat)
    requires x < WORD && y < WORD
    ensures Xor(x, y) < WORD
  {
    WordPow2();
    XorBound(x, y, 32);
  }

  lemma {:induction false} XorCommutes(x: nat, y: nat)
    ensures Xor(x, y) == Xor(y, x)
  {
    if x != 0 || y != 0 { XorCommutes(x / 2, y / 2); }
  }

  lemma {:induction false} XorAssociates(x: nat, y: nat, z: nat)
    ensures Xor(Xor(x, y), z) == Xor(x, Xor(y, z))
  {
    if x != 0 || y != 0 || z != 0 {
      XorAssociates(x / 2, y / 2, z / 2);
      XorBits(x, y, z);
    }
  }

  lemma XorBits(x: nat, y: nat, z: nat)
    ensures Xor(Xor(x, y), z) / 2 == Xor(Xor(x / 2, y / 2), z / 2)
      && Xor(Xor(x, y), z) % 2 == (x % 2 + y % 2 + z % 2) % 2
    ensures Xor(x, Xor(y, z)) / 2 == Xor(x / 2, Xor(y / 2, z / 2))
      && Xor(x, Xor(y, z)) % 2 == (x % 2 + y % 2 + z % 2) % 2
  {
    hide Xor;
    XorStep(x, y);
    XorStep(y, z);
    XorStep(Xor(x, y), z);
    XorStep(x, Xor(y, z));
  }

  lemma OrIs(x: nat, y: nat)
    ensures Or(x, y) == (if x % 2 == 1 || y % 2 == 1 then 1 else 0) + 2 * Or(x / 2, y / 2)
  {}

  lemma OrStep(x: nat, y: nat)
    ensures Or(x, y) % 2 == (if x % 2 == 1 || y % 2 == 1 then 1 else 0) && Or(x, y) / 2 == Or(x / 2, y / 2)
  {
    OrIs(x, y);
    hide Or;
    BitIs(Or(x, y), if x % 2 == 1 || y % 2 == 1 then 1 else 0, Or(x / 2, y / 2));
  }

  lemma {:induction false} XorOnes(x: nat, n: nat)
    requires x < Pow2(n)
    ensures Xor(x, Pow2(n) - 1) == Pow2(n) - 1 - x
  {
    hide Xor;
    if n > 0 {
      var m := Pow2(n) - 1;
      assert m % 2 == 1 && m / 2 == Pow2(n - 1) - 1;
      XorOnes(x / 2, n - 1);
      XorStep(x, m);
    } else {
      XorZero(x);
    }
  }

  lemma {:induction false} XorZero(x: nat)
    ensures Xor(x, 0) == x
  {
    if x != 0 { XorZero(x / 2); }
  }

  lemma AndDigit(x: nat, y: nat)
    requires y % 16 <= 1
    ensures And(x, y) / 16 == And(x / 16, y / 16) && And(x, y) % 16 == if y % 16 == 1 then x % 2 else 0
  {
    hide And;
    AndStep(x, y);
    AndStep(x / 2, y / 2);
    AndStep(x / 4, y / 4);
    AndStep(x / 8, y / 8);
    FourBits(And(x, y));
    FourBits(x);
    FourBits(y);
  }

  lemma OrDigit(x: nat, y: nat)
    requires (x % 16 == 2 && y % 16 == 4) || (x % 16 == 0 && y % 16 == 0)
    ensures Or(x, y) / 16 == Or(x / 16, y / 16) && Or(x, y) % 16 == x % 16 + y % 16
  {
    hide Or;
    OrStep(x, y);
    OrStep(x / 2, y / 2);
    OrStep(x / 4, y / 4);
    OrStep(x / 8, y / 8);
    FourBits(Or(x, y));
    FourBits(x);
    FourBits(y);
  }

  lemma FourBits(v: nat)
    ensures v % 16 == v % 2 + 2 * (v / 2 % 2) + 4 * (v / 4 % 2) + 8 * (v / 8 % 2)
    ensures v / 2 / 2 == v / 4 && v / 4 / 2 == v / 8 && v / 8 / 2 == v / 16
  {
    var h := v / 2;
    var q := h / 2;
    var e := q / 2;
    var s := e / 2;
    assert v == 2 * h + v % 2 && h == 2 * q + h % 2 && q == 2 * e + q % 2 && e == 2 * s + e % 2;
    QuotientIs(v, 4, q, v % 2 + 2 * (h % 2));
    QuotientIs(v, 8, e, v % 2 + 2 * (h % 2) + 4 * (q % 2));
    QuotientIs(v, 16, s, v % 2 + 2 * (h % 2) + 4 * (q % 2) + 8 * (e % 2));
  }

  lemma {:induction false} AndNothing(x: nat)
    ensures And(x, 0) == 0
  {
    if x != 0 { AndNothing(x / 2); }
  }
}
