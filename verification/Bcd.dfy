/** Packed BCD arithmetic on 32 bit words (src/bcd.h): what the three bit
    tricks compute, digit by digit. */
module Bcd {
  import opened Bits

  function AddBcd(a: nat, b: nat): nat
    requires a < WORD && b < WORD
  {
    var a1 := (a + 0x06666666) % WORD;
    var t := (a1 + b) % WORD;
    var b1 := Xor(b, Xor(a1, t));
    XorWord(a1, t);
    XorWord(b, Xor(a1, t));
    var b2 := And(Not(b1), 0x11111110) / 8;
    (t - Or(b2, b2 * 2)) % WORD
  }

  predicate IsBcd(bcd: nat)
    requires bcd < WORD
  {
    And(Xor((bcd + 0x06666666) % WORD, Xor(bcd, 0x06666666)), 0x11111110) == 0
  }

  predicate BcdDigitsGreater(bcd: nat, maximum: nat)
    requires bcd < WORD && maximum < WORD
  {
    var m := Xor(maximum, WORD - 1);
    And(Xor(Xor((bcd + m) % WORD, bcd), m), 0x11111110) != 0
  }

  // ---- Digits ---------------------------------------------------------------

  /** Digit i of a packed number, 0 is the least significant. */
  function Digit(x: nat, i: nat): nat {
    if i == 0 then x % 16 else Digit(x / 16, i - 1)
  }

  /** The n low digits are decimal. */
  predicate Decimal(x: nat, n: nat) {
    n == 0 || (x % 16 <= 9 && Decimal(x / 16, n - 1))
  }

  /** Some of the n low digits of x is greater than that digit of m. */
  predicate Greater(x: nat, m: nat, n: nat) {
    n > 0 && (x % 16 > m % 16 || Greater(x / 16, m / 16, n - 1))
  }

  lemma DigitAbove(x: nat, i: nat)
    requires i > 0
    ensures Digit(x, i) == Digit(x / 16, i - 1)
  {}

  lemma LowestDigit(x: nat)
    ensures Digit(x, 0) == x % 16
  {}

  lemma {:induction false} DecimalDigits(x: nat, n: nat)
    ensures Decimal(x, n) <==> forall i: nat :: i < n ==> Digit(x, i) <= 9
  {
    if n > 0 {
      hide Digit;
      LowestDigit(x);
      DecimalDigits(x / 16, n - 1);
      if Decimal(x, n) {
        forall i: nat | i < n ensures Digit(x, i) <= 9 {
          if i > 0 { DigitAbove(x, i); }
        }
      } else if x % 16 <= 9 {
        var j: nat :| j < n - 1 && Digit(x / 16, j) > 9;
        DigitAbove(x, j + 1);
        assert !(Digit(x, j + 1) <= 9);
      } else {
        assert !(Digit(x, 0) <= 9);
      }
    }
  }

  /** Digit i of x is greater than that of m. */
  predicate DigitGreater(x: nat, m: nat, i: nat) {
    Digit(x, i) > Digit(m, i)
  }

  lemma {:induction false} GreaterDigits(x: nat, m: nat, n: nat)
    ensures Greater(x, m, n) <==> exists i: nat :: i < n && DigitGreater(x, m, i)
  {
    if n > 0 {
      hide Digit;
      LowestDigit(x);
      LowestDigit(m);
      GreaterDigits(x / 16, m / 16, n - 1);
      if x % 16 > m % 16 {
        assert DigitGreater(x, m, 0);
      } else if Greater(x / 16, m / 16, n - 1) {
        var j: nat :| j < n - 1 && DigitGreater(x / 16, m / 16, j);
        DigitAbove(x, j + 1);
        DigitAbove(m, j + 1);
        assert DigitGreater(x, m, j + 1);
      } else {
        forall i: nat | i < n ensures !DigitGreater(x, m, i) {
          if i > 0 {
            DigitAbove(x, i);
            DigitAbove(m, i);
            assert !DigitGreater(x / 16, m / 16, i - 1);
          }
        }
      }
    }
  }

  // ---- A sum is a chain of full adders, one per digit -------------------------

  function Pow16(n: nat): nat {
    if n == 0 then 1 else 16 * Pow16(n - 1)
  }

  /** t is x + y + c without its carry q out of n digits. */
  ghost predicate IsSum(n: nat, x: nat, y: nat, c: nat, t: nat, q: nat) {
    && x < Pow16(n) && y < Pow16(n) && t < Pow16(n) && c <= 1 && q <= 1
    && x + y + c == t + q * Pow16(n)
  }

  /** The carry of the lowest digit. */
  function CarryOut(x: nat, y: nat, c: nat): nat {
    (x % 16 + y % 16 + c) / 16
  }

  lemma SumStep(n: nat, x: nat, y: nat, c: nat, t: nat, q: nat)
    requires n > 0 && IsSum(n, x, y, c, t, q)
    ensures IsSum(n - 1, x / 16, y / 16, CarryOut(x, y, c), t / 16, q)
    ensures t % 16 + 16 * CarryOut(x, y, c) == x % 16 + y % 16 + c && CarryOut(x, y, c) <= 1
  {
    var p := Pow16(n - 1);
    assert Pow16(n) == 16 * p;
    if q == 0 {
      assert x + y + c == t;
    } else {
      assert x + y + c == t + 16 * p;
    }
  }

  /** Bit 0 of the exclusive or of sum and operands is the carry coming in. */
  lemma BitStep(x: nat, y: nat, c: nat, t: nat)
    requires c <= 1 && t % 2 == (x + y + c) % 2
    ensures Xor(Xor(t, x), y) % 2 == c
    ensures Xor(Xor(t, x), y) / 2 == Xor(Xor(t / 2, x / 2), y / 2)
  {
    hide Xor;
    XorBits(t, x, y);
  }

  lemma XorDigit(x: nat, y: nat, t: nat)
    ensures Xor(Xor(t, x), y) / 16 == Xor(Xor(t / 16, x / 16), y / 16)
  {
    hide Xor;
    XorBits(t, x, y);
    XorBits(t / 2, x / 2, y / 2);
    XorBits(t / 4, x / 4, y / 4);
    XorBits(t / 8, x / 8, y / 8);
    FourBits(Xor(Xor(t, x), y));
    FourBits(t);
    FourBits(x);
    FourBits(y);
  }

  /** Bit 4 of the exclusive or of sum and operands is the carry of the lowest digit. */
  lemma CarryBit(n: nat, x: nat, y: nat, c: nat, t: nat, q: nat, k: nat)
    requires n > 0 && IsSum(n, x, y, c, t, q) && k == Xor(Xor(t, x), y)
    ensures IsSum(n - 1, x / 16, y / 16, CarryOut(x, y, c), t / 16, q)
    ensures t % 16 + 16 * CarryOut(x, y, c) == x % 16 + y % 16 + c && CarryOut(x, y, c) <= 1
    ensures k / 16 == Xor(Xor(t / 16, x / 16), y / 16)
    ensures n > 1 ==> k / 16 % 2 == CarryOut(x, y, c)
  {
    hide Xor, CarryOut, IsSum, Pow16;
    SumStep(n, x, y, c, t, q);
    XorDigit(x, y, t);
    if n > 1 {
      CarryParity(n - 1, x / 16, y / 16, CarryOut(x, y, c), t / 16, q, k / 16);
    }
  }

  lemma CarryParity(n: nat, x: nat, y: nat, c: nat, t: nat, q: nat, k: nat)
    requires n > 0 && IsSum(n, x, y, c, t, q) && k == Xor(Xor(t, x), y)
    ensures k % 2 == c
  {
    hide Xor;
    SumParity(n, x, y, c, t, q);
    BitStep(x, y, c, t);
  }

  lemma SumParity(n: nat, x: nat, y: nat, c: nat, t: nat, q: nat)
    requires n > 0 && IsSum(n, x, y, c, t, q)
    ensures t % 2 == (x + y + c) % 2
  {
    var p := Pow16(n - 1);
    assert Pow16(n) == 16 * p;
    if q == 0 {
      assert x + y + c == t;
    } else {
      SameParity(x + y + c, t, 8 * p);
    }
  }

  lemma SameParity(s: nat, t: nat, m: nat)
    requires s == t + 2 * m
    ensures s % 2 == t % 2
  {}

  /** A one in each of n digits. */
  function Ones(n: nat): nat {
    if n == 0 then 0 else 1 + 16 * Ones(n - 1)
  }

  lemma Constants()
    ensures Ones(7) == 0x1111111 && 6 * Ones(7) == 0x06666666 && 16 * Ones(7) == 0x11111110
    ensures Pow16(7) == 0x1000_0000 && Pow16(8) == WORD
  {}

  /** The carry bits of n digits, tested with a mask. */
  lemma MaskStep(k: nat, n: nat)
    requires n > 0
    ensures And(k, Ones(n)) == 0 <==> k % 2 == 0 && And(k / 16, Ones(n - 1)) == 0
  {
    AndDigit(k, Ones(n));
  }

  lemma Mask(k: nat)
    ensures And(k, 0x11111110) == 16 * And(k / 16, Ones(7))
  {
    Constants();
    AndDigit(k, 0x11111110);
  }

  // ---- What the three functions mean ---------------------------------------------

  lemma {:induction false} SixesCarry(n: nat, x: nat, t: nat, q: nat, k: nat)
    requires IsSum(n + 1, x, 6 * Ones(n), 0, t, q) && k == Xor(Xor(t, x), 6 * Ones(n))
    ensures And(k / 16, Ones(n)) == 0 <==> Decimal(x, n)
  {
    hide And, Xor, IsSum, Pow16;
    if n > 0 {
      var y := 6 * Ones(n);
      assert y / 16 == 6 * Ones(n - 1) && y % 16 == 6;
      CarryBit(n + 1, x, y, 0, t, q, k);
      MaskStep(k / 16, n);
      if CarryOut(x, y, 0) == 0 {
        SixesCarry(n - 1, x / 16, t / 16, q, k / 16);
      }
    } else {
      assert And(k / 16, 0) == 0 by { AndNothing(k / 16); }
    }
  }

  lemma WordSum(x: nat, y: nat) returns (q: nat)
    requires x < WORD && y < WORD
    ensures IsSum(8, x, y, 0, (x + y) % WORD, q)
  {
    Constants();
    q := (x + y) / WORD;
  }

  /** The test is exact for the seven low digits and blind to the top one. */
  lemma IsBcdIff(x: nat)
    requires x < WORD
    ensures IsBcd(x) <==> forall i: nat :: i < 7 ==> Digit(x, i) <= 9
  {
    hide And, Xor, Ones;
    var six := 0x06666666;
    var t := (x + six) % WORD;
    Constants();
    var q := WordSum(x, six);
    XorAssociates(t, x, six);
    Mask(Xor(t, Xor(x, six)));
    SixesCarry(7, x, t, q, Xor(t, Xor(x, six)));
    DecimalDigits(x, 7);
  }

  lemma {:induction false} GreaterCarry(n: nat, x: nat, m: nat, y: nat, t: nat, q: nat, k: nat)
    requires y + m == Pow16(n + 1) - 1 && IsSum(n + 1, x, y, 0, t, q) && k == Xor(Xor(t, x), y)
    ensures And(k / 16, Ones(n)) != 0 <==> Greater(x, m, n)
  {
    hide And, Xor, IsSum, Pow16;
    if n > 0 {
      ComplementStep(n, m, y);
      CarryBit(n + 1, x, y, 0, t, q, k);
      MaskStep(k / 16, n);
      if CarryOut(x, y, 0) == 0 {
        GreaterCarry(n - 1, x / 16, m / 16, y / 16, t / 16, q, k / 16);
      }
    } else {
      AndNothing(k / 16);
    }
  }

  lemma ComplementStep(n: nat, m: nat, y: nat)
    requires y + m == Pow16(n + 1) - 1
    ensures y % 16 == 15 - m % 16 && y / 16 + m / 16 == Pow16(n) - 1
  {
    var p := Pow16(n);
    assert Pow16(n + 1) == 16 * p;
    hide Pow16;
    assert y == 16 * (p - 1 - m / 16) + (15 - m % 16);
  }

  /** The inverted word is the complement. */
  lemma Complement(m: nat) returns (y: nat)
    requires m < WORD
    ensures y == Xor(m, WORD - 1) && y < WORD && y + m == Pow16(8) - 1
  {
    hide Xor;
    Constants();
    WordPow2();
    XorOnes(m, 32);
    y := WORD - 1 - m;
  }

  lemma GreaterTest(x: nat, m: nat)
    requires x < WORD && m < WORD
    ensures BcdDigitsGreater(x, m) <==> Greater(x, m, 7)
  {
    hide And, Xor, Ones, Pow16, Greater, IsSum;
    var y := Complement(m);
    var t := (x + y) % WORD;
    var q := WordSum(x, y);
    var k := Xor(Xor(t, x), y);
    Constants();
    Mask(k);
    GreaterCarry(7, x, m, y, t, q, k);
  }

  /** The comparison is exact for the seven low digits, although every digit
      sees the carry of its lower neighbours. The top digit is not compared. */
  lemma BcdDigitsGreaterIff(x: nat, m: nat)
    requires x < WORD && m < WORD
    ensures BcdDigitsGreater(x, m) <==> exists i: nat :: i < 7 && DigitGreater(x, m, i)
  {
    hide Greater, DigitGreater, BcdDigitsGreater;
    GreaterTest(x, m);
    GreaterDigits(x, m, 7);
  }

  /** The decimal number in the n low digits. */
  function Value(x: nat, n: nat): nat {
    if n == 0 then 0 else x % 16 + 10 * Value(x / 16, n - 1)
  }

  /** x without its n low digits. */
  function Top(x: nat, n: nat): nat {
    if n == 0 then x else Top(x / 16, n - 1)
  }

  function Pow10(n: nat): nat {
    if n == 0 then 1 else 10 * Pow10(n - 1)
  }

  lemma {:induction false} SixesFit(n: nat, a: nat)
    requires Decimal(a, n) && a < Pow16(n + 1)
    ensures a + 6 * Ones(n) < Pow16(n + 1)
  {
    if n > 0 {
      SixesFit(n - 1, a / 16);
    }
  }

  /** The lowest digit of a decimal addition, and the operands of the next one. */
  ghost predicate DigitAdded(n: nat, a: nat, b: nat, c: nat, t: nat, q: nat, k: nat, u: nat, c1: nat)
    requires n > 0
  {
    && c1 <= 1 && t % 16 + 16 * c1 == a % 16 + 6 + b % 16 + c && u % 16 == 1 - c1
    && IsSum(n, a / 16 + 6 * Ones(n - 1), b / 16, c1, t / 16, q)
    && k / 16 == Xor(Xor(t / 16, a / 16 + 6 * Ones(n - 1)), b / 16)
    && k / 16 / 16 < Pow16(n - 1) && u / 16 == And(Pow16(n - 1) - 1 - k / 16 / 16, Ones(n - 1))
  }

  lemma DigitStep(n: nat, a: nat, b: nat, c: nat, t: nat, q: nat, k: nat, u: nat) returns (c1: nat)
    requires n > 0 && a % 16 <= 9 && c <= 1
    requires IsSum(n + 1, a + 6 * Ones(n), b, c, t, q) && k == Xor(Xor(t, a + 6 * Ones(n)), b)
    requires k / 16 < Pow16(n) && u == And(Pow16(n) - 1 - k / 16, Ones(n))
    ensures DigitAdded(n, a, b, c, t, q, k, u, c1)
  {
    hide And, Xor, IsSum, CarryOut, Ones, Pow16;
    var a1 := a + 6 * Ones(n);
    var v := Pow16(n) - 1 - k / 16;
    c1 := CarryOut(a1, b, c);
    CarryBit(n + 1, a1, b, c, t, q, k);
    AddSix(a, n, a1);
    AndDigit(v, Ones(n));
    OnesDigit(n);
    NotStep(n, k / 16, v);
  }

  lemma OnesDigit(n: nat)
    requires n > 0
    ensures Ones(n) % 16 == 1 && Ones(n) / 16 == Ones(n - 1)
  {}

  /** r is the decimal sum of n digits, cy its carry, which goes into the digit above. */
  ghost predicate Added(n: nat, a: nat, b: nat, c: nat, r: int, cy: nat) {
    && r >= 0 && Decimal(r, n) && cy <= 1
    && Value(r, n) + cy * Pow10(n) == Value(a, n) + Value(b, n) + c
    && Top(r, n) == (Top(a, n) + Top(b, n) + cy) % 16
  }

  lemma AddStep(n: nat, a: nat, b: nat, c: nat, t: nat, q: nat, k: nat, u: nat, c1: nat, cy: nat)
    requires n > 0 && a % 16 <= 9 && b % 16 <= 9 && c <= 1 && DigitAdded(n, a, b, c, t, q, k, u, c1)
    requires Added(n - 1, a / 16, b / 16, c1, t / 16 - 6 * (u / 16), cy)
    ensures Added(n, a, b, c, t - 6 * u, cy)
  {
    hide And, Xor, IsSum, Value, Pow16, Ones, Decimal, Top, Pow10;
    var r := t - 6 * u;
    assert t % 16 >= 6 * (u % 16);
    DigitOfResult(t, u, r);
    TenDigit(n, a, b, c, c1, t, u, r, cy);
    DecimalStep(r, n);
    TopStep(r, n);
    TopStep(a, n);
    TopStep(b, n);
  }

  /** Decimal addition with carry, one digit after the other. u has a one in
      each digit which does not carry, where the six has to be taken back. */
  lemma {:induction false} AddDigits(n: nat, a: nat, b: nat, c: nat, t: nat, q: nat, k: nat, u: nat)
      returns (cy: nat)
    requires Decimal(a, n) && Decimal(b, n) && c <= 1
    requires IsSum(n + 1, a + 6 * Ones(n), b, c, t, q) && k == Xor(Xor(t, a + 6 * Ones(n)), b)
    requires k / 16 < Pow16(n) && u == And(Pow16(n) - 1 - k / 16, Ones(n))
    ensures Added(n, a, b, c, t - 6 * u, cy)
  {
    hide And, Xor, IsSum, Value, Pow16, Ones, Decimal, Top, Pow10, Added;
    if n == 0 {
      AddNoDigits(a, b, c, t, q, k, u);
      cy := c;
    } else {
      DecimalStep(a, n);
      DecimalStep(b, n);
      var c1 := DigitStep(n, a, b, c, t, q, k, u);
      cy := AddDigits(n - 1, a / 16, b / 16, c1, t / 16, q, k / 16, u / 16);
      AddStep(n, a, b, c, t, q, k, u, c1, cy);
    }
  }

  lemma DecimalStep(x: nat, n: nat)
    requires n > 0
    ensures Decimal(x, n) <==> x % 16 <= 9 && Decimal(x / 16, n - 1)
  {}

  lemma TopStep(x: nat, n: nat)
    requires n > 0
    ensures Top(x, n) == Top(x / 16, n - 1)
  {}

  lemma AddNoDigits(a: nat, b: nat, c: nat, t: nat, q: nat, k: nat, u: nat)
    requires c <= 1 && IsSum(1, a + 6 * Ones(0), b, c, t, q) && k / 16 < Pow16(0)
    requires u == And(Pow16(0) - 1 - k / 16, Ones(0))
    ensures Added(0, a, b, c, t - 6 * u, c)
  {
    hide And, IsSum;
    AndNothing(Pow16(0) - 1 - k / 16);
    OneDigit(a, b, c, t, q);
  }

  lemma AddSix(a: nat, n: nat, a1: nat)
    requires n > 0 && a % 16 <= 9 && a1 == a + 6 * Ones(n)
    ensures a1 % 16 == a % 16 + 6 && a1 / 16 == a / 16 + 6 * Ones(n - 1)
  {}

  lemma TenTimes(c: nat, p: nat)
    ensures c * (10 * p) == 10 * (c * p)
  {}

  lemma ValueStep(x: nat, n: nat)
    requires n > 0
    ensures Value(x, n) == x % 16 + 10 * Value(x / 16, n - 1)
  {}

  lemma TenDigit(n: nat, a: nat, b: nat, c: nat, c1: nat, t: nat, u: nat, r: nat, cy: nat)
    requires n > 0 && c1 <= 1 && u % 16 == 1 - c1
    requires t % 16 + 16 * c1 == a % 16 + 6 + b % 16 + c && r % 16 == t % 16 - 6 * (u % 16)
    requires a % 16 <= 9 && b % 16 <= 9 && c <= 1
    requires Value(r / 16, n - 1) + cy * Pow10(n - 1) == Value(a / 16, n - 1) + Value(b / 16, n - 1) + c1
    ensures r % 16 <= 9
    ensures Value(r, n) + cy * Pow10(n) == Value(a, n) + Value(b, n) + c
  {
    assert r % 16 + 10 * c1 == a % 16 + b % 16 + c && r % 16 <= 9;
    TenTimes(cy, Pow10(n - 1));
    assert Pow10(n) == 10 * Pow10(n - 1);
    ValueStep(r, n);
    ValueStep(a, n);
    ValueStep(b, n);
    hide Value, Pow10;
    TenSum(Value(r / 16, n - 1), cy * Pow10(n - 1), Value(a / 16, n - 1), Value(b / 16, n - 1), c1, r % 16, a % 16,
      b % 16, c);
  }

  lemma TenSum(v: nat, p: nat, a: nat, b: nat, c1: nat, r0: nat, a0: nat, b0: nat, c: nat)
    requires v + p == a + b + c1 && r0 + 10 * c1 == a0 + b0 + c
    ensures r0 + 10 * v + 10 * p == a0 + 10 * a + (b0 + 10 * b) + c
  {}

  lemma OneDigit(x: nat, y: nat, c: nat, t: nat, q: nat)
    requires IsSum(1, x, y, c, t, q)
    ensures t == (x + y + c) % 16
  {
    assert Pow16(1) == 16;
    if q == 0 {
      assert x + y + c == t;
    } else {
      assert x + y + c == t + 16;
    }
  }

  lemma NotStep(n: nat, k: nat, v: nat)
    requires n > 0 && k < Pow16(n) && v == Pow16(n) - 1 - k
    ensures v % 2 == 1 - k % 2 && v / 16 == Pow16(n - 1) - 1 - k / 16 && k / 16 < Pow16(n - 1)
  {
    var p := Pow16(n - 1);
    assert Pow16(n) == 16 * p;
  }

  lemma DigitOfResult(t: nat, u: nat, r: int)
    requires r == t - 6 * u && t % 16 >= 6 * (u % 16) && t / 16 >= 6 * (u / 16)
    ensures r >= 0 && r % 16 == t % 16 - 6 * (u % 16) && r / 16 == t / 16 - 6 * (u / 16)
  {
    assert r == 16 * (t / 16 - 6 * (u / 16)) + (t % 16 - 6 * (u % 16));
  }

  lemma {:induction false} OrSixes(n: nat, v: nat)
    ensures var u := And(v, Ones(n)); Or(2 * u, 4 * u) == 6 * u
    decreases n
  {
    hide And, Or;
    var u := And(v, Ones(n));
    if n == 0 {
      AndNothing(v);
      OrNothing();
    } else {
      AndDigit(v, Ones(n));
      OrSixes(n - 1, v / 16);
      assert 2 * u / 16 == 2 * (u / 16) && 4 * u / 16 == 4 * (u / 16);
      OrDigit(2 * u, 4 * u);
    }
  }

  lemma OrNothing()
    ensures Or(0, 0) == 0
  {}

  /** A number in 10's complement: seven decimal digits below a sign digit 0 or 15. */
  predicate Signed(x: nat) {
    Decimal(x, 7) && (Top(x, 7) == 0 || Top(x, 7) == 15)
  }

  function SignedValue(x: nat): int {
    Value(x, 7) - if Top(x, 7) == 0 then 0 else 10_000_000
  }

  lemma {:induction false} ValueRange(x: nat, n: nat)
    requires Decimal(x, n)
    ensures Value(x, n) < Pow10(n)
  {
    if n > 0 { ValueRange(x / 16, n - 1); }
  }

  /** AddBcd adds numbers in 10's complement whenever their sum fits seven
      digits and a sign; otherwise its result is not such a number. */
  lemma AddBcdIsAddition(a: nat, b: nat)
    requires a < WORD && b < WORD && Signed(a) && Signed(b)
    ensures Signed(AddBcd(a, b)) <==> -10_000_000 <= SignedValue(a) + SignedValue(b) < 10_000_000
    ensures Signed(AddBcd(a, b)) ==> SignedValue(AddBcd(a, b)) == SignedValue(a) + SignedValue(b)
  {
    hide And, Or, Xor, Ones, Decimal, Value, Top, Pow10, IsSum;
    var cy := AddBcdDigits(a, b);
    ValueRange(a, 7);
    ValueRange(b, 7);
    ValueRange(AddBcd(a, b), 7);
    TenMillion();
  }

  lemma TenMillion()
    ensures Pow10(7) == 10_000_000
  {}

  lemma AddBcdDigits(a: nat, b: nat) returns (cy: nat)
    requires a < WORD && b < WORD && Decimal(a, 7) && Decimal(b, 7)
    ensures var r := AddBcd(a, b);
      && Decimal(r, 7) && cy <= 1
      && Value(r, 7) + cy * Pow10(7) == Value(a, 7) + Value(b, 7)
      && Top(r, 7) == (Top(a, 7) + Top(b, 7) + cy) % 16
  {
    hide And, Or, Xor, Ones, Decimal, Value, Top, Pow10, IsSum;
    var a1 := (a + 0x06666666) % WORD;
    var t := (a1 + b) % WORD;
    var k := Xor(b, Xor(a1, t));
    Constants();
    SixesFit(7, a);
    XorWord(a1, t);
    XorWord(b, Xor(a1, t));
    XorCommutes(b, Xor(a1, t));
    XorCommutes(a1, t);
    var q := WordSum(a1, b);
    var v := Pow16(7) - 1 - k / 16;
    var u := And(v, Ones(7));
    Mask(Not(k));
    assert Not(k) / 16 == v;
    OrSixes(7, v);
    cy := AddDigits(7, a, b, 0, t, q, k, u);
  }
}
