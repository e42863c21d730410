/** The CRC of MPEG-2 sections (mpeg2_crc in contrib/atsc-cc.c): a table driven loop
    which computes the remainder of a division of polynomials over GF(2). */
module Crc {
  import opened Bits

  type Byte = b: nat | b < 0x100

  /** The generator polynomial without and with its leading term. */
  const POLY := 0x04C11DB7
  const GENERATOR := WORD + POLY
  const TOP := 0x8000_0000

  // ---- The code ---------------------------------------------------------------------

  /** One step of the loop which fills the table. */
  function Step(c: nat): nat {
    if c >= TOP then Xor(2 * c % WORD, POLY) else 2 * c
  }

  function Steps(c: nat, n: nat): nat
    decreases n
  {
    if n == 0 then c else Steps(Step(c), n - 1)
  }

  function Entry(i: nat): nat {
    Steps(i * 0x100_0000, 8)
  }

  /** The register after one more byte. */
  function Feed(crc: nat, b: Byte): nat {
    Xor(Entry(And(Xor(b, crc / 0x100_0000), 0xFF)), crc * 0x100 % WORD)
  }

  function Register(msg: seq<Byte>): nat {
    if msg == [] then WORD - 1 else Feed(Register(msg[..|msg| - 1]), msg[|msg| - 1])
  }

  class Calculator {
    const table: array<nat>

    /** The table is filled when it is first used. */
    ghost predicate Valid()
      reads table
    {
      table.Length == 256 && (table[255] == 0 || forall i :: 0 <= i < 256 ==> table[i] == Entry(i))
    }

    constructor ()
      ensures Valid() && fresh(table)
    {
      table := new nat[256](_ => 0);
    }

    /** mpeg2_crc. */
    method Mpeg2Crc(buf: seq<Byte>) returns (crc: nat)
      requires Valid()
      modifies table
      ensures Valid() && crc == Register(buf)
    {
      hide Xor, And, Step;
      if table[255] == 0 {
        for i := 0 to 256
          invariant forall j :: 0 <= j < i ==> table[j] == Entry(j)
        {
          var c: nat := i * 0x100_0000;
          for j := 0 to 8
            invariant Steps(c, 8 - j) == Entry(i)
            modifies {}
          {
            StepsOne(c, 8 - j);
            StepIs(c);
            c := if c >= TOP then Xor(2 * c % WORD, POLY) else 2 * c;
          }
          StepsNone(c);
          table[i] := c;
        }
        EntryNotZero(255);
        assert table[255] != 0;
      }
      crc := WORD - 1;
      for i := 0 to |buf|
        invariant crc == Register(buf[..i]) < WORD
        modifies {}
      {
        IndexIs(buf[i], crc);
        FeedIs(crc, buf[i]);
        crc := Xor(table[And(Xor(buf[i], crc / 0x100_0000), 0xFF)], crc * 0x100 % WORD);
        assert buf[..i + 1][..i] == buf[..i];
      }
      assert buf[..|buf|] == buf;
    }
  }

  lemma StepsOne(c: nat, n: nat)
    requires n > 0
    ensures Steps(c, n) == Steps(Step(c), n - 1) && Step(c) == if c >= TOP then Xor(2 * c % WORD, POLY) else 2 * c
  {}

  lemma StepsNone(c: nat)
    ensures Steps(c, 0) == c
  {}

  // ---- Words in two parts ---------------------------------------------------------

  /** The exclusive or works on the two parts of words on their own. */
  lemma {:induction false} XorSplit(k: nat, a: nat, b: nat, c: nat, d: nat)
    requires b < Pow2(k) && d < Pow2(k)
    ensures Xor(a * Pow2(k) + b, c * Pow2(k) + d) == Xor(a, c) * Pow2(k) + Xor(b, d) && Xor(b, d) < Pow2(k)
  {
    hide Xor;
    if k == 0 {
      XorZero(0);
    } else {
      var p := Pow2(k - 1);
      Double(a, p, b);
      Double(c, p, d);
      XorSplit(k - 1, a, b / 2, c, d / 2);
      XorStep(a * Pow2(k) + b, c * Pow2(k) + d);
      XorStep(b, d);
      Double(Xor(a, c), p, Xor(b, d));
    }
  }

  lemma Double(a: nat, p: nat, b: nat)
    ensures (a * (2 * p) + b) / 2 == a * p + b / 2 && (a * (2 * p) + b) % 2 == b % 2
  {
    assert a * (2 * p) == 2 * (a * p);
  }

  lemma {:induction false} XorSelf(x: nat)
    ensures Xor(x, x) == 0
  {
    if x != 0 { XorSelf(x / 2); }
  }

  lemma XorSwap(a: nat, b: nat, c: nat, d: nat)
    ensures Xor(Xor(a, b), Xor(c, d)) == Xor(Xor(a, c), Xor(b, d))
  {
    hide Xor;
    XorAssociates(a, b, Xor(c, d));
    XorAssociates(b, c, d);
    XorCommutes(b, c);
    XorAssociates(c, b, d);
    XorAssociates(a, c, Xor(b, d));
  }

  lemma XorTimes(k: nat, a: nat, c: nat)
    ensures Xor(a * Pow2(k), c * Pow2(k)) == Xor(a, c) * Pow2(k)
  {
    hide Xor;
    Pow2Positive(k);
    XorSplit(k, a, 0, c, 0);
    XorZero(0);
  }

  lemma {:induction false} Pow2Positive(k: nat)
    ensures Pow2(k) > 0
  {
    if k > 0 { Pow2Positive(k - 1); }
  }

  /** A word of two parts is their exclusive or. */
  lemma XorParts(k: nat, a: nat, b: nat)
    requires b < Pow2(k)
    ensures Xor(a * Pow2(k), b) == a * Pow2(k) + b
  {
    hide Xor;
    XorSplit(k, a, 0, 0, b);
    XorZero(a);
    XorZero(b);
    XorCommutes(0, b);
  }

  lemma Powers()
    ensures Pow2(0) == 1 && Pow2(1) == 2 && Pow2(8) == 0x100 && Pow2(24) == 0x100_0000 && Pow2(31) == TOP
      && Pow2(32) == WORD
  {
    WordPow2();
    assert Pow2(8) == 0x100;
    assert Pow2(12) == 0x1000;
    assert Pow2(16) == 0x1_0000;
    assert Pow2(20) == 0x10_0000;
    assert Pow2(24) == 0x100_0000;
    assert Pow2(28) == 0x1000_0000;
  }

  lemma {:induction false} AndAll(x: nat, n: nat)
    requires x < Pow2(n)
    ensures And(x, Pow2(n) - 1) == x
  {
    hide And;
    if n == 0 {
      AndZero();
    } else {
      DoubledPow2(n);
      Pow2Positive(n - 1);
      hide Pow2;
      var m := Pow2(n) - 1;
      assert m % 2 == 1 && m / 2 == Pow2(n - 1) - 1;
      AndAll(x / 2, n - 1);
      AndStep(x, m);
      assert And(x, m) / 2 == x / 2 && And(x, m) % 2 == x % 2;
    }
  }

  lemma AndZero()
    ensures And(0, 0) == 0
  {}

  lemma IndexIs(b: Byte, crc: nat)
    requires crc < WORD
    ensures And(Xor(b, crc / 0x100_0000), 0xFF) == Xor(b, crc / 0x100_0000) < 256
  {
    hide And, Xor;
    Powers();
    XorBound(b, crc / 0x100_0000, 8);
    AndAll(Xor(b, crc / 0x100_0000), 8);
  }

  // ---- Steps are linear ----------------------------------------------------------------

  /** A step shifts the register and takes the generator away from what is too big. */
  lemma StepIs(c: nat)
    ensures Step(c) == (if c >= TOP then Xor(2 * c % WORD, POLY) else 2 * c)
    ensures c < WORD ==> Step(c) < WORD && Step(c) == Xor(2 * c, if c >= TOP then GENERATOR else 0)
  {
    hide Xor;
    Powers();
    XorZero(2 * c);
    if TOP <= c < WORD {
      XorWord(2 * c - WORD, POLY);
      XorSplit(32, 1, 2 * c - WORD, 1, POLY);
      XorSelf(1);
    }
  }

  lemma StepLinear(x: nat, y: nat)
    requires x < WORD && y < WORD
    ensures Xor(x, y) < WORD && Step(Xor(x, y)) == Xor(Step(x), Step(y))
  {
    hide Xor, Step;
    Powers();
    XorWord(x, y);
    StepIs(x);
    StepIs(y);
    StepIs(Xor(x, y));
    var gx, gy := if x >= TOP then GENERATOR else 0, if y >= TOP then GENERATOR else 0;
    XorSwap(2 * x, gx, 2 * y, gy);
    XorTimes(1, x, y);
    XorSelf(GENERATOR);
    XorZero(GENERATOR);
    XorZero(0);
    XorCommutes(0, GENERATOR);
    TopBit(x, y);
  }

  lemma TopBit(x: nat, y: nat)
    requires x < WORD && y < WORD
    ensures Xor(x, y) >= TOP <==> (x >= TOP) != (y >= TOP)
  {
    hide Xor, Pow2;
    Powers();
    var a, b, c, d := x / TOP, x % TOP, y / TOP, y % TOP;
    assert x == a * TOP + b && y == c * TOP + d && a <= 1 && c <= 1;
    XorSplit(31, a, b, c, d);
    XorSelf(1);
    XorZero(0);
    XorZero(1);
    XorCommutes(0, 1);
    assert Xor(x, y) == Xor(a, c) * TOP + Xor(b, d) && Xor(a, c) == if a == c then 0 else 1;
  }

  lemma {:induction false} StepsLinear(x: nat, y: nat, n: nat)
    requires x < WORD && y < WORD
    ensures Steps(Xor(x, y), n) == Xor(Steps(x, n), Steps(y, n)) && Steps(x, n) < WORD
    decreases n
  {
    hide Xor, Step;
    if n > 0 {
      StepLinear(x, y);
      StepIs(x);
      StepIs(y);
      StepsLinear(Step(x), Step(y), n - 1);
    }
  }

  /** As long as no bit leaves the register it is only shifted. */
  lemma {:induction false} StepsLow(x: nat, n: nat)
    requires n <= 32 && x < Pow2(32 - n)
    ensures Steps(x, n) == x * Pow2(n)
    decreases n
  {
    hide Xor, Pow2;
    if n > 0 {
      LowDoubled(x, n);
      StepsLow(2 * x, n - 1);
      TwiceMoved(x, Pow2(n - 1));
    } else {
      Powers();
    }
  }

  lemma LowDoubled(x: nat, n: nat)
    requires 0 < n <= 32 && x < Pow2(32 - n)
    ensures x < TOP && 2 * x < Pow2(32 - (n - 1)) && Pow2(n) == 2 * Pow2(n - 1)
  {
    Powers();
    Pow2Grows(32 - n, 31);
    assert Pow2(32 - (n - 1)) == 2 * Pow2(32 - n);
  }

  lemma TwiceMoved(x: nat, p: nat)
    ensures 2 * x * p == x * (2 * p)
  {}

  lemma {:induction false} Pow2Grows(a: nat, b: nat)
    requires a <= b
    ensures Pow2(a) <= Pow2(b)
  {
    if a < b { Pow2Grows(a, b - 1); }
  }

  lemma {:induction false} StepsNotZero(x: nat, n: nat)
    requires 0 < x < WORD
    ensures 0 < Steps(x, n) < WORD
    decreases n
  {
    hide Xor, Step;
    if n > 0 {
      StepIs(x);
      if x >= TOP { XorStep(2 * x % WORD, POLY); }
      StepsNotZero(Step(x), n - 1);
    }
  }

  /** The assertion after the filling of the table. */
  lemma EntryNotZero(i: nat)
    requires 0 < i < 256
    ensures Entry(i) != 0
  {
    StepsNotZero(i * 0x100_0000, 8);
  }

  /** One look into the table does the same as eight steps with the byte added. */
  lemma FeedIs(crc: nat, b: Byte)
    requires crc < WORD
    ensures Feed(crc, b) == Steps(Xor(crc, b * 0x100_0000), 8) < WORD
  {
    hide Xor, And, Steps, Step;
    Powers();
    var h, low := crc / 0x100_0000, crc % 0x100_0000;
    IndexIs(b, crc);
    XorSplit(24, h, low, b, 0);
    XorZero(low);
    XorCommutes(b, h);
    var i := Xor(h, b);
    XorParts(24, i, low);
    StepsLinear(i * 0x100_0000, low, 8);
    StepsLow(low, 8);
    assert crc * 0x100 % WORD == low * 0x100;
    StepsLinear(Xor(crc, b * 0x100_0000), 0, 8) by { XorWord(crc, b * 0x100_0000); }
  }

  lemma {:induction false} RegisterWord(msg: seq<Byte>)
    ensures Register(msg) < WORD
  {
    hide Feed;
    if msg != [] {
      RegisterWord(msg[..|msg| - 1]);
      FeedIs(Register(msg[..|msg| - 1]), msg[|msg| - 1]);
    }
  }

  // ---- The code word -------------------------------------------------------------------

  /** The four bytes of a word, the most significant first. */
  function BigEndian(w: nat): seq<Byte>
    requires w < WORD
  {
    [w / 0x100_0000, w / 0x1_0000 % 0x100, w / 0x100 % 0x100, w % 0x100]
  }

  /** A byte equal to the top of the register shifts it out. */
  lemma FeedTop(crc: nat)
    requires crc < WORD
    ensures Feed(crc, crc / 0x100_0000) == crc % 0x100_0000 * 0x100
  {
    hide Feed, Xor, Steps;
    Powers();
    var h, low := crc / 0x100_0000, crc % 0x100_0000;
    FeedIs(crc, h);
    XorSplit(24, h, low, h, 0);
    XorSelf(h);
    XorZero(low);
    StepsLow(low, 8);
  }

  lemma Shifted(r: nat)
    requires r < WORD
    ensures var r1 := r % 0x100_0000 * 0x100;
      r1 / 0x100_0000 == r / 0x1_0000 % 0x100 && r1 % 0x100_0000 == r % 0x1_0000 * 0x100
    ensures var r2 := r % 0x1_0000 * 0x1_0000;
      r2 / 0x100_0000 == r / 0x100 % 0x100 && r2 % 0x100_0000 == r % 0x100 * 0x1_0000
  {
    // The bytes of r, the lowest first.
    var d, r8 := r % 0x100, r / 0x100;
    var c, r16 := r8 % 0x100, r8 / 0x100;
    var b, a := r16 % 0x100, r16 / 0x100;
    assert r == 0x100 * r8 + d && r8 == 0x100 * r16 + c && r16 == 0x100 * a + b;
    QuotientIs(r, 0x1_0000, r16, 0x100 * c + d);
    QuotientIs(r, 0x100_0000, a, 0x1_0000 * b + 0x100 * c + d);
    QuotientIs(0x100_0000 * b + 0x1_0000 * c + 0x100 * d, 0x100_0000, b, 0x1_0000 * c + 0x100 * d);
    QuotientIs(0x100_0000 * c + 0x1_0000 * d, 0x100_0000, c, 0x1_0000 * d);
  }

  /** A section followed by its CRC leaves a register of zero. */
  lemma SectionWithCrc(section: seq<Byte>)
    ensures Register(section) < WORD && Register(section + BigEndian(Register(section))) == 0
  {
    hide Feed, Register;
    RegisterWord(section);
    var r := Register(section);
    var w := BigEndian(r);
    assert section + w[..0] == section && section + w[..4] == section + w;
    Shifted(r);
    RegisterMore(section, w, 0);
    FeedTop(r);
    RegisterMore(section, w, 1);
    FeedTop(r % 0x100_0000 * 0x100);
    RegisterMore(section, w, 2);
    FeedTop(r % 0x1_0000 * 0x1_0000);
    RegisterMore(section, w, 3);
    FeedTop(r % 0x100 * 0x100_0000);
  }

  lemma RegisterMore(section: seq<Byte>, w: seq<Byte>, i: nat)
    requires i < |w|
    ensures Register(section + w[..i + 1]) == Feed(Register(section + w[..i]), w[i])
  {
    hide Feed;
    var msg, front := section + w[..i + 1], section + w[..i];
    assert |msg| - 1 == |front|;
    assert msg[..|front|] == front && msg[|front|] == w[i];
  }

  // ---- The remainder of a division -------------------------------------------------------

  /** The product of two polynomials over GF(2), whose coefficients are the bits of numbers. */
  function Product(a: nat, b: nat): nat {
    if a == 0 then 0 else Xor(if a % 2 == 1 then b else 0, 2 * Product(a / 2, b))
  }

  /** The number with the bytes of a message, and 2 to the power of their bits. */
  function Number(msg: seq<Byte>): nat {
    if msg == [] then 0 else Number(msg[..|msg| - 1]) * 0x100 + msg[|msg| - 1]
  }

  /** The message and 32 zeros, with its first 32 bits inverted. */
  function Dividend(msg: seq<Byte>): nat {
    Xor(Number(msg) * WORD, (WORD - 1) * Pow2(8 * |msg|))
  }

  lemma {:induction false} ProductXor(a: nat, b: nat, g: nat)
    ensures Product(Xor(a, b), g) == Xor(Product(a, g), Product(b, g))
  {
    hide Xor;
    if a == 0 || b == 0 {
      XorZero(a);
      XorZero(b);
      XorCommutes(0, b);
      XorZero(Product(a, g));
      XorZero(Product(b, g));
      XorCommutes(0, Product(b, g));
    } else {
      XorStep(a, b);
      ProductXor(a / 2, b / 2, g);
      XorSwap(if a % 2 == 1 then g else 0, 2 * Product(a / 2, g), if b % 2 == 1 then g else 0, 2 * Product(b / 2, g));
      XorTimes(1, Product(a / 2, g), Product(b / 2, g));
      XorSelf(g);
      XorZero(g);
      XorZero(0);
      XorCommutes(0, g);
      ProductStep(Xor(a, b), g);
    }
  }

  lemma ProductStep(a: nat, g: nat)
    ensures Product(a, g) == Xor(if a % 2 == 1 then g else 0, 2 * Product(a / 2, g))
  {
    XorZero(0);
  }

  lemma {:induction false} ProductShift(a: nat, n: nat, g: nat)
    ensures Product(a * Pow2(n), g) == Product(a, g) * Pow2(n)
  {
    hide Xor;
    if n > 0 {
      var b := a * Pow2(n - 1);
      assert a * Pow2(n) == 2 * b;
      ProductShift(a, n - 1, g);
      ProductStep(2 * b, g);
      XorZero(2 * Product(b, g));
      XorCommutes(0, 2 * Product(b, g));
      assert Product(a, g) * Pow2(n) == 2 * (Product(a, g) * Pow2(n - 1));
    }
  }

  /** n steps are a shift by n places and the division by the generator. */
  lemma {:induction false} StepsDivide(x: nat, n: nat) returns (q: nat)
    requires x < WORD
    ensures x * Pow2(n) == Xor(Product(q, GENERATOR), Steps(x, n))
    decreases n
  {
    hide Xor, Step, Product;
    if n == 0 {
      q := 0;
      NoProduct(GENERATOR);
      XorZero(x);
      XorCommutes(0, x);
    } else {
      StepIs(x);
      var r := StepsDivide(Step(x), n - 1);
      var c := if x >= TOP then 1 else 0;
      OneProduct(GENERATOR);
      NoProduct(GENERATOR);
      var g := Product(c, GENERATOR);
      XorSelf(g);
      XorZero(2 * x);
      XorAssociates(2 * x, g, g);
      // 2x is the step and c times the generator
      assert 2 * x == Xor(Step(x), g);
      q := Xor(r, c * Pow2(n - 1));
      ProductXor(r, c * Pow2(n - 1), GENERATOR);
      ProductShift(c, n - 1, GENERATOR);
      XorTimes(n - 1, Step(x), g);
      assert x * Pow2(n) == 2 * x * Pow2(n - 1);
      var s, t, u := Product(r, GENERATOR), Steps(x, n), g * Pow2(n - 1);
      XorAssociates(s, t, u);
      XorCommutes(t, u);
      XorAssociates(s, u, t);
    }
  }

  lemma NoProduct(g: nat)
    ensures Product(0, g) == 0
  {}

  lemma OneProduct(g: nat)
    ensures Product(1, g) == g
  {
    NoProduct(g);
    XorZero(g);
  }

  lemma DividendMore(msg: seq<Byte>, b: Byte)
    ensures Dividend(msg + [b]) == Xor(Dividend(msg) * 0x100, b * WORD)
  {
    hide Xor;
    Powers();
    var n, m := Number(msg), msg + [b];
    assert m[..|m| - 1] == msg;
    assert Pow2(8 * |m|) == Pow2(8 * |msg|) * 0x100 by { Pow2Adds(8 * |msg|, 8); }
    var a, c := n * WORD, (WORD - 1) * Pow2(8 * |msg|);
    XorTimes(8, a, c);
    XorParts(8, n, b);
    XorTimes(32, n * 0x100, b);
    var u, v, w := n * 0x100 * WORD, b * WORD, c * 0x100;
    assert Number(m) * WORD == Xor(u, v);
    assert (WORD - 1) * Pow2(8 * |m|) == w;
    XorAssociates(u, v, w);
    XorCommutes(v, w);
    XorAssociates(u, w, v);
  }

  lemma {:induction false} Pow2Adds(a: nat, b: nat)
    ensures Pow2(a + b) == Pow2(a) * Pow2(b)
  {
    if b > 0 {
      Pow2Adds(a, b - 1);
      assert Pow2(a) * Pow2(b) == 2 * (Pow2(a) * Pow2(b - 1));
    }
  }

  /** The CRC is the remainder of the division of the message by the generator. */
  lemma {:induction false} CrcIsRemainder(msg: seq<Byte>) returns (q: nat)
    ensures Dividend(msg) == Xor(Product(q, GENERATOR), Register(msg)) && Register(msg) < WORD
  {
    hide Xor, Feed, Product, Steps, Dividend;
    RegisterWord(msg);
    if msg == [] {
      q := 0;
      NoProduct(GENERATOR);
      EmptyDividend();
      XorZero(WORD - 1);
      XorCommutes(0, WORD - 1);
    } else {
      Powers();
      var front, b := msg[..|msg| - 1], msg[|msg| - 1];
      assert msg == front + [b];
      var p := CrcIsRemainder(front);
      var r := Register(front);
      var x := Xor(r, b * 0x100_0000);
      XorWord(r, b * 0x100_0000);
      FeedIs(r, b);
      var t := StepsDivide(x, 8);
      q := Xor(p * 0x100, t);
      DividendMore(front, b);
      ProductXor(p * 0x100, t, GENERATOR);
      ProductShift(p, 8, GENERATOR);
      XorTimes(8, Product(p, GENERATOR), r);
      XorTimes(8, r, b * 0x100_0000);
      var u, v, w := Product(p, GENERATOR) * 0x100, r * 0x100, b * WORD;
      XorAssociates(u, v, w);
      XorAssociates(u, Product(t, GENERATOR), Register(msg));
    }
  }

  lemma EmptyDividend()
    ensures Dividend([]) == WORD - 1
  {
    XorZero(WORD - 1);
    XorCommutes(0, WORD - 1);
  }

  lemma DoubledPow2(k: nat)
    requires k > 0
    ensures Pow2(k) == 2 * Pow2(k - 1)
  {}

  /** A multiple of the generator has its 32 places more than the factor. */
  lemma {:induction false} ProductHigh(q: nat, k: nat)
    requires Pow2(k) <= q < Pow2(k + 1)
    ensures Pow2(k + 32) <= Product(q, GENERATOR) < Pow2(k + 33)
  {
    hide Xor, Product;
    if k == 0 {
      Powers();
      OneProduct(GENERATOR);
    } else {
      hide Pow2;
      DoubledPow2(k);
      DoubledPow2(k + 1);
      DoubledPow2(k + 32);
      DoubledPow2(k + 33);
      ProductHigh(q / 2, k - 1);
      ProductStep(q, GENERATOR);
      var m, x := k + 32, 2 * Product(q / 2, GENERATOR);
      var y := if q % 2 == 1 then GENERATOR else 0;
      Powers();
      Pow2Grows(33, m);
      XorSplit(m, 0, y, 1, x - Pow2(m));
      XorZero(1);
      XorCommutes(0, 1);
    }
  }

  lemma {:induction false} HighestBit(q: nat) returns (k: nat)
    requires q > 0
    ensures Pow2(k) <= q < Pow2(k + 1)
  {
    if q == 1 {
      k := 0;
    } else {
      k := HighestBit(q / 2);
      k := k + 1;
    }
  }

  /** There is only one remainder of less than 33 bits. */
  lemma RemainderUnique(p: nat, r: nat, q: nat, s: nat)
    requires r < WORD && s < WORD && Xor(Product(p, GENERATOR), r) == Xor(Product(q, GENERATOR), s)
    ensures r == s
  {
    hide Xor, Product;
    var a, b := Product(p, GENERATOR), Product(q, GENERATOR);
    // a + b == r + s over GF(2)
    XorSwap(a, r, b, s);
    XorSelf(Xor(a, r));
    ProductXor(p, q, GENERATOR);
    var f := Xor(p, q);
    XorEqual(Xor(a, b), Xor(r, s));
    XorWord(r, s);
    if f != 0 {
      var k := HighestBit(f);
      ProductHigh(f, k);
      Powers();
      Pow2Grows(32, k + 32);
    } else {
      NoProduct(GENERATOR);
    }
    XorEqual(r, s);
  }

  lemma {:induction false} XorEqual(x: nat, y: nat)
    ensures Xor(x, y) == 0 ==> x == y
  {
    if x != 0 || y != 0 { XorEqual(x / 2, y / 2); }
  }
}
