/** Polynomials over the field of two elements, as numbers whose bits are the coefficients: what a checksum register
    holds (components/kv/kv.c, services/recovery/ymodem.c). */
module Polynomials {
  import opened Bits

  /** The sum: exclusive or, bit by bit. */
  function Plus(a: nat, b: nat): nat {
    if a == 0 && b == 0 then 0 else 2 * Plus(a / 2, b / 2) + (a % 2 + b % 2) % 2
  }

  /** The product, one coefficient of `a` after the other; doubling is multiplying by x. */
  function Times(a: nat, b: nat): nat {
    if a == 0 then 0 else Plus(2 * Times(a / 2, b), if a % 2 == 1 then b else 0)
  }

  /** `m` and `r` differ by a multiple of `g`. */
  ghost predicate Congruent(m: nat, r: nat, g: nat) {
    exists q :: Differ(m, r, g, q)
  }

  predicate Differ(m: nat, r: nat, g: nat, q: nat) {
    m == Plus(Times(q, g), r)
  }

  /** Degree `k`. */
  predicate Degree(g: nat, k: nat) {
    Pow2(k) <= g < 2 * Pow2(k)
  }

  /** Division of `m` by `g` of degree `k` leaves `r`. */
  ghost predicate IsRemainder(m: nat, g: nat, k: nat, r: nat) {
    r < Pow2(k) && Congruent(m, r, g)
  }

  // ---------------------------------------------------------------------------------------------
  // Sums

  lemma PlusStep(a: nat, b: nat)
    ensures Plus(a, b) == 2 * Plus(a / 2, b / 2) + (a % 2 + b % 2) % 2
  {
  }

  lemma PlusParts(a: nat, b: nat)
    ensures Plus(a, b) / 2 == Plus(a / 2, b / 2) && Plus(a, b) % 2 == (a % 2 + b % 2) % 2
  {
    PlusStep(a, b);
  }

  lemma {:induction false} PlusZero(a: nat)
    ensures Plus(a, 0) == a && Plus(0, a) == a
  {
    if a > 0 {
      PlusZero(a / 2);
    }
  }

  lemma {:induction false} PlusSym(a: nat, b: nat)
    ensures Plus(a, b) == Plus(b, a)
    decreases a + b
  {
    if a + b > 0 {
      PlusSym(a / 2, b / 2);
    }
  }

  lemma {:induction false} PlusSelf(a: nat)
    ensures Plus(a, a) == 0
  {
    if a > 0 {
      PlusSelf(a / 2);
    }
  }

  /** The lowest coefficients and the others. */
  lemma PlusBits(a: nat, b: nat, x: nat, y: nat)
    requires x < 2 && y < 2
    ensures Plus(2 * a + x, 2 * b + y) == 2 * Plus(a, b) + Odd(x, y)
  {
    hide Plus;
    Half(a, x);
    Half(b, y);
    PlusStep(2 * a + x, 2 * b + y);
  }

  lemma Half(a: nat, x: nat)
    requires x < 2
    ensures (2 * a + x) / 2 == a && (2 * a + x) % 2 == x
  {
  }

  function Odd(x: nat, y: nat): nat {
    if x == y then 0 else 1
  }

  lemma {:induction false} PlusAssoc(a: nat, b: nat, c: nat)
    ensures Plus(Plus(a, b), c) == Plus(a, Plus(b, c))
    decreases a + b + c
  {
    hide Plus;
    if a + b + c == 0 {
      PlusZero(0);
    } else {
      var i, j, k, x, y, z := a / 2, b / 2, c / 2, a % 2, b % 2, c % 2;
      PlusAssoc(i, j, k);
      PlusBits(i, j, x, y);
      PlusBits(Plus(i, j), k, Odd(x, y), z);
      PlusBits(j, k, y, z);
      PlusBits(i, Plus(j, k), x, Odd(y, z));
    }
  }

  lemma PlusDouble(a: nat, b: nat)
    ensures Plus(2 * a, 2 * b) == 2 * Plus(a, b)
  {
    PlusStep(2 * a, 2 * b);
  }

  lemma PlusFour(a: nat, b: nat, c: nat, d: nat)
    ensures Plus(Plus(a, b), Plus(c, d)) == Plus(Plus(a, c), Plus(b, d))
  {
    hide Plus;
    PlusAssoc(a, b, Plus(c, d));
    PlusAssoc(b, c, d);
    PlusSym(b, c);
    PlusAssoc(c, b, d);
    PlusAssoc(a, c, Plus(b, d));
  }

  /** Two equal parts cancel. */
  lemma PlusTwice(a: nat, b: nat)
    ensures Plus(a, Plus(a, b)) == b && Plus(Plus(b, a), a) == b
  {
    hide Plus;
    PlusAssoc(a, a, b);
    PlusAssoc(b, a, a);
    PlusSelf(a);
    PlusZero(b);
  }

  /** Numbers without a bit in common. */
  lemma {:induction false} PlusAdds(a: nat, b: nat, k: nat)
    requires b < Pow2(k)
    ensures Plus(a * Pow2(k), b) == a * Pow2(k) + b
    decreases k
  {
    hide Plus;
    if k == 0 {
      PlusZero(a);
    } else {
      var m := Pow2(k - 1);
      assert a * (2 * m) == 2 * (a * m);
      PlusAdds(a, b / 2, k - 1);
      PlusStep(2 * (a * m), b);
    }
  }

  lemma {:induction false} PlusBelow(a: nat, b: nat, k: nat)
    requires a < Pow2(k) && b < Pow2(k)
    ensures Plus(a, b) < Pow2(k)
    decreases k
  {
    hide Plus;
    if k == 0 {
      PlusZero(0);
    } else {
      PlusBelow(a / 2, b / 2, k - 1);
      PlusStep(a, b);
    }
  }

  /** A term of lower degree leaves the degree. */
  lemma PlusDegree(a: nat, b: nat, k: nat)
    requires Degree(a, k) && b < Pow2(k)
    ensures Degree(Plus(a, b), k)
  {
    hide Plus;
    var p := Pow2(k);
    PlusAdds(1, a - p, k);
    PlusAssoc(p, a - p, b);
    PlusBelow(a - p, b, k);
    PlusAdds(1, Plus(a - p, b), k);
  }

  // ---------------------------------------------------------------------------------------------
  // Products

  lemma TimesStep(a: nat, b: nat)
    ensures Times(a, b) == Plus(2 * Times(a / 2, b), if a % 2 == 1 then b else 0)
  {
    PlusZero(0);
  }

  lemma TimesDouble(a: nat, b: nat)
    ensures Times(2 * a, b) == 2 * Times(a, b)
  {
    hide Plus, Times;
    TimesStep(2 * a, b);
    PlusZero(2 * Times(a, b));
  }

  lemma TimesOne(b: nat)
    ensures Times(1, b) == b && Times(0, b) == 0
  {
    hide Plus;
    PlusZero(b);
  }

  lemma {:induction false} TimesPlus(a: nat, b: nat, g: nat)
    ensures Times(Plus(a, b), g) == Plus(Times(a, g), Times(b, g))
    decreases a + b
  {
    hide Plus, Times;
    if a + b == 0 {
      PlusZero(0);
      TimesOne(g);
    } else {
      TimesPlus(a / 2, b / 2, g);
      PlusParts(a, b);
      TimesStep(a, g);
      TimesStep(b, g);
      TimesStep(Plus(a, b), g);
      PlusDouble(Times(a / 2, g), Times(b / 2, g));
      var x, y := if a % 2 == 1 then g else 0, if b % 2 == 1 then g else 0;
      PlusFour(2 * Times(a / 2, g), x, 2 * Times(b / 2, g), y);
      PlusSelf(g);
      PlusZero(g);
      PlusZero(0);
    }
  }

  lemma {:induction false} TimesDegree(a: nat, m: nat, g: nat, k: nat)
    requires Degree(a, m) && Degree(g, k)
    ensures Degree(Times(a, g), m + k)
    decreases m
  {
    hide Plus, Times;
    if m == 0 {
      TimesOne(g);
    } else {
      TimesDegree(a / 2, m - 1, g, k);
      PowGrows(k, m + k - 1);
      TimesStep(a, g);
      PlusDegree(2 * Times(a / 2, g), if a % 2 == 1 then g else 0, m + k);
    }
  }

  lemma {:induction false} PowGrows(i: nat, j: nat)
    requires i <= j
    ensures Pow2(i) <= Pow2(j)
    decreases j
  {
    if i < j {
      PowGrows(i, j - 1);
    }
  }

  lemma {:induction false} DegreeOf(a: nat) returns (m: nat)
    requires a > 0
    ensures Degree(a, m)
  {
    m := 0;
    if a > 1 {
      var n := DegreeOf(a / 2);
      m := n + 1;
    }
  }

  // ---------------------------------------------------------------------------------------------
  // Congruence

  lemma CongruentSelf(m: nat, g: nat)
    ensures Congruent(m, m, g)
  {
    PlusZero(m);
    TimesOne(g);
    assert Differ(m, m, g, 0);
  }

  lemma CongruentJoin(a: nat, b: nat, c: nat, g: nat)
    requires Congruent(a, b, g) && Congruent(b, c, g)
    ensures Congruent(a, c, g)
  {
    hide Plus, Times;
    var p :| Differ(a, b, g, p);
    var q :| Differ(b, c, g, q);
    TimesPlus(p, q, g);
    PlusAssoc(Times(p, g), Times(q, g), c);
    assert Differ(a, c, g, Plus(p, q));
  }

  lemma CongruentDouble(a: nat, b: nat, g: nat)
    requires Congruent(a, b, g)
    ensures Congruent(2 * a, 2 * b, g)
  {
    hide Plus, Times;
    var q: nat :| Differ(a, b, g, q);
    TimesDouble(q, g);
    PlusDouble(Times(q, g), b);
    assert Differ(2 * a, 2 * b, g, 2 * q);
  }

  lemma CongruentPlus(a: nat, b: nat, c: nat, g: nat)
    requires Congruent(a, b, g)
    ensures Congruent(Plus(a, c), Plus(b, c), g)
  {
    hide Plus, Times;
    var q :| Differ(a, b, g, q);
    PlusAssoc(Times(q, g), b, c);
    assert Differ(Plus(a, c), Plus(b, c), g, q);
  }

  /** Division has one remainder. */
  lemma RemainderUnique(m: nat, g: nat, k: nat, r: nat, t: nat)
    requires Degree(g, k) && IsRemainder(m, g, k, r) && IsRemainder(m, g, k, t)
    ensures r == t
  {
    hide Plus, Times, Pow2;
    var p :| Differ(m, r, g, p);
    var q :| Differ(m, t, g, q);
    var d := Plus(p, q);
    TimesPlus(p, q, g);
    PlusFour(Times(p, g), r, Times(q, g), t);
    PlusSelf(m);
    PlusTwice(Times(d, g), Plus(r, t));
    PlusZero(Times(d, g));
    assert Times(d, g) == Plus(r, t);
    PlusBelow(r, t, k);
    if d > 0 {
      var n := DegreeOf(d);
      TimesDegree(d, n, g, k);
      PowGrows(k, n + k);
    } else {
      TimesOne(g);
    }
    PlusTwice(r, t);
    PlusZero(r);
  }

  // ---------------------------------------------------------------------------------------------
  // Messages

  /** The bits of a message as one number, the first byte highest. */
  function Number(s: seq<bv8>): nat {
    if s == [] then 0 else 256 * Number(s[..|s| - 1]) + s[|s| - 1] as nat
  }

  // ---------------------------------------------------------------------------------------------
  // Registers

  function Nat(x: bv16): nat {
    x as nat
  }

  function Upper(x: bv16): bv16 {
    x >> 1
  }

  function Low(x: bv16): nat {
    if x & 1 == 1 then 1 else 0
  }

  function Xor(x: bv16, y: bv16): bv16 {
    x ^ y
  }

  function Join(h: bv16, low: nat): bv16 {
    if low == 1 then (h << 1) | 1 else h << 1
  }

  predicate Room(h: bv16) {
    h < 0x8000
  }

  lemma NatDoubled(h: bv16)
    requires Room(h)
    ensures Nat(Join(h, 0)) == 2 * Nat(h)
  {
    Doubled(h);
  }

  lemma Doubled(h: bv16)
    requires h < 0x8000
    ensures (h << 1) as nat == 2 * (h as nat)
  {
  }

  lemma DoubledAndOne(h: bv16)
    requires h < 0x8000
    ensures ((h << 1) | 1) as nat == 2 * (h as nat) + 1
  {
  }

  lemma NatJoined(h: bv16)
    requires Room(h)
    ensures Nat(Join(h, 1)) == 2 * Nat(h) + 1
  {
    DoubledAndOne(h);
  }

  lemma Rejoined(x: bv16)
    ensures Room(Upper(x)) && x == Join(Upper(x), Low(x)) && Low(x) < 2
  {
  }

  lemma NatParts(x: bv16)
    ensures Nat(x) == 2 * Nat(Upper(x)) + Low(x)
  {
    hide Nat, Upper, Low, Join, Room;
    Rejoined(x);
    if Low(x) == 1 {
      NatJoined(Upper(x));
    } else {
      NatDoubled(Upper(x));
    }
  }

  lemma NatZero(x: bv16)
    ensures Nat(x) == 0 <==> x == 0
  {
  }

  lemma XorParts(x: bv16, y: bv16)
    ensures Upper(Xor(x, y)) == Xor(Upper(x), Upper(y)) && Low(Xor(x, y)) == Odd(Low(x), Low(y))
    ensures Xor(0, 0) == 0 && Low(x) < 2 && Low(y) < 2
  {
  }

  /** Exclusive or of registers is the sum of polynomials. */
  lemma {:induction false} XorIsPlus(x: bv16, y: bv16)
    ensures Nat(Xor(x, y)) == Plus(Nat(x), Nat(y))
    decreases Nat(x) + Nat(y)
  {
    hide Upper, Low, Xor, Plus, Nat;
    NatParts(x);
    NatParts(y);
    NatParts(Xor(x, y));
    XorParts(x, y);
    if Nat(x) + Nat(y) == 0 {
      NatZero(x);
      NatZero(y);
      PlusZero(0);
    } else {
      XorIsPlus(Upper(x), Upper(y));
      PlusBits(Nat(Upper(x)), Nat(Upper(y)), Low(x), Low(y));
    }
  }

  /** A byte as a polynomial. */
  function Reg(b: bv8): nat {
    Nat(b as bv16)
  }

  lemma RegIs(b: bv8)
    ensures Reg(b) == b as nat && Reg(b) < 256
  {
  }

  /** A shift of a register is a multiplication by x, less the generator if a coefficient goes out. */
  lemma Shifted(r: bv16, t: bv16, g: bv16, out: bool)
    requires r < 0x8000 && r << 1 == Xor(if out then g else 0, t)
    ensures Congruent(2 * Nat(r), Nat(t), Nat(g))
  {
    hide Xor, Plus, Times, Nat;
    Turned(r, if out then g else 0, t);
    XorIsPlus(if out then g else 0, t);
    TimesOne(Nat(g));
    NatZero(0);
    assert Differ(2 * Nat(r), Nat(t), Nat(g), if out then 1 else 0);
  }

  lemma Turned(r: bv16, x: bv16, t: bv16)
    requires r < 0x8000 && r << 1 == Xor(x, t)
    ensures 2 * Nat(r) == Nat(Xor(x, t))
  {
    hide Xor;
    Doubled(r);
  }

  /** A message one byte longer. */
  lemma NumberNext(s: seq<bv8>, b: bv8)
    ensures Number(s + [b]) == Plus(256 * Number(s), Reg(b))
  {
    hide Reg, Plus;
    assert (s + [b])[..|s|] == s;
    RegIs(b);
    Powers();
    PlusAdds(Number(s), Reg(b), 8);
  }

  lemma {:induction false} CongruentShift(a: nat, b: nat, g: nat, n: nat)
    requires Congruent(a, b, g)
    ensures Congruent(a * Pow2(n), b * Pow2(n), g)
    decreases n
  {
    hide Congruent;
    if n > 0 {
      CongruentShift(a, b, g, n - 1);
      CongruentDouble(a * Pow2(n - 1), b * Pow2(n - 1), g);
      Doubles(a, Pow2(n - 1));
      Doubles(b, Pow2(n - 1));
    }
  }

  lemma Doubles(a: nat, p: nat)
    ensures a * (2 * p) == 2 * (a * p)
  {
  }
}
