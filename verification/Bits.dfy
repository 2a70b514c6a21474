/** Masks on unsigned numbers: `&`, `|` and `<<` of the program on naturals. */
module Bits {
  /** Bit by bit from the low end. */
  function And(a: nat, b: nat): nat {
    if a == 0 || b == 0 then 0 else 2 * And(a / 2, b / 2) + a % 2 * (b % 2)
  }

  function Or(a: nat, b: nat): nat {
    if a == 0 then b else if b == 0 then a
    else 2 * Or(a / 2, b / 2) + if a % 2 == 1 || b % 2 == 1 then 1 else 0
  }

  function Pow2(k: nat): (p: nat)
    ensures p >= 1
  {
    if k == 0 then 1 else 2 * Pow2(k - 1)
  }

  lemma {:induction false} OrZero(a: nat)
    ensures Or(a, 0) == a && And(a, 0) == 0
  {
  }

  /** A mask of ones keeps the remainder. */
  lemma {:induction false} LowBits(a: nat, k: nat)
    ensures And(a, Pow2(k) - 1) == a % Pow2(k)
    decreases k
  {
    hide And;
    if k == 0 {
      OrZero(a);
    } else {
      var m := Pow2(k - 1);
      LowBits(a / 2, k - 1);
      MaskHalf(0, 0, 0, 0, m);
      AndStep(a, 2 * m - 1);
      HalfRemainder(a, m);
    }
  }

  lemma HalfRemainder(a: nat, m: nat)
    requires m >= 1
    ensures a % (2 * m) == 2 * (a / 2 % m) + a % 2
  {
    var q, r := a / 2 / m, a / 2 % m;
    assert a / 2 == q * m + r;
    assert a == 2 * (a / 2) + a % 2;
    assert a == q * (2 * m) + (2 * r + a % 2);
    Remainder(a, 2 * m, q, 2 * r + a % 2);
  }

  lemma Remainder(x: int, n: nat, d: int, r: nat)
    requires r < n && x == d * n + r
    ensures x % n == r
  {
    var q, e := x % n, x / n - d;
    assert x == x / n * n + q;
    assert e * n == r - q by {
      assert (x / n - d) * n == x / n * n - d * n;
    }
    Multiple(e, n);
  }

  lemma Multiple(e: int, n: nat)
    ensures e >= 1 ==> e * n >= n
    ensures e <= -1 ==> e * n + n <= 0
    ensures e == 0 ==> e * n == 0
  {
  }

  lemma {:induction false} OrSym(a: nat, b: nat)
    ensures Or(a, b) == Or(b, a)
  {
    if a > 0 && b > 0 {
      OrSym(a / 2, b / 2);
    }
  }

  /** Numbers without a bit in common: or is addition. */
  lemma {:induction false} OrAdds(a: nat, b: nat, k: nat)
    requires b < Pow2(k)
    ensures Or(a * Pow2(k), b) == a * Pow2(k) + b
    decreases k
  {
    if k == 0 {
      OrZero(a);
    } else if a > 0 && b > 0 {
      var m := Pow2(k - 1);
      assert a * (2 * m) == 2 * (a * m);
      OrAdds(a, b / 2, k - 1);
    } else if a == 0 {
      assert a * Pow2(k) == 0;
    }
  }

  lemma AndStep(a: nat, b: nat)
    ensures And(a, b) == 2 * And(a / 2, b / 2) + a % 2 * (b % 2)
  {
  }

  lemma OrStep(a: nat, b: nat)
    ensures Or(a, b) == 2 * Or(a / 2, b / 2) + if a % 2 == 1 || b % 2 == 1 then 1 else 0
  {
    OrZero(a / 2);
  }

  /** Setting the bit above the one that is cleared: the low bits stay, the mark goes above them. */
  lemma {:induction false} MarkSet(a: nat, k: nat)
    ensures And(Or(a, 2 * Pow2(k)), 2 * Pow2(k) + Pow2(k) - 1) == 2 * Pow2(k) + a % Pow2(k)
    decreases k
  {
    hide And, Or;
    var x := Or(a, 2 * Pow2(k));
    if k == 0 {
      MarkSetLow(a);
    } else {
      var m := Pow2(k - 1);
      MarkSet(a / 2, k - 1);
      OrStep(a, 4 * m);
      AndStep(x, 6 * m - 1);
      MaskHalf(x, 2 * m, Or(a / 2, 2 * m), a % 2, 3 * m);
      HalfRemainder(a, m);
    }
  }

  lemma MaskHalf(x: nat, m: nat, h: nat, bit: nat, n: nat)
    requires x == 2 * h + bit && bit < 2 && n > 0
    ensures x / 2 == h && x % 2 == bit && (2 * n - 1) / 2 == n - 1 && (2 * n - 1) % 2 == 1
    ensures (2 * m) / 2 == m && (2 * m) % 2 == 0
  {
  }

  lemma MarkSetLow(a: nat)
    ensures And(Or(a, 2), 2) == 2
  {
    hide And, Or;
    var x := Or(a, 2);
    OrStep(a, 2);
    OrStep(a / 2, 1);
    AndStep(x, 2);
    AndStep(x / 2, 1);
    OrZero(x / 4);
  }

  lemma Powers()
    ensures Pow2(6) == 64 && Pow2(7) == 128 && Pow2(8) == 256 && Pow2(10) == 1024
    ensures Pow2(5) == 32 && Pow2(4) == 16 && Pow2(3) == 8
  {
    assert Pow2(3) == 8;
    assert Pow2(6) == 64;
    assert Pow2(8) == 256;
  }
}
