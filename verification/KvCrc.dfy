/** The checksum stored in every record header (components/kv/kv.c, calc_crc8). */
module KvCrc {
  import opened Bits
  import opened Folds
  import opened Polynomials

  type Bytes = seq<bv8>

  const BITS: nat := 8

  /** One turn of the bit loop. */
  function Turn(crc: bv8): bv8 {
    if crc & 0x80 != 0 then (crc << 1) ^ 0x31 else crc << 1
  }

  function Turns(crc: bv8, n: nat): bv8 {
    if n == 0 then crc else Turn(Turns(crc, n - 1))
  }

  function Absorb(crc: bv8, b: bv8): bv8 {
    Turns(crc ^ b, BITS)
  }

  function Crc8(s: Bytes): bv8 {
    Fold(Absorb, 0, s)
  }

  method CalcCrc8(buf: Bytes) returns (crc: bv8)
    ensures crc == Crc8(buf)
  {
    crc := 0;
    var pos := 0;
    while pos < |buf|
      invariant pos <= |buf| && crc == Fold(Absorb, 0, buf[..pos])
    {
      crc := AbsorbByte(crc, buf[pos]);
      assert buf[..pos + 1][..pos] == buf[..pos];
      pos := pos + 1;
    }
    assert buf[..pos] == buf;
  }

  /** The inner loop: eight turns over the register with the byte mixed in. */
  method AbsorbByte(start: bv8, byte: bv8) returns (crc: bv8)
    ensures crc == Absorb(start, byte)
  {
    crc := start ^ byte;
    for i := 0 to BITS
      invariant crc == Turns(start ^ byte, i)
    {
      if crc & 0x80 != 0 {
        crc := (crc << 1) ^ 0x31;
      } else {
        crc := crc << 1;
      }
    }
  }

  lemma TurnInjective(x: bv8, y: bv8)
    ensures Turn(x) == Turn(y) ==> x == y
  {
  }

  lemma {:induction false} TurnsInjective(x: bv8, y: bv8, n: nat)
    ensures Turns(x, n) == Turns(y, n) ==> x == y
  {
    if n > 0 {
      TurnInjective(Turns(x, n - 1), Turns(y, n - 1));
      TurnsInjective(x, y, n - 1);
    }
  }

  lemma XorCancel(x: bv8, y: bv8, z: bv8)
    ensures x ^ z == y ^ z ==> x == y
    ensures z ^ x == z ^ y ==> x == y
  {
  }

  /** Each byte updates the register by a bijection, whichever way it is read. */
  lemma AbsorbSeparates()
    ensures Separating(Absorb)
  {
    forall x, y, b | x != y ensures Absorb(x, b) != Absorb(y, b) {
      XorCancel(x, y, b);
      TurnsInjective(x ^ b, y ^ b, BITS);
    }
    forall x, b, d | b != d ensures Absorb(x, b) != Absorb(x, d) {
      XorCancel(b, d, x);
      TurnsInjective(x ^ b, x ^ d, BITS);
    }
  }

  /** A change confined to one byte of a message of any length is always detected. */
  lemma OneByteDetected(s: Bytes, i: nat, b: bv8)
    requires i < |s| && s[i] != b
    ensures Crc8(s[i := b]) != Crc8(s)
  {
    AbsorbSeparates();
    OneSymbolShows(Absorb, 0, s, i, b);
  }

  // ---------------------------------------------------------------------------------------------
  // The checksum is a remainder

  /** x^8 + x^5 + x^4 + 1. */
  const GENERATOR: nat := 0x131

  lemma GeneratorTerms()
    ensures GENERATOR == Pow2(8) + Pow2(5) + Pow2(4) + Pow2(0) && Degree(GENERATOR, 8)
  {
    Powers();
  }

  lemma TurnCongruent(c: bv8)
    ensures Congruent(2 * Reg(c), Reg(Turn(c)), GENERATOR)
  {
    hide Congruent, Nat;
    TurnBits(c);
    GeneratorNat();
    Shifted(c as bv16, Turn(c) as bv16, 0x131, c & 0x80 != 0);
  }

  lemma TurnBits(c: bv8)
    ensures (c as bv16) << 1 == Polynomials.Xor(if c & 0x80 != 0 then 0x131 else 0, Turn(c) as bv16) && c as bv16 < 0x8000
  {
  }

  lemma GeneratorNat()
    ensures Nat(0x131) == GENERATOR
  {
  }

  /** Turning is multiplying by a power of x. */
  lemma {:induction false} TurnsCongruent(c: bv8, n: nat)
    ensures Congruent(Reg(c) * Pow2(n), Reg(Turns(c, n)), GENERATOR)
  {
    hide Congruent, Reg, Turn;
    if n == 0 {
      CongruentSelf(Reg(c), GENERATOR);
    } else {
      var p := Reg(c) * Pow2(n - 1);
      TurnsCongruent(c, n - 1);
      CongruentDouble(p, Reg(Turns(c, n - 1)), GENERATOR);
      TurnCongruent(Turns(c, n - 1));
      CongruentJoin(2 * p, 2 * Reg(Turns(c, n - 1)), Reg(Turns(c, n)), GENERATOR);
      Doubles(Reg(c), Pow2(n - 1));
    }
  }

  lemma XorReg(x: bv8, y: bv8)
    ensures Reg(x ^ y) == Plus(Reg(x), Reg(y))
  {
    hide Plus, Nat;
    XorIsPlus(x as bv16, y as bv16);
    assert (x ^ y) as bv16 == (x as bv16) ^ (y as bv16);
  }

  /** A byte more: the register takes it in and is multiplied by x^8. */
  lemma AbsorbCongruent(m: nat, c: bv8, b: bv8)
    requires Congruent(m * 256, Reg(c), GENERATOR)
    ensures Congruent(Plus(256 * m, Reg(b)) * 256, Reg(Absorb(c, b)), GENERATOR)
  {
    hide Congruent, Reg, Plus, Turns;
    XorReg(c, b);
    CongruentPlus(m * 256, Reg(c), Reg(b), GENERATOR);
    Powers();
    CongruentShift(Plus(256 * m, Reg(b)), Reg(c ^ b), GENERATOR, 8);
    TurnsCongruent(c ^ b, 8);
    CongruentJoin(Plus(256 * m, Reg(b)) * 256, Reg(c ^ b) * 256, Reg(Absorb(c, b)), GENERATOR);
  }

  lemma {:induction false} FoldCongruent(s: Bytes)
    ensures Congruent(Number(s) * 256, Reg(Crc8(s)), GENERATOR)
  {
    hide Congruent, Reg, Plus, Absorb;
    if s == [] {
      RegIs(0);
      CongruentSelf(0, GENERATOR);
    } else {
      var n := |s| - 1;
      FoldCongruent(s[..n]);
      AbsorbCongruent(Number(s[..n]), Crc8(s[..n]), s[n]);
      NumberNext(s[..n], s[n]);
      assert s[..n] + [s[n]] == s;
    }
  }

  /** The checksum is what the division of the message times x^8 by x^8 + x^5 + x^4 + 1 leaves, and nothing else is. */
  lemma Crc8IsRemainder(s: Bytes, r: nat)
    ensures GENERATOR == Pow2(8) + Pow2(5) + Pow2(4) + Pow2(0)
    ensures IsRemainder(Number(s) * Pow2(8), GENERATOR, 8, r) <==> r == Crc8(s) as nat
  {
    hide Congruent, Fold, Reg;
    GeneratorTerms();
    Powers();
    FoldCongruent(s);
    RegIs(Crc8(s));
    if IsRemainder(Number(s) * 256, GENERATOR, 8, r) {
      RemainderUnique(Number(s) * 256, GENERATOR, 8, r, Reg(Crc8(s)));
    }
  }
}
