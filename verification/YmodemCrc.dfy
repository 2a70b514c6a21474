/** The checksum of a packet: a register shifted bit by bit, with two zero bytes behind the message
    (services/recovery/ymodem.c). */
module YmodemCrc {
  import opened Bits
  import opened Folds
  import Polynomials

  type Bytes = seq<bv8>

  const BITS: nat := 8
  const POLY: bv16 := 0x1021

  // ---------------------------------------------------------------------------------------------
  // Registers under exclusive or

  function Xor(x: bv16, y: bv16): bv16 {
    x ^ y
  }

  function Shl(x: bv16): bv16 {
    x << 1
  }

  predicate Top(x: bv16) {
    x & 0x8000 != 0
  }

  lemma XorShl(x: bv16, y: bv16)
    ensures Shl(Xor(x, y)) == Xor(Shl(x), Shl(y))
  {
  }

  lemma XorTop(x: bv16, y: bv16)
    ensures Top(Xor(x, y)) <==> Top(x) != Top(y)
  {
    TopBit(x);
    TopBit(y);
    assert (x ^ y) & 0x8000 == (x & 0x8000) ^ (y & 0x8000);
  }

  lemma TopBit(x: bv16)
    ensures x & 0x8000 == if Top(x) then 0x8000 else 0
  {
  }

  lemma XorLaws(x: bv16, y: bv16, z: bv16)
    ensures Xor(Xor(x, y), z) == Xor(x, Xor(y, z)) && Xor(x, y) == Xor(y, x)
    ensures Xor(x, x) == 0 && Xor(x, 0) == x && Xor(0, x) == x
  {
  }

  /** Taking a register off both sides. */
  lemma XorCancels(x: bv16, y: bv16, z: bv16)
    ensures Xor(x, z) == Xor(y, z) <==> x == y
    ensures Xor(x, y) == 0 <==> x == y
  {
    hide Xor;
    XorLaws(x, z, z);
    XorLaws(y, z, z);
    XorLaws(z, 0, 0);
    XorLaws(x, y, y);
  }

  lemma XorFour(a: bv16, b: bv16, c: bv16, d: bv16)
    ensures Xor(Xor(a, b), Xor(c, d)) == Xor(Xor(a, c), Xor(b, d))
  {
    hide Xor;
    XorLaws(a, b, Xor(c, d));
    XorLaws(b, c, d);
    XorLaws(c, b, d);
    XorLaws(a, c, Xor(b, d));
  }

  // ---------------------------------------------------------------------------------------------
  // One bit

  /** The register shifted once; the polynomial is taken off if a one goes out. */
  function Shift(r: bv16): bv16 {
    if Top(r) then Xor(Shl(r), POLY) else Shl(r)
  }

  lemma ShiftXor(x: bv16, y: bv16)
    ensures Shift(Xor(x, y)) == Xor(Shift(x), Shift(y))
  {
    hide Xor, Shl, Top;
    XorShl(x, y);
    XorTop(x, y);
    XorFour(Shl(x), if Top(x) then POLY else 0, Shl(y), if Top(y) then POLY else 0);
    XorLaws(POLY, 0, 0);
    XorLaws(Shl(x), 0, 0);
    XorLaws(Shl(y), 0, 0);
    XorLaws(0, 0, 0);
    XorLaws(Xor(Shl(x), Shl(y)), 0, 0);
  }

  /** Only the zero register shifts to zero: the polynomial is odd. */
  lemma ShiftZero(x: bv16)
    ensures Shift(x) == 0 <==> x == 0
  {
    assert (x << 1) ^ 0x1021 != 0;
    assert x & 0x8000 == 0 && x << 1 == 0 ==> x == 0;
  }

  function Turns(r: bv16, n: nat): bv16 {
    if n == 0 then r else Shift(Turns(r, n - 1))
  }

  lemma {:induction false} TurnsXor(x: bv16, y: bv16, n: nat)
    ensures Turns(Xor(x, y), n) == Xor(Turns(x, n), Turns(y, n))
  {
    hide Xor, Shift;
    if n > 0 {
      TurnsXor(x, y, n - 1);
      ShiftXor(Turns(x, n - 1), Turns(y, n - 1));
    }
  }

  lemma {:induction false} TurnsZero(x: bv16, n: nat)
    ensures Turns(x, n) == 0 <==> x == 0
  {
    hide Shift;
    if n > 0 {
      TurnsZero(x, n - 1);
      ShiftZero(Turns(x, n - 1));
    }
  }

  /** Eight shifts with zeros coming in. */
  function Zero8(r: bv16): bv16 {
    Turns(r, BITS)
  }

  lemma Zero8Xor(x: bv16, y: bv16)
    ensures Zero8(Xor(x, y)) == Xor(Zero8(x), Zero8(y))
  {
    TurnsXor(x, y, BITS);
  }

  /** Different registers stay different. */
  lemma Zero8Injective(x: bv16, y: bv16)
    ensures Zero8(x) == Zero8(y) <==> x == y
  {
    hide Xor, Turns;
    Zero8Xor(x, y);
    TurnsZero(Xor(x, y), BITS);
    XorCancels(x, y, 0);
    XorCancels(Zero8(x), Zero8(y), 0);
  }

  // ---------------------------------------------------------------------------------------------
  // One byte

  /** The `k`-th bit of a byte, the highest first. */
  predicate Bit(b: bv8, k: nat)
    requires k < BITS
  {
    (b >> (7 - k)) & 1 != 0
  }

  function BitIn(r: bv16, bit: bool): bv16 {
    Xor(Shift(r), if bit then 1 else 0)
  }

  /** The register after the first `k` bits of a byte. */
  function Fed(r: bv16, b: bv8, k: nat): bv16
    requires k <= BITS
  {
    if k == 0 then r else BitIn(Fed(r, b, k - 1), Bit(b, k - 1))
  }

  function Update(r: bv16, b: bv8): bv16 {
    Fed(r, b, BITS)
  }

  /** The first `k` bits of a byte as a number. */
  function Lead(b: bv8, k: nat): bv16
    requires k <= BITS
  {
    (b as bv16) >> (BITS - k)
  }

  lemma LeadNext(b: bv8, k: nat)
    requires k < BITS
    ensures !Top(Lead(b, k)) && Lead(b, k + 1) == Xor(Shl(Lead(b, k)), if Bit(b, k) then 1 else 0)
  {
    if k == 0 {
      assert (b as bv16) >> 7 == (((b as bv16) >> 8) << 1) ^ (if (b >> 7) & 1 != 0 then 1 else 0);
    } else if k == 1 {
      assert (b as bv16) >> 6 == (((b as bv16) >> 7) << 1) ^ (if (b >> 6) & 1 != 0 then 1 else 0);
    } else if k == 2 {
      assert (b as bv16) >> 5 == (((b as bv16) >> 6) << 1) ^ (if (b >> 5) & 1 != 0 then 1 else 0);
    } else if k == 3 {
      assert (b as bv16) >> 4 == (((b as bv16) >> 5) << 1) ^ (if (b >> 4) & 1 != 0 then 1 else 0);
    } else if k == 4 {
      assert (b as bv16) >> 3 == (((b as bv16) >> 4) << 1) ^ (if (b >> 3) & 1 != 0 then 1 else 0);
    } else if k == 5 {
      assert (b as bv16) >> 2 == (((b as bv16) >> 3) << 1) ^ (if (b >> 2) & 1 != 0 then 1 else 0);
    } else if k == 6 {
      assert (b as bv16) >> 1 == (((b as bv16) >> 2) << 1) ^ (if (b >> 1) & 1 != 0 then 1 else 0);
    } else {
      assert (b as bv16) >> 0 == (((b as bv16) >> 1) << 1) ^ (if (b >> 0) & 1 != 0 then 1 else 0);
    }
  }

  /** The bits of a byte fill the low end of the register while it is shifted. */
  lemma {:induction false} FedIs(r: bv16, b: bv8, k: nat)
    requires k <= BITS
    ensures Fed(r, b, k) == Xor(Turns(r, k), Lead(b, k))
  {
    hide Xor, Shl, Top, Lead, Bit;
    if k == 0 {
      LeadNone(b);
      XorLaws(r, 0, 0);
    } else {
      FedIs(r, b, k - 1);
      LeadNext(b, k - 1);
      ShiftXor(Turns(r, k - 1), Lead(b, k - 1));
      XorLaws(Turns(r, k), Shl(Lead(b, k - 1)), if Bit(b, k - 1) then 1 else 0);
    }
  }

  lemma LeadNone(b: bv8)
    ensures Lead(b, 0) == 0
  {
  }

  /** A byte's step in closed form: the register shifted eight times, with the byte put into the room. */
  lemma UpdateIs(r: bv16, b: bv8)
    ensures Update(r, b) == Xor(Zero8(r), b as bv16)
  {
    hide Xor, Fed, Turns;
    FedIs(r, b, BITS);
  }

  /** A byte moved up by `k` places. */
  function Up(b: bv8, k: nat): bv16
    requires k <= BITS
  {
    if k == 0 then b as bv16 else Shl(Up(b, k - 1))
  }

  lemma SmallBits(b: bv8)
    ensures var x := b as bv16;
      && x & 0x8000 == 0 && (x << 1) & 0x8000 == 0 && (x << 2) & 0x8000 == 0 && (x << 3) & 0x8000 == 0
      && (x << 4) & 0x8000 == 0 && (x << 5) & 0x8000 == 0 && (x << 6) & 0x8000 == 0 && (x << 7) & 0x8000 == 0
  {
  }

  lemma ShlTwice(x: bv16)
    ensures (x << 1) << 1 == x << 2 && (x << 2) << 1 == x << 3 && (x << 3) << 1 == x << 4 && (x << 4) << 1 == x << 5
    ensures (x << 5) << 1 == x << 6 && (x << 6) << 1 == x << 7 && (x << 7) << 1 == x << 8
  {
  }

  lemma UpIs(b: bv8)
    ensures var x := b as bv16;
      && Up(b, 1) == x << 1 && Up(b, 2) == x << 2 && Up(b, 3) == x << 3 && Up(b, 4) == x << 4
      && Up(b, 5) == x << 5 && Up(b, 6) == x << 6 && Up(b, 7) == x << 7 && Up(b, 8) == x << 8
  {
    ShlTwice(b as bv16);
    assert Up(b, 2) == Shl(Up(b, 1));
    assert Up(b, 4) == Shl(Up(b, 3));
    assert Up(b, 6) == Shl(Up(b, 5));
  }

  lemma UpNext(b: bv8, k: nat)
    requires k < BITS
    ensures !Top(Up(b, k))
  {
    SmallBits(b);
    UpIs(b);
    hide Up;
    if k == 0 {
      UpNone(b);
    }
  }

  lemma UpNone(b: bv8)
    ensures Up(b, 0) == b as bv16
  {
  }

  lemma {:induction false} TurnsUp(b: bv8, k: nat)
    requires k <= BITS
    ensures Turns(Up(b, 0), k) == Up(b, k)
  {
    hide Shl, Top, Xor;
    if k > 0 {
      TurnsUp(b, k - 1);
      UpNext(b, k - 1);
    }
  }

  /** The byte alone, shifted eight times, is the byte in the high half. */
  lemma LowByteUp(b: bv8)
    ensures Zero8(b as bv16) == (b as bv16) << 8
  {
    hide Turns;
    TurnsUp(b, BITS);
    UpIs(b);
  }

  // ---------------------------------------------------------------------------------------------
  // Whole messages

  function Register(s: Bytes): bv16 {
    Fold(Update, 0, s)
  }

  /** `crc16_computer`: the register after the message and two zero bytes. */
  function Crc16(s: Bytes): bv16 {
    Update(Update(Register(s), 0), 0)
  }

  /** The usual table-driven form with initial value 0. */
  function Table(i: bv8): bv16 {
    Zero8((i as bv16) << 8)
  }

  function High(r: bv16): bv8 {
    (r >> 8) as bv8
  }

  function Low(r: bv16): bv8 {
    (r & 0xFF) as bv8
  }

  function Direct(r: bv16, b: bv8): bv16 {
    (r << 8) ^ Table(High(r) ^ b)
  }

  function Flush(r: bv16): bv16 {
    Zero8(Zero8(r))
  }

  lemma Crc16IsFlush(s: Bytes)
    ensures Crc16(s) == Flush(Register(s))
  {
    hide Xor, Update, Turns, Register;
    UpdateIs(Register(s), 0);
    UpdateIs(Update(Register(s), 0), 0);
    XorLaws(Zero8(Register(s)), 0, 0);
    XorLaws(Flush(Register(s)), 0, 0);
  }

  lemma SplitRegister(r: bv16, b: bv8)
    ensures Xor(r, (b as bv16) << 8) == Xor(((High(r) ^ b) as bv16) << 8, Low(r) as bv16)
    ensures (Low(r) as bv16) << 8 == r << 8
  {
  }

  /** A table step is eight shifts of the register with the byte mixed into its high half. */
  lemma DirectIs(r: bv16, b: bv8)
    ensures Direct(r, b) == Zero8(Xor(r, (b as bv16) << 8))
  {
    hide Turns, Zero8, High, Low;
    SplitRegister(r, b);
    Zero8Xor(((High(r) ^ b) as bv16) << 8, Low(r) as bv16);
    LowByteUp(Low(r));
    XorLaws(Table(High(r) ^ b), r << 8, 0);
  }

  /** One byte into the augmented register is one table step of the flushed one. */
  lemma OneStep(r: bv16, b: bv8)
    ensures Flush(Update(r, b)) == Direct(Flush(r), b)
  {
    hide Xor, Update, Turns, Zero8, Direct;
    UpdateIs(r, b);
    Zero8Xor(Zero8(r), b as bv16);
    LowByteUp(b);
    DirectIs(Flush(r), b);
  }

  /** The augmented bit-serial checksum is the table-driven one, on every message. */
  lemma {:induction false} AugmentedIsDirect(s: Bytes)
    ensures Crc16(s) == Fold(Direct, 0, s)
  {
    hide Update, Direct, Crc16, Zero8;
    Crc16IsFlush(s);
    FlushedFold(s);
  }

  lemma {:induction false} FlushedFold(s: Bytes)
    ensures Flush(Register(s)) == Fold(Direct, 0, s)
  {
    hide Update, Direct, Zero8;
    if s == [] {
      TurnsZero(0, BITS);
      FlushZero();
    } else {
      var n := |s| - 1;
      FlushedFold(s[..n]);
      OneStep(Register(s[..n]), s[n]);
    }
  }

  lemma FlushZero()
    ensures Flush(0) == 0
  {
    hide Turns;
    TurnsZero(0, BITS);
  }

  // ---------------------------------------------------------------------------------------------
  // Linearity

  function XorBytes(s: Bytes, t: Bytes): Bytes
    requires |s| == |t|
  {
    if s == [] then [] else XorBytes(s[..|s| - 1], t[..|t| - 1]) + [s[|s| - 1] ^ t[|t| - 1]]
  }

  lemma UpdateXor(x: bv16, y: bv16, b: bv8, d: bv8)
    ensures Update(Xor(x, y), b ^ d) == Xor(Update(x, b), Update(y, d))
  {
    hide Xor, Update, Turns;
    UpdateIs(Xor(x, y), b ^ d);
    UpdateIs(x, b);
    UpdateIs(y, d);
    Zero8Xor(x, y);
    ByteXor(b, d);
    XorFour(Zero8(x), b as bv16, Zero8(y), d as bv16);
  }

  lemma ByteXor(b: bv8, d: bv8)
    ensures (b ^ d) as bv16 == Xor(b as bv16, d as bv16)
  {
  }

  lemma {:induction false} RegisterLinear(s: Bytes, t: Bytes)
    requires |s| == |t|
    ensures |XorBytes(s, t)| == |s| && Register(XorBytes(s, t)) == Xor(Register(s), Register(t))
  {
    hide Update, Xor;
    if s == [] {
      XorLaws(0, 0, 0);
    } else {
      var n := |s| - 1;
      RegisterLinear(s[..n], t[..n]);
      UpdateXor(Register(s[..n]), Register(t[..n]), s[n], t[n]);
      assert XorBytes(s, t)[..n] == XorBytes(s[..n], t[..n]);
    }
  }

  /** On messages of equal length the checksum is linear. */
  lemma Crc16Linear(s: Bytes, t: Bytes)
    requires |s| == |t|
    ensures Crc16(XorBytes(s, t)) == Xor(Crc16(s), Crc16(t))
  {
    hide Register, Xor, Zero8, Crc16, XorBytes;
    RegisterLinear(s, t);
    Crc16IsFlush(s);
    Crc16IsFlush(t);
    Crc16IsFlush(XorBytes(s, t));
    Zero8Xor(Register(s), Register(t));
    Zero8Xor(Zero8(Register(s)), Zero8(Register(t)));
  }

  // ---------------------------------------------------------------------------------------------
  // The trailer

  /** What the receiver compares: high byte first. */
  predicate Halves(crc: bv16, hi: bv8, lo: bv8) {
    crc >> 8 == hi as bv16 && crc & 0xFF == lo as bv16
  }

  predicate TrailerMatches(payload: Bytes, hi: bv8, lo: bv8) {
    Halves(Crc16(payload), hi, lo)
  }

  /** The comparison succeeds exactly if the register over payload and trailer comes to zero. */
  lemma TrailerIff(payload: Bytes, hi: bv8, lo: bv8)
    ensures TrailerMatches(payload, hi, lo) <==> Register(payload + [hi, lo]) == 0
  {
    hide Update, Turns, Zero8, Xor, Crc16, Register, Halves;
    var r := Register(payload);
    RegisterTwo(payload, hi, lo);
    UpdateIs(r, hi);
    UpdateIs(Update(r, hi), lo);
    Zero8Xor(Zero8(r), hi as bv16);
    LowByteUp(hi);
    Crc16IsFlush(payload);
    TrailerBits(Flush(r), hi, lo);
  }

  lemma RegisterTwo(s: Bytes, x: bv8, y: bv8)
    ensures Register(s + [x, y]) == Update(Update(Register(s), x), y)
  {
    hide Update;
    assert s + [x, y] == s + [x] + [y];
    assert (s + [x] + [y])[..|s| + 1] == s + [x] && (s + [x])[..|s|] == s;
    assert Register(s + [x]) == Update(Register(s), x);
  }

  lemma TrailerBits(f: bv16, hi: bv8, lo: bv8)
    ensures Halves(f, hi, lo) <==> Xor(Xor(f, (hi as bv16) << 8), lo as bv16) == 0
  {
  }

  /** Replacing any one byte of a message by another changes its checksum. */
  lemma OneByteDetected(s: Bytes, i: nat, b: bv8)
    requires i < |s| && s[i] != b
    ensures Crc16(s[i := b]) != Crc16(s)
  {
    hide Zero8, Crc16, Update;
    UpdateSeparates();
    OneSymbolShows(Update, 0, s, i, b);
    Crc16IsFlush(s);
    Crc16IsFlush(s[i := b]);
    Zero8Injective(Register(s), Register(s[i := b]));
    Zero8Injective(Zero8(Register(s)), Zero8(Register(s[i := b])));
  }

  lemma UpdateSeparates()
    ensures Separating(Update)
  {
    forall x, y, b | x != y ensures Update(x, b) != Update(y, b) {
      RegisterMatters(x, y, b);
    }
    forall x, b, d | b != d ensures Update(x, b) != Update(x, d) {
      ByteMatters(x, b, d);
    }
  }

  lemma RegisterMatters(x: bv16, y: bv16, b: bv8)
    ensures Update(x, b) == Update(y, b) <==> x == y
  {
    hide Xor, Zero8, Update;
    UpdateIs(x, b);
    UpdateIs(y, b);
    XorCancels(Zero8(x), Zero8(y), b as bv16);
    Zero8Injective(x, y);
  }

  lemma ByteMatters(x: bv16, b: bv8, d: bv8)
    ensures Update(x, b) == Update(x, d) <==> b == d
  {
    hide Xor, Zero8, Update;
    UpdateIs(x, b);
    UpdateIs(x, d);
    XorLaws(Zero8(x), b as bv16, 0);
    XorLaws(Zero8(x), d as bv16, 0);
    XorCancels(b as bv16, d as bv16, Zero8(x));
    WideByte(b, d);
  }

  lemma WideByte(b: bv8, d: bv8)
    ensures b as bv16 == d as bv16 <==> b == d
  {
  }

  // ---------------------------------------------------------------------------------------------
  // The checksum is a remainder

  /** x^16 + x^12 + x^5 + 1. */
  const GENERATOR: nat := 0x11021

  lemma GeneratorTerms()
    ensures GENERATOR == Pow2(16) + Pow2(12) + Pow2(5) + Pow2(0) && Polynomials.Degree(GENERATOR, 16) && Pow2(16) == 65536
  {
    Powers();
    assert Pow2(12) == 4096;
    assert Pow2(16) == 65536;
  }

  /** A register as a polynomial. */
  function Reg(r: bv16): nat {
    Polynomials.Nat(r)
  }

  lemma RegIs(r: bv16)
    ensures Reg(r) == r as nat && Reg(r) < 65536
  {
  }

  lemma Doubled(r: bv16)
    ensures 2 * Reg(r) == Reg(Shl(r)) + if Top(r) then 65536 else 0
  {
    if Top(r) {
      DoubledOut(r);
    } else {
      Polynomials.Doubled(r);
    }
  }

  lemma DoubledOut(r: bv16)
    requires r & 0x8000 != 0
    ensures 2 * (r as nat) == (r << 1) as nat + 65536
  {
  }

  lemma XorReg(x: bv16, y: bv16)
    ensures Reg(Xor(x, y)) == Polynomials.Plus(Reg(x), Reg(y))
  {
    hide Polynomials.Plus;
    Polynomials.XorIsPlus(x, y);
  }

  lemma PolyReg()
    ensures Reg(POLY) == 0x1021
  {
  }

  /** One shift is a multiplication by x. */
  lemma ShiftCongruent(r: bv16)
    ensures Polynomials.Congruent(2 * Reg(r), Reg(Shift(r)), GENERATOR)
  {
    hide Reg, Xor, Shl, Top, Polynomials.Plus, Polynomials.Times, Pow2;
    Doubled(r);
    Polynomials.TimesOne(GENERATOR);
    if Top(r) {
      XorReg(Shl(r), POLY);
      PolyReg();
      RegIs(Shl(r));
      Wrapped(Reg(Shl(r)), Reg(Shift(r)));
      assert Polynomials.Differ(2 * Reg(r), Reg(Shift(r)), GENERATOR, 1);
    } else {
      Polynomials.PlusZero(Reg(Shl(r)));
      assert Polynomials.Differ(2 * Reg(r), Reg(Shift(r)), GENERATOR, 0);
    }
  }

  /** The coefficient that goes out and the rest of the generator. */
  lemma Wrapped(low: nat, t: nat)
    requires low < 65536 && t == Polynomials.Plus(low, 0x1021)
    ensures 65536 + low == Polynomials.Plus(GENERATOR, t)
  {
    hide Polynomials.Plus, Pow2;
    GeneratorTerms();
    Polynomials.PlusAdds(1, low, 16);
    Polynomials.PlusAdds(1, 0x1021, 16);
    Polynomials.PlusSym(low, 0x1021);
    Polynomials.PlusAssoc(65536, 0x1021, t);
    Polynomials.PlusTwice(0x1021, low);
  }

  lemma {:induction false} TurnsCongruent(r: bv16, n: nat)
    ensures Polynomials.Congruent(Reg(r) * Pow2(n), Reg(Turns(r, n)), GENERATOR)
  {
    hide Polynomials.Congruent, Reg, Shift;
    if n == 0 {
      Polynomials.CongruentSelf(Reg(r), GENERATOR);
    } else {
      var p := Reg(r) * Pow2(n - 1);
      TurnsCongruent(r, n - 1);
      Polynomials.CongruentDouble(p, Reg(Turns(r, n - 1)), GENERATOR);
      ShiftCongruent(Turns(r, n - 1));
      Polynomials.CongruentJoin(2 * p, 2 * Reg(Turns(r, n - 1)), Reg(Turns(r, n)), GENERATOR);
      Polynomials.Doubles(Reg(r), Pow2(n - 1));
    }
  }

  /** A byte more: the register is multiplied by x^8 and takes it in. */
  lemma UpdateCongruent(m: nat, r: bv16, b: bv8)
    requires Polynomials.Congruent(m, Reg(r), GENERATOR)
    ensures Polynomials.Congruent(Polynomials.Plus(256 * m, Polynomials.Reg(b)), Reg(Update(r, b)), GENERATOR)
  {
    hide Polynomials.Congruent, Polynomials.Plus, Polynomials.Nat, Turns, Xor, Update;
    UpdateIs(r, b);
    XorReg(Zero8(r), b as bv16);
    Powers();
    Polynomials.CongruentShift(m, Reg(r), GENERATOR, 8);
    TurnsCongruent(r, BITS);
    Polynomials.CongruentJoin(256 * m, Reg(r) * 256, Reg(Zero8(r)), GENERATOR);
    Polynomials.CongruentPlus(256 * m, Reg(Zero8(r)), Polynomials.Reg(b), GENERATOR);
  }

  lemma {:induction false} FoldCongruent(s: Bytes)
    ensures Polynomials.Congruent(Polynomials.Number(s), Reg(Register(s)), GENERATOR)
  {
    hide Polynomials.Congruent, Polynomials.Plus, Polynomials.Reg, Update, Reg;
    if s == [] {
      RegIs(0);
      Polynomials.CongruentSelf(0, GENERATOR);
    } else {
      var n := |s| - 1;
      FoldCongruent(s[..n]);
      UpdateCongruent(Polynomials.Number(s[..n]), Register(s[..n]), s[n]);
      Polynomials.NumberNext(s[..n], s[n]);
      assert s[..n] + [s[n]] == s;
    }
  }

  /** The checksum is what the division of the message times x^16 by x^16 + x^12 + x^5 + 1 leaves, and nothing else is. */
  lemma Crc16IsRemainder(s: Bytes, r: nat)
    ensures GENERATOR == Pow2(16) + Pow2(12) + Pow2(5) + Pow2(0)
    ensures Polynomials.IsRemainder(Polynomials.Number(s) * Pow2(16), GENERATOR, 16, r) <==> r == Crc16(s) as nat
  {
    hide Polynomials.Congruent, Fold, Reg, Update, Pow2;
    var m := Polynomials.Number(s) * 65536;
    GeneratorTerms();
    Augmented(s);
    FoldCongruent(s + [0, 0]);
    RegIs(Crc16(s));
    if Polynomials.IsRemainder(m, GENERATOR, 16, r) {
      Polynomials.RemainderUnique(m, GENERATOR, 16, r, Reg(Crc16(s)));
    }
  }

  lemma Augmented(s: Bytes)
    ensures Register(s + [0, 0]) == Crc16(s) && Polynomials.Number(s + [0, 0]) == Polynomials.Number(s) * 65536
  {
    hide Update, Register;
    RegisterTwo(s, 0, 0);
    assert (s + [0, 0])[..|s| + 1] == s + [0] && (s + [0])[..|s|] == s;
  }
}
