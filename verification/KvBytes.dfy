/** Numbers in the bytes of record headers (components/kv/kv_types.h). */
module KvBytes {
  function MaskIf(on: bool, mask: bv8): bv8 {
    if on then mask else 0
  }

  /** A number as a byte, and back. */
  function ByteOf(n: nat): bv8
    requires n < 256
  {
    FromBits(n % 2 == 1, n / 2 % 2 == 1, n / 4 % 2 == 1, n / 8 % 2 == 1,
             n / 16 % 2 == 1, n / 32 % 2 == 1, n / 64 % 2 == 1, n / 128 % 2 == 1)
  }

  function FromBits(b0: bool, b1: bool, b2: bool, b3: bool, b4: bool, b5: bool, b6: bool, b7: bool): bv8 {
    MaskIf(b0, 1) | MaskIf(b1, 2) | MaskIf(b2, 4) | MaskIf(b3, 8)
    | MaskIf(b4, 16) | MaskIf(b5, 32) | MaskIf(b6, 64) | MaskIf(b7, 128)
  }

  function Weight(on: bool, w: nat): nat {
    if on then w else 0
  }

  function NumberOf(b: bv8): nat {
    Weight(b & 1 != 0, 1) + Weight(b & 2 != 0, 2) + Weight(b & 4 != 0, 4) + Weight(b & 8 != 0, 8)
    + Weight(b & 16 != 0, 16) + Weight(b & 32 != 0, 32) + Weight(b & 64 != 0, 64) + Weight(b & 128 != 0, 128)
  }

  lemma BitsBack(b0: bool, b1: bool, b2: bool, b3: bool, b4: bool, b5: bool, b6: bool, b7: bool)
    ensures var b := FromBits(b0, b1, b2, b3, b4, b5, b6, b7);
      && (b & 1 != 0 <==> b0) && (b & 2 != 0 <==> b1) && (b & 4 != 0 <==> b2) && (b & 8 != 0 <==> b3)
      && (b & 16 != 0 <==> b4) && (b & 32 != 0 <==> b5) && (b & 64 != 0 <==> b6) && (b & 128 != 0 <==> b7)
  {
  }

  lemma Halves(n: nat)
    requires n < 256
    ensures n == Weight(n % 2 == 1, 1) + Weight(n / 2 % 2 == 1, 2) + Weight(n / 4 % 2 == 1, 4) + Weight(n / 8 % 2 == 1, 8)
      + Weight(n / 16 % 2 == 1, 16) + Weight(n / 32 % 2 == 1, 32) + Weight(n / 64 % 2 == 1, 64) + Weight(n / 128 % 2 == 1, 128)
  {
    Halve(n, 1);
    Halve(n, 2);
    Halve(n, 4);
    Halve(n, 8);
    Halve(n, 16);
    Halve(n, 32);
    Halve(n, 64);
  }

  /** One binary digit split off. */
  lemma Halve(n: nat, k: nat)
    requires k == 1 || k == 2 || k == 4 || k == 8 || k == 16 || k == 32 || k == 64
    ensures n / k * k == n / (2 * k) * (2 * k) + Weight(n / k % 2 == 1, k)
  {
    assert n / (2 * k) == n / k / 2;
  }

  lemma ByteBack(n: nat)
    requires n < 256
    ensures NumberOf(ByteOf(n)) == n
  {
    hide FromBits, Weight;
    BitsBack(n % 2 == 1, n / 2 % 2 == 1, n / 4 % 2 == 1, n / 8 % 2 == 1,
             n / 16 % 2 == 1, n / 32 % 2 == 1, n / 64 % 2 == 1, n / 128 % 2 == 1);
    Halves(n);
  }

  function Le16(n: nat): (r: seq<bv8>)
    ensures |r| == 2
  {
    [ByteOf(n % 256), ByteOf(n / 256 % 256)]
  }

  function FromLe16(lo: bv8, hi: bv8): nat {
    NumberOf(lo) + 256 * NumberOf(hi)
  }

  lemma Le16Back(n: nat)
    requires n < 0x1_0000
    ensures FromLe16(Le16(n)[0], Le16(n)[1]) == n
  {
    hide ByteOf, NumberOf;
    ByteBack(n % 256);
    ByteBack(n / 256 % 256);
    assert n / 256 < 256 && n == n % 256 + 256 * (n / 256);
  }
}
