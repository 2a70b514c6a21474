/** Flash layout of the key-value store: constants, records, blocks and positions
    (components/kv/kv_types.h, components/kv/kv_conf.h). */
module KvTypes {
  import opened Bits

  const BLOCK_HDR_SIZE: nat := 4
  const ITEM_HDR_SIZE: nat := 8
  const MAX_KEY_LEN: nat := 128
  const MAX_VAL_LEN: nat := 512
  const ITEM_MAX_LEN: nat := ITEM_HDR_SIZE + MAX_KEY_LEN + MAX_VAL_LEN
  const RESERVED_BLOCKS: nat := 1
  const BLOCK_NUMS: nat := 2

  type Bytes = seq<bv8>

  /** `Blank` stands for any header without the magic number or with an unknown state byte. */
  datatype BlockState = Blank | Clean | Used | Dirty

  datatype Item = Item(live: bool, crc: bv8, key: Bytes, val: Bytes, origin: nat)

  /** What one erase block holds: its state byte and the records appended so far. */
  datatype Block = Block(state: BlockState, items: seq<Item>)

  /** The RAM record of one block. */
  datatype Info = Info(state: BlockState, space: nat)

  /** A record's place: block number and index within the block. */
  datatype Ref = Ref(block: nat, index: nat)

  datatype Option<+T> = None | Some(value: T)

  datatype Status = Ok | NoSpace | NotFound | InvalidParam

  /** Block size, alignment and record checksum; positions must fit the 16-bit position type. The store's own
      checksum is `KvCrc.Crc8`; only recovery after damage depends on which one it is. */
  datatype Config = Config(blockSize: nat, align: nat, crc: Bytes -> bv8) {
    ghost predicate Valid() {
      && align > 0
      && BLOCK_HDR_SIZE + ITEM_HDR_SIZE < blockSize
      && BLOCK_NUMS * blockSize < 0x1_0000
    }

    function Align(x: nat): (r: nat)
      requires align > 0
      ensures x <= r < x + align
    {
      var n := (x + align - 1) / align;
      AlignBounds(x, align, n);
      n * align
    }

    static lemma AlignBounds(x: nat, a: nat, n: nat)
      requires a > 0 && n == (x + a - 1) / a
      ensures x <= n * a < x + a
    {
      assert x + a - 1 == a * n + (x + a - 1) % a;
    }

    function Size(item: Item): (r: nat)
      requires align > 0
      ensures r >= ITEM_HDR_SIZE + |item.key| + |item.val|
    {
      Align(ITEM_HDR_SIZE + |item.key| + |item.val|)
    }

    /** Offset of record `i` from the end of the block header. */
    function Off(items: seq<Item>, i: nat): nat
      requires align > 0 && i <= |items|
    {
      if i == 0 then 0 else Off(items, i - 1) + Size(items[i - 1])
    }

    /** First position of block `b`. */
    function Base(b: nat): nat {
      if b == 0 then 0 else blockSize
    }

    /** Position of record `i` of block `b`. */
    function Pos(b: nat, items: seq<Item>, i: nat): nat
      requires align > 0 && i <= |items|
    {
      Base(b) + BLOCK_HDR_SIZE + Off(items, i)
    }

    /** The block a position lies in. */
    function BlockOf(pos: nat): nat
      requires blockSize > 0
    {
      pos / blockSize
    }

    /** The record of block `b` that starts at `pos`, if one does. */
    function FindAt(b: nat, items: seq<Item>, pos: nat, from: nat): (r: Option<nat>)
      requires align > 0 && from <= |items|
      ensures r.Some? ==> from <= r.value < |items| && Pos(b, items, r.value) == pos
      ensures r.None? ==> forall i {:trigger Pos(b, items, i)} :: from <= i < |items| ==> Pos(b, items, i) != pos
      decreases |items| - from
    {
      if from == |items| then None
      else if Pos(b, items, from) == pos then Some(from)
      else FindAt(b, items, pos, from + 1)
    }
  }

  /** `b` is `a` with some records retired and possibly more appended. */
  ghost predicate SameRecords(a: seq<Item>, b: seq<Item>) {
    && |a| <= |b|
    && forall i :: 0 <= i < |a| ==> a[i].(live := true) == b[i].(live := true)
  }

  lemma {:induction false} OffAgree(c: Config, a: seq<Item>, b: seq<Item>, i: nat)
    requires c.align > 0 && SameRecords(a, b) && i <= |a|
    ensures c.Off(a, i) == c.Off(b, i)
  {
    if i > 0 {
      OffAgree(c, a, b, i - 1);
      assert a[i - 1].(live := true) == b[i - 1].(live := true);
    }
  }

  lemma {:induction false} OffIncreases(c: Config, items: seq<Item>, i: nat, j: nat)
    requires c.align > 0 && i <= j <= |items|
    ensures c.Off(items, i) + ITEM_HDR_SIZE * (j - i) <= c.Off(items, j)
    ensures i < j ==> c.Off(items, i) + c.Size(items[i]) <= c.Off(items, j)
    decreases j
  {
    if i < j {
      OffIncreases(c, items, i, j - 1);
    }
  }

  /** Positions name records uniquely within a block. */
  lemma FindAtSelf(c: Config, b: nat, items: seq<Item>, i: nat)
    requires c.align > 0 && i < |items|
    ensures c.FindAt(b, items, c.Pos(b, items, i), 0) == Some(i)
  {
    var r := c.FindAt(b, items, c.Pos(b, items, i), 0);
    if r.Some? && r.value < i {
      OffIncreases(c, items, r.value, i);
    } else if r.Some? && r.value > i {
      OffIncreases(c, items, i, r.value);
    }
  }

  lemma BlockOfPos(c: Config, b: nat, rel: nat)
    requires c.Valid() && b < BLOCK_NUMS && rel < c.blockSize
    ensures c.BlockOf(c.Base(b) + rel) == b
  {
    var x, a := c.Base(b) + rel, c.blockSize;
    var q := x / a;
    if q > b {
      AtLeast(a, q, b + 1);
    }
  }

  lemma AtLeast(a: nat, q: nat, k: nat)
    requires q >= k
    ensures a * q >= a * k
  {
  }

  /** An aligned length is a multiple of the alignment, and the least that will do. */
  lemma AlignMultiple(c: Config, x: nat)
    requires c.align > 0
    ensures c.Align(x) % c.align == 0 && x <= c.Align(x) < x + c.align
  {
    var n := (x + c.align - 1) / c.align;
    Remainder(n * c.align, c.align, n, 0);
  }
}
