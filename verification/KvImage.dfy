/** The bytes behind the records (components/kv/kv_types.h): what a block looks like on flash, which writes change it
    into what, and that no write needs a bit to go from 0 to 1. */
module KvImage {
  import opened Flats
  import opened KvBytes
  import opened KvTypes
  import opened KvRefinement
  import opened KvRecovery

  const BLOCK_MAGIC: bv8 := 0x4B
  const ITEM_MAGIC: bv8 := 0x49
  const ERASED: bv8 := 0xFF

  function ItemState(live: bool): bv8 {
    if live then 0xEE else 0x00
  }

  function StateByte(state: BlockState): bv8 {
    match state
    case Blank => ERASED
    case Clean => 0xEE
    case Used => 0xCC
    case Dirty => 0x44
  }

  function Fill(b: bv8, n: nat): (r: Bytes)
    ensures |r| == n && forall i :: 0 <= i < n ==> r[i] == b
  {
    seq(n, _ => b)
  }

  function Header(item: Item): (r: Bytes)
    ensures |r| == ITEM_HDR_SIZE
  {
    [ITEM_MAGIC, ItemState(item.live), item.crc, ByteOf(|item.key| % 256)] + Le16(|item.val|) + Le16(item.origin)
  }

  function Record(c: Config, item: Item): (r: Bytes)
    requires c.align > 0
    ensures |r| == c.Size(item)
  {
    Header(item) + item.key + item.val + Fill(0, c.Size(item) - ITEM_HDR_SIZE - |item.key| - |item.val|)
  }

  function Recorder(c: Config): Item -> Bytes {
    item => if c.align > 0 then Record(c, item) else []
  }

  function Records(c: Config, items: seq<Item>): (r: Bytes)
    requires c.align > 0
    ensures |r| == c.Off(items, |items|)
  {
    RecordsLength(c, items);
    Flat(Recorder(c), items)
  }

  lemma {:induction false} RecordsLength(c: Config, items: seq<Item>)
    requires c.align > 0
    ensures |Flat(Recorder(c), items)| == c.Off(items, |items|)
  {
    if items != [] {
      var n := |items| - 1;
      RecordsLength(c, items[..n]);
      OffAgree(c, items[..n], items, n);
    }
  }

  ghost predicate HasRoom(c: Config, items: seq<Item>) {
    c.Valid() && c.Off(items, |items|) < c.blockSize - BLOCK_HDR_SIZE
  }

  function BlockHeader(state: BlockState): (r: Bytes)
    ensures |r| == BLOCK_HDR_SIZE
  {
    [BLOCK_MAGIC, StateByte(state), 0, 0]
  }

  /** The bytes of a block with a written header. */
  function Image(c: Config, b: Block): (r: Bytes)
    requires HasRoom(c, b.items)
    ensures |r| == c.blockSize
  {
    BlockHeader(b.state) + Records(c, b.items)
      + Fill(ERASED, c.blockSize - BLOCK_HDR_SIZE - c.Off(b.items, |b.items|))
  }

  // ---------------------------------------------------------------------------------------------
  // Writes only clear bits

  /** Flash can be programmed from `a` to `b` without an erase. */
  ghost predicate Clears(a: Bytes, b: Bytes) {
    |a| == |b| && forall i :: 0 <= i < |a| ==> a[i] & b[i] == b[i]
  }

  lemma ErasedTakesAnything(x: bv8)
    ensures ERASED & x == x && x & x == x && x & 0 == 0
  {
  }

  lemma ClearsSelf(a: Bytes)
    ensures Clears(a, a)
  {
    forall i | 0 <= i < |a| ensures a[i] & a[i] == a[i] {
      ErasedTakesAnything(a[i]);
    }
  }

  lemma ClearsErased(n: nat, b: Bytes)
    requires |b| == n
    ensures Clears(Fill(ERASED, n), b)
  {
    forall i | 0 <= i < n ensures ERASED & b[i] == b[i] {
      ErasedTakesAnything(b[i]);
    }
  }

  lemma ClearsJoin(a: Bytes, b: Bytes, x: Bytes, y: Bytes)
    requires Clears(a, b) && Clears(x, y)
    ensures Clears(a + x, b + y)
  {
  }

  /** A state byte is rewritten along 0xEE, 0xCC, 0x44 only. */
  ghost predicate StateStep(a: BlockState, b: BlockState) {
    a == b || (a == Clean && (b == Used || b == Dirty)) || (a == Used && b == Dirty)
  }

  lemma HeaderClears(a: BlockState, b: BlockState)
    requires StateStep(a, b)
    ensures Clears(BlockHeader(a), BlockHeader(b))
  {
    assert (0xEE as bv8) & 0xCC == 0xCC && (0xEE as bv8) & 0x44 == 0x44 && (0xCC as bv8) & 0x44 == 0x44;
    if a == b {
      ClearsSelf(BlockHeader(a));
    } else {
      ErasedTakesAnything(BLOCK_MAGIC);
    }
  }

  lemma RecordClears(c: Config, a: Item, b: Item)
    requires c.align > 0 && (b == a || b == a.(live := false))
    ensures Clears(Record(c, a), Record(c, b))
  {
    hide Record, Clears;
    ClearsSelf(Record(c, a));
    RecordBytes(c, a);
    ErasedTakesAnything(Record(c, a)[1]);
    RewriteClears(Record(c, a), 1, 0);
    if b != a {
      assert Record(c, b) == Record(c, a)[1 := 0];
    }
  }

  lemma {:induction false} RecordsClear(c: Config, a: seq<Item>, b: seq<Item>)
    requires c.align > 0 && |a| == |b| && Retires(a, b)
    ensures Clears(Records(c, a), Records(c, b))
  {
    if a != [] {
      var n := |a| - 1;
      RecordsClear(c, a[..n], b[..n]);
      RecordClears(c, a[n], b[n]);
      ClearsJoin(Records(c, a[..n]), Records(c, b[..n]), Record(c, a[n]), Record(c, b[n]));
    }
  }

  /** A block with records retired, records appended and its state stepped on. */
  ghost predicate BlockStep(a: Block, b: Block) {
    && StateStep(a.state, b.state)
    && |a.items| <= |b.items| && Retires(a.items, b.items[..|a.items|])
  }

  function Free(c: Config, items: seq<Item>): (r: nat)
    requires HasRoom(c, items)
  {
    c.blockSize - BLOCK_HDR_SIZE - c.Off(items, |items|)
  }

  lemma ImageWhole(c: Config, b: Block)
    requires HasRoom(c, b.items)
    ensures Image(c, b) == BlockHeader(b.state) + Records(c, b.items) + Fill(ERASED, Free(c, b.items))
  {
  }

  lemma ImageSplit(c: Config, b: Block, n: nat)
    requires HasRoom(c, b.items) && n <= |b.items|
    ensures var kept, more := Records(c, b.items[..n]), Records(c, b.items[n..]);
      && |kept| + |more| + Free(c, b.items) == c.blockSize - BLOCK_HDR_SIZE
      && Image(c, b) == BlockHeader(b.state) + (kept + more) + Fill(ERASED, Free(c, b.items))
  {
    RecordsSplit(c, b.items, n);
  }

  lemma RecordsSplit(c: Config, items: seq<Item>, n: nat)
    requires c.align > 0 && n <= |items|
    ensures Records(c, items) == Records(c, items[..n]) + Records(c, items[n..])
  {
    hide ByteOf, Le16;
    FlatAppend(Recorder(c), items[..n], items[n..]);
    assert items == items[..n] + items[n..];
  }

  /** Every such change is made by clearing bits. */
  lemma StepClears(c: Config, a: Block, b: Block)
    requires BlockStep(a, b) && HasRoom(c, a.items) && HasRoom(c, b.items)
    ensures Clears(Image(c, a), Image(c, b))
  {
    hide Clears, Image, Records, Fill, BlockHeader, StateStep;
    var n := |a.items|;
    ImageWhole(c, a);
    ImageSplit(c, b, n);
    OldRecordsClear(c, a, b.items[..n]);
    var more, free := Records(c, b.items[n..]), Free(c, b.items);
    ClearsErased(|more| + free, more + Fill(ERASED, free));
    HeaderClears(a.state, b.state);
    ClearsThree(BlockHeader(a.state), Records(c, a.items), Fill(ERASED, Free(c, a.items)),
                BlockHeader(b.state), Records(c, b.items[..n]), more, Fill(ERASED, free));
  }

  lemma OldRecordsClear(c: Config, a: Block, kept: seq<Item>)
    requires HasRoom(c, a.items) && |kept| == |a.items| && Retires(a.items, kept)
    ensures Clears(Records(c, a.items), Records(c, kept))
    ensures |Records(c, kept)| + Free(c, a.items) == c.blockSize - BLOCK_HDR_SIZE
  {
    RecordsClear(c, a.items, kept);
    RetiresSpace(c, a.items, kept);
  }

  lemma ClearsThree(h: Bytes, r: Bytes, e: Bytes, h': Bytes, r': Bytes, m: Bytes, f: Bytes)
    requires Clears(h, h') && Clears(r, r') && Clears(e, m + f)
    ensures Clears(h + r + e, h' + (r' + m) + f)
  {
    ClearsJoin(h, h', r, r');
    ClearsJoin(h + r, h' + r', e, m + f);
    assert h' + (r' + m) + f == (h' + r') + (m + f);
  }

  /** A record written at the write position lands on erased bytes and changes nothing else. */
  lemma WriteLandsOnErased(c: Config, b: Block, item: Item)
    requires HasRoom(c, b.items + [item])
    ensures c.Off(b.items + [item], |b.items|) == c.Off(b.items, |b.items|) && HasRoom(c, b.items)
    ensures var pos, len := BLOCK_HDR_SIZE + c.Off(b.items, |b.items|), c.Size(item);
      && pos + len <= c.blockSize
      && Image(c, b)[pos..pos + len] == Fill(ERASED, len)
      && Image(c, b.(items := b.items + [item])) == Image(c, b)[..pos] + Record(c, item) + Image(c, b)[pos + len..]
  {
    hide ByteOf, Le16, ItemState, FromBits, MaskIf, Flat, SameRecords;
    OffAgree(c, b.items, b.items + [item], |b.items|);
    FlatLast(Recorder(c), b.items, item);
  }

  // ---------------------------------------------------------------------------------------------
  // Single flash operations

  /** What the flash driver is asked to do: erase a block, write where everything is erased, rewrite one byte. */
  datatype FlashOp = Erase(block: nat) | Append(block: nat, at: nat, data: Bytes) | Rewrite(block: nat, at: nat, byte: bv8)

  /** The two blocks of flash, byte by byte. */
  type Flash = seq<Bytes>

  /** What flash memory can do: only an erase sets bits, and a write that is not a rewrite finds erased bytes. */
  ghost predicate Allowed(mem: Flash, op: FlashOp) {
    op.block < |mem| &&
    match op
    case Erase(b) => true
    case Append(b, at, data) => at + |data| <= |mem[b]| && forall i :: at <= i < at + |data| ==> mem[b][i] == ERASED
    case Rewrite(b, at, x) => at < |mem[b]| && mem[b][at] & x == x
  }

  function Played(mem: Flash, op: FlashOp): (r: Flash)
    ensures |r| == |mem| && forall b :: 0 <= b < |mem| ==> |r[b]| == |mem[b]|
  {
    match op
    case Erase(b) => if b < |mem| then mem[b := Fill(ERASED, |mem[b]|)] else mem
    case Append(b, at, data) =>
      if b < |mem| && at + |data| <= |mem[b]| then mem[b := mem[b][..at] + data + mem[b][at + |data|..]] else mem
    case Rewrite(b, at, x) => if b < |mem| && at < |mem[b]| then mem[b := mem[b][at := x]] else mem
  }

  ghost function PlayedAll(mem: Flash, ops: seq<FlashOp>): Flash {
    if ops == [] then mem else Played(PlayedAll(mem, ops[..|ops| - 1]), ops[|ops| - 1])
  }

  /** All of them are allowed, one after the other, and lead to `now`. */
  ghost predicate Fair(mem: Flash, ops: seq<FlashOp>, now: Flash) {
    if ops == [] then now == mem
    else
      var front, op := ops[..|ops| - 1], ops[|ops| - 1];
      var before := PlayedAll(mem, front);
      Fair(mem, front, before) && Allowed(before, op) && now == Played(before, op)
  }

  lemma {:induction false} FairPlays(mem: Flash, ops: seq<FlashOp>, now: Flash)
    requires Fair(mem, ops, now)
    ensures now == PlayedAll(mem, ops)
  {
  }

  lemma FairNext(mem: Flash, ops: seq<FlashOp>, now: Flash, op: FlashOp)
    requires Fair(mem, ops, now) && Allowed(now, op)
    ensures Fair(mem, ops + [op], Played(now, op))
  {
    hide Allowed, Played;
    FairPlays(mem, ops, now);
    assert (ops + [op])[..|ops|] == ops;
  }

  /** Each single operation finds the flash, as the ones before it have left it, in a state that allows it. */
  lemma {:induction false} EachAllowed(mem: Flash, ops: seq<FlashOp>, now: Flash, k: nat)
    requires Fair(mem, ops, now) && k < |ops|
    ensures Allowed(PlayedAll(mem, ops[..k]), ops[k])
    decreases |ops|
  {
    hide Allowed, Played;
    var front := ops[..|ops| - 1];
    if k < |ops| - 1 {
      EachAllowed(mem, front, PlayedAll(mem, front), k);
      assert front[..k] == ops[..k];
    }
  }

  /** A write that is no erase only clears bits. */
  lemma AllowedClears(mem: Flash, op: FlashOp, b: nat)
    requires Allowed(mem, op) && b < |mem|
    ensures Clears(mem[b], Played(mem, op)[b]) || op == Erase(b)
  {
    hide Clears;
    ClearsSelf(mem[b]);
    if op.block == b {
      match op
      case Erase(_) =>
      case Append(_, at, data) => AppendClears(mem[b], at, data);
      case Rewrite(_, at, x) => RewriteClears(mem[b], at, x);
    }
  }

  lemma AppendClears(bytes: Bytes, at: nat, data: Bytes)
    requires at + |data| <= |bytes| && forall i :: at <= i < at + |data| ==> bytes[i] == ERASED
    ensures Clears(bytes, bytes[..at] + data + bytes[at + |data|..])
  {
    hide Clears;
    assert bytes[at..at + |data|] == Fill(ERASED, |data|);
    ClearsErased(|data|, data);
    ClearsSelf(bytes[..at]);
    ClearsSelf(bytes[at + |data|..]);
    ClearsJoin(bytes[..at], bytes[..at], bytes[at..at + |data|], data);
    ClearsJoin(bytes[..at] + bytes[at..at + |data|], bytes[..at] + data, bytes[at + |data|..], bytes[at + |data|..]);
    assert bytes == bytes[..at] + bytes[at..at + |data|] + bytes[at + |data|..];
  }

  lemma RewriteClears(bytes: Bytes, at: nat, x: bv8)
    requires at < |bytes| && bytes[at] & x == x
    ensures Clears(bytes, bytes[at := x])
  {
    forall i | 0 <= i < |bytes| && i != at ensures bytes[i] & bytes[i] == bytes[i] {
      ErasedTakesAnything(bytes[i]);
    }
  }

  // ---------------------------------------------------------------------------------------------
  // The image of the model

  /** Every block with a valid header has the bytes its records stand for. */
  ghost predicate Mirrors(c: Config, flash: seq<Block>, mem: Flash) {
    && |flash| == BLOCK_NUMS == |mem|
    && forall b :: 0 <= b < BLOCK_NUMS ==> MirrorsBlock(c, flash[b], mem[b])
  }

  ghost predicate MirrorsBlock(c: Config, block: Block, bytes: Bytes) {
    HasRoom(c, block.items) && |bytes| == c.blockSize && (block.state != Blank ==> bytes == Image(c, block))
  }

  lemma MirrorsWith(c: Config, flash: seq<Block>, mem: Flash, b: nat, block: Block, bytes: Bytes)
    requires Mirrors(c, flash, mem) && b < BLOCK_NUMS && MirrorsBlock(c, block, bytes)
    ensures Mirrors(c, flash[b := block], mem[b := bytes])
  {
    hide MirrorsBlock;
  }

  /** Its state byte moved on. */
  lemma StateRewritten(c: Config, block: Block, bytes: Bytes, state: BlockState)
    requires MirrorsBlock(c, block, bytes) && block.state != Blank && state != Blank && StateStep(block.state, state)
    ensures bytes[1] & StateByte(state) == StateByte(state)
    ensures MirrorsBlock(c, block.(state := state), bytes[1 := StateByte(state)])
  {
    hide ByteOf, Le16, Records;
    var next := block.(state := state);
    HeaderClears(block.state, state);
    assert bytes[1] == BlockHeader(block.state)[1] == StateByte(block.state);
    assert BlockHeader(block.state)[1] & BlockHeader(state)[1] == BlockHeader(state)[1];
    assert bytes[1 := StateByte(state)] == Image(c, next);
  }

  /** Its record `i` retired. */
  lemma RecordRetired(c: Config, block: Block, bytes: Bytes, i: nat)
    requires MirrorsBlock(c, block, bytes) && i < |block.items|
    ensures var at := BLOCK_HDR_SIZE + c.Off(block.items, i) + 1;
      && at < |bytes| && bytes[at] & 0 == 0
      && MirrorsBlock(c, block.(items := Cleared(block.items, i)), bytes[at := 0])
  {
    hide ByteOf, Le16, Records, Image;
    var items, next := block.items, Cleared(block.items, i);
    OffIncreases(c, items, i, |items|);
    RetiresSpace(c, items, next);
    var at := BLOCK_HDR_SIZE + c.Off(items, i) + 1;
    ErasedTakesAnything(bytes[at]);
    if block.state != Blank {
      RetiredRecords(c, items, i);
      ImageWith(c, block, next, c.Off(items, i) + 1);
    }
  }

  /** The image of a block whose records differ in one byte. */
  lemma ImageWith(c: Config, block: Block, next: seq<Item>, k: nat)
    requires HasRoom(c, block.items) && HasRoom(c, next) && k < c.Off(block.items, |block.items|) == c.Off(next, |next|)
    requires Records(c, next) == Records(c, block.items)[k := 0]
    ensures Image(c, block.(items := next)) == Image(c, block)[BLOCK_HDR_SIZE + k := 0]
  {
    hide Records, BlockHeader;
    var h, r, f := BlockHeader(block.state), Records(c, block.items), Fill(ERASED, Free(c, block.items));
    assert (h + r + f)[BLOCK_HDR_SIZE + k := 0] == h + r[k := 0] + f;
  }

  lemma RetiredRecords(c: Config, items: seq<Item>, i: nat)
    requires c.align > 0 && i < |items|
    ensures var k, next := c.Off(items, i) + 1, Cleared(items, i);
      && k < c.Off(items, |items|) && Records(c, next) == Records(c, items)[k := 0]
  {
    hide Records, Record;
    var next := Cleared(items, i);
    OffIncreases(c, items, i, |items|);
    OffAgree(c, items[..i], items, i);
    RecordsParts(c, items, i);
    RecordsParts(c, next, i);
    assert next[..i] == items[..i] && next[i + 1..] == items[i + 1..];
    RecordBytes(c, items[i]);
  }

  lemma RecordsParts(c: Config, items: seq<Item>, i: nat)
    requires c.align > 0 && i < |items|
    ensures Records(c, items) == Records(c, items[..i]) + Record(c, items[i]) + Records(c, items[i + 1..])
  {
    hide Record, Le16, ByteOf;
    RecordsSplit(c, items, i);
    RecordsSplit(c, items[i..], 1);
    assert items[i..][..1] == [items[i]] && items[i..][1..] == items[i + 1..];
    FlatLast(Recorder(c), [], items[i]);
    assert [] + [items[i]] == [items[i]] && Flat(Recorder(c), []) == [];
  }

  lemma RecordBytes(c: Config, item: Item)
    requires c.align > 0
    ensures |Record(c, item)| > 1 && Record(c, item.(live := false)) == Record(c, item)[1 := 0]
  {
    hide ByteOf, Le16;
  }

  /** A record appended. */
  lemma RecordAppended(c: Config, block: Block, bytes: Bytes, item: Item)
    requires MirrorsBlock(c, block, bytes) && block.state != Blank && HasRoom(c, block.items + [item])
    ensures var at, data := BLOCK_HDR_SIZE + c.Off(block.items, |block.items|), Record(c, item);
      && at + |data| <= |bytes| && (forall i :: at <= i < at + |data| ==> bytes[i] == ERASED)
      && MirrorsBlock(c, block.(items := block.items + [item]), bytes[..at] + data + bytes[at + |data|..])
  {
    hide ByteOf, Le16, Record, Image;
    WriteLandsOnErased(c, block, item);
    var at, data := BLOCK_HDR_SIZE + c.Off(block.items, |block.items|), Record(c, item);
    forall i | at <= i < at + |data| ensures bytes[i] == ERASED {
      assert bytes[i] == bytes[at..at + |data|][i - at];
    }
  }

  /** Erased, and its header written. */
  lemma Formatted(c: Config, n: nat)
    requires c.Valid() && n == c.blockSize
    ensures var header := BlockHeader(Clean);
      MirrorsBlock(c, Block(Clean, []), Fill(ERASED, n)[..0] + header + Fill(ERASED, n)[|header|..])
  {
  }
}
