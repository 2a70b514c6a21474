/** `kv_item_traverse` on the bytes of a block (components/kv/kv.c). */
module KvTraverse {
  import opened KvBytes
  import opened KvTypes
  import opened KvModel
  import opened KvImage

  /** What the traversal hands to its callback, or skips when `live` is false. */
  datatype Head = Head(pos: nat, live: bool, crc: bv8, keyLen: nat, valLen: nat, origin: nat)

  function HeadAt(bytes: Bytes, pos: nat): Head
    requires pos + ITEM_HDR_SIZE <= |bytes|
  {
    Head(pos, bytes[pos + 1] == ItemState(true), bytes[pos + 2], NumberOf(bytes[pos + 3]),
         FromLe16(bytes[pos + 4], bytes[pos + 5]), FromLe16(bytes[pos + 6], bytes[pos + 7]))
  }

  predicate IsErased(bytes: Bytes, pos: nat)
    requires pos + ITEM_HDR_SIZE <= |bytes|
  {
    bytes[pos] == ERASED && bytes[pos + 1] == ERASED
  }

  predicate IsRecord(bytes: Bytes, pos: nat)
    requires pos + ITEM_HDR_SIZE <= |bytes|
  {
    var h := HeadAt(bytes, pos);
    bytes[pos] == ITEM_MAGIC && 0 < h.keyLen <= MAX_KEY_LEN && 0 < h.valLen <= MAX_VAL_LEN
  }

  function RecordLen(c: Config, h: Head): nat
    requires c.align > 0
  {
    c.Align(ITEM_HDR_SIZE + h.keyLen + h.valLen)
  }

  function SpaceAt(c: Config, pos: nat): nat {
    if c.blockSize > pos then c.blockSize - pos else ITEM_HDR_SIZE
  }

  function Found(bytes: Bytes, pos: nat): seq<Head>
    requires pos + ITEM_HDR_SIZE <= |bytes|
  {
    if IsRecord(bytes, pos) then [HeadAt(bytes, pos)] else []
  }

  /** A header that is neither erased nor a record is stepped over. */
  function NextPos(c: Config, bytes: Bytes, pos: nat): (r: nat)
    requires c.align > 0 && pos + ITEM_HDR_SIZE <= |bytes|
    ensures r > pos
  {
    if IsRecord(bytes, pos) then pos + RecordLen(c, HeadAt(bytes, pos)) else pos + ITEM_HDR_SIZE
  }

  function Prepend(heads: seq<Head>, r: (seq<Head>, nat)): (seq<Head>, nat) {
    (heads + r.0, r.1)
  }

  /** The records found from `pos` on and the free space recorded at the end. */
  function ParseFrom(c: Config, bytes: Bytes, pos: nat): (seq<Head>, nat)
    requires c.Valid() && |bytes| == c.blockSize && pos + ITEM_HDR_SIZE <= c.blockSize
    decreases c.blockSize - pos
  {
    if IsErased(bytes, pos) then ([], SpaceAt(c, pos))
    else
      var next := NextPos(c, bytes, pos);
      if c.blockSize > next + ITEM_HDR_SIZE then Prepend(Found(bytes, pos), ParseFrom(c, bytes, next))
      else (Found(bytes, pos), SpaceAt(c, next))
  }

  lemma PrependTwice(heads: seq<Head>, found: seq<Head>, r: (seq<Head>, nat))
    ensures Prepend(heads, Prepend(found, r)) == Prepend(heads + found, r)
  {
    assert heads + (found + r.0) == heads + found + r.0;
  }

  lemma PrependNone(r: (seq<Head>, nat))
    ensures Prepend([], r) == r
  {
    assert [] + r.0 == r.0;
  }

  method Traverse(c: Config, bytes: Bytes) returns (heads: seq<Head>, space: nat)
    requires c.Valid() && |bytes| == c.blockSize
    ensures (heads, space) == ParseFrom(c, bytes, BLOCK_HDR_SIZE)
  {
    hide Weight, Inv, FromLe16, NumberOf, IsRecord, RecordLen;
    var pos: nat, end, more := BLOCK_HDR_SIZE, c.blockSize, true;
    heads := [];
    PrependNone(ParseFrom(c, bytes, pos));
    while more
      invariant more ==> pos + ITEM_HDR_SIZE <= end
                         && ParseFrom(c, bytes, BLOCK_HDR_SIZE) == Prepend(heads, ParseFrom(c, bytes, pos))
      invariant !more ==> ParseFrom(c, bytes, BLOCK_HDR_SIZE) == (heads, SpaceAt(c, pos))
      decreases more, end - pos
    {
      if IsErased(bytes, pos) {
        assert heads + [] == heads;
        break;
      }
      ghost var before, found := heads, Found(bytes, pos);
      if IsRecord(bytes, pos) {
        var h := HeadAt(bytes, pos);
        heads := heads + [h];
        pos := pos + RecordLen(c, h);
      } else {
        pos := pos + ITEM_HDR_SIZE;
      }
      assert heads == before + found;
      more := end > pos + ITEM_HDR_SIZE;
      if more {
        PrependTwice(before, found, ParseFrom(c, bytes, pos));
      }
    }
    space := if end > pos then end - pos else ITEM_HDR_SIZE;
  }

  // ---------------------------------------------------------------------------------------------
  // Traversing what was written

  function HeadOf(c: Config, items: seq<Item>, i: nat): Head
    requires c.align > 0 && i < |items|
  {
    var item := items[i];
    Head(BLOCK_HDR_SIZE + c.Off(items, i), item.live, item.crc, |item.key|, |item.val|, item.origin)
  }

  function HeadsFrom(c: Config, items: seq<Item>, i: nat): (r: seq<Head>)
    requires c.align > 0 && i <= |items|
    ensures |r| == |items| - i
    decreases |items| - i
  {
    if i == |items| then [] else [HeadOf(c, items, i)] + HeadsFrom(c, items, i + 1)
  }

  /** The bytes of record `i` are where its position says. */
  lemma RecordAt(c: Config, b: Block, i: nat)
    requires HasRoom(c, b.items) && i < |b.items|
    ensures var pos, len := BLOCK_HDR_SIZE + c.Off(b.items, i), c.Size(b.items[i]);
      pos + len < c.blockSize && Image(c, b)[pos..pos + len] == Record(c, b.items[i])
  {
    hide Image, Record, Records, Fill, BlockHeader;
    OffIncreases(c, b.items, i, |b.items|);
    ImageAround(c, b, i);
    OffAgree(c, b.items[..i], b.items, i);
    Middle(BlockHeader(b.state) + Records(c, b.items[..i]), Record(c, b.items[i]),
           Records(c, b.items[i + 1..]) + Fill(ERASED, Free(c, b.items)), Image(c, b));
  }

  lemma ImageAround(c: Config, b: Block, i: nat)
    requires HasRoom(c, b.items) && i < |b.items|
    ensures Image(c, b) == BlockHeader(b.state) + Records(c, b.items[..i])
                           + (Record(c, b.items[i]) + (Records(c, b.items[i + 1..]) + Fill(ERASED, Free(c, b.items))))
  {
    hide Record, Records, Fill, BlockHeader;
    RecordsParts(c, b.items, i);
    Regroup(BlockHeader(b.state), Records(c, b.items[..i]), Record(c, b.items[i]), Records(c, b.items[i + 1..]),
            Fill(ERASED, Free(c, b.items)));
  }

  lemma Regroup(h: Bytes, r: Bytes, x: Bytes, y: Bytes, f: Bytes)
    ensures h + (r + (x + y)) + f == h + r + (x + (y + f))
  {
  }

  lemma Middle(before: Bytes, x: Bytes, after: Bytes, whole: Bytes)
    requires whole == before + (x + after)
    ensures whole[|before|..|before| + |x|] == x
  {
  }

  lemma HeaderRead(c: Config, item: Item)
    requires c.align > 0 && |item.key| < 256 && |item.val| < 0x1_0000 && item.origin < 0x1_0000
    ensures HeadAt(Record(c, item), 0) == Head(0, item.live, item.crc, |item.key|, |item.val|, item.origin)
    ensures Record(c, item)[0] == ITEM_MAGIC
  {
    hide ByteOf, NumberOf, Le16, FromLe16, Header;
    HeaderBytes(item);
    HeaderFirst(c, item);
    ByteBack(|item.key| % 256);
    Le16Back(|item.val|);
    Le16Back(item.origin);
  }

  lemma HeaderBytes(item: Item)
    ensures var h := Header(item);
      && h[0] == ITEM_MAGIC && h[1] == ItemState(item.live) && h[2] == item.crc && h[3] == ByteOf(|item.key| % 256)
      && h[4] == Le16(|item.val|)[0] && h[5] == Le16(|item.val|)[1]
      && h[6] == Le16(item.origin)[0] && h[7] == Le16(item.origin)[1]
  {
    hide ByteOf, Le16;
  }

  lemma HeaderFirst(c: Config, item: Item)
    requires c.align > 0
    ensures forall k :: 0 <= k < ITEM_HDR_SIZE ==> Record(c, item)[k] == Header(item)[k]
  {
    hide Header;
  }

  lemma HeadAtRecord(c: Config, b: Block, i: nat)
    requires HasRoom(c, b.items) && i < |b.items| && Sane(c, b.items[i])
    ensures var pos := BLOCK_HDR_SIZE + c.Off(b.items, i);
      && pos + ITEM_HDR_SIZE <= c.blockSize
      && !IsErased(Image(c, b), pos) && IsRecord(Image(c, b), pos)
      && HeadAt(Image(c, b), pos) == HeadOf(c, b.items, i)
    ensures HeadThere(c, Image(c, b), b.items, i)
  {
    hide Image, Record, HeadAt, IsErased, IsRecord;
    var pos, len := BLOCK_HDR_SIZE + c.Off(b.items, i), c.Size(b.items[i]);
    RecordAt(c, b, i);
    RecordHead(c, b.items[i]);
    SameHead(Image(c, b), pos, Record(c, b.items[i]));
  }

  lemma RecordHead(c: Config, item: Item)
    requires c.Valid() && Sane(c, item)
    ensures var r := Record(c, item);
      && |r| >= ITEM_HDR_SIZE && !IsErased(r, 0) && IsRecord(r, 0)
      && HeadAt(r, 0) == Head(0, item.live, item.crc, |item.key|, |item.val|, item.origin)
  {
    hide Record, ByteOf, NumberOf;
    HeaderRead(c, item);
  }

  /** The header is read from the bytes that are there. */
  lemma SameHead(bytes: Bytes, pos: nat, part: Bytes)
    requires |part| >= ITEM_HDR_SIZE && pos + |part| <= |bytes| && bytes[pos..pos + |part|] == part
    ensures IsErased(bytes, pos) == IsErased(part, 0) && IsRecord(bytes, pos) == IsRecord(part, 0)
    ensures HeadAt(bytes, pos) == HeadAt(part, 0).(pos := pos)
  {
    hide NumberOf, FromLe16;
    forall k | 0 <= k < ITEM_HDR_SIZE ensures bytes[pos + k] == part[k] {
      assert bytes[pos + k] == bytes[pos..pos + |part|][k];
    }
  }

  function At(c: Config, items: seq<Item>, i: nat): nat
    requires c.align > 0 && i <= |items|
  {
    BLOCK_HDR_SIZE + c.Off(items, i)
  }

  ghost predicate HeadThere(c: Config, bytes: Bytes, items: seq<Item>, i: nat)
    requires HasRoom(c, items) && i < |items| && |bytes| == c.blockSize
  {
    && At(c, items, i) + ITEM_HDR_SIZE <= c.blockSize
    && !IsErased(bytes, At(c, items, i)) && IsRecord(bytes, At(c, items, i))
    && HeadAt(bytes, At(c, items, i)) == HeadOf(c, items, i)
  }

  ghost predicate ErasedThere(c: Config, bytes: Bytes, pos: nat)
    requires |bytes| == c.blockSize
  {
    pos + ITEM_HDR_SIZE <= c.blockSize ==> IsErased(bytes, pos)
  }

  lemma ErasedTail(c: Config, b: Block)
    requires HasRoom(c, b.items)
    ensures ErasedThere(c, Image(c, b), At(c, b.items, |b.items|))
  {
  }

  /** From the position of record `i` on, the traversal finds the records from `i` on, in write order, and the free
      space that the books say. */
  lemma {:induction false} ParseHeads(c: Config, bytes: Bytes, items: seq<Item>, i: nat)
    requires HasRoom(c, items) && |bytes| == c.blockSize && i <= |items|
    requires forall k :: 0 <= k < |items| ==> HeadThere(c, bytes, items, k)
    requires ErasedThere(c, bytes, At(c, items, |items|))
    requires At(c, items, i) + ITEM_HDR_SIZE <= c.blockSize
    ensures ParseFrom(c, bytes, At(c, items, i)) == (HeadsFrom(c, items, i), Free(c, items))
    decreases |items| - i
  {
    if i == |items| {
      ParseErased(c, bytes, At(c, items, i));
    } else {
      assert HeadThere(c, bytes, items, i);
      if c.blockSize > At(c, items, i + 1) + ITEM_HDR_SIZE {
        ParseHeads(c, bytes, items, i + 1);
      }
      ParseNext(c, bytes, items, i);
    }
  }

  lemma AllHeads(c: Config, b: Block)
    requires HasRoom(c, b.items) && AllSane(c, b.items)
    ensures forall k :: 0 <= k < |b.items| ==> HeadThere(c, Image(c, b), b.items, k)
  {
    hide Image, HeadThere;
    forall k | 0 <= k < |b.items| ensures HeadThere(c, Image(c, b), b.items, k) {
      HeadAtRecord(c, b, k);
    }
  }

  /** A traversal of the bytes of a block finds exactly its records and its free space. */
  lemma ParseFinds(c: Config, b: Block)
    requires HasRoom(c, b.items) && AllSane(c, b.items)
    ensures ParseFrom(c, Image(c, b), BLOCK_HDR_SIZE) == (HeadsFrom(c, b.items, 0), Free(c, b.items))
  {
    hide Image, ParseFrom, HeadThere, HeadsFrom, Sane, IsErased;
    AllHeads(c, b);
    ErasedTail(c, b);
    ParseHeads(c, Image(c, b), b.items, 0);
  }

  lemma ParseErased(c: Config, bytes: Bytes, pos: nat)
    requires c.Valid() && |bytes| == c.blockSize && pos + ITEM_HDR_SIZE <= c.blockSize && IsErased(bytes, pos)
    ensures ParseFrom(c, bytes, pos) == ([], SpaceAt(c, pos))
  {
  }

  lemma ParseNext(c: Config, bytes: Bytes, items: seq<Item>, i: nat)
    requires HasRoom(c, items) && i < |items| && |bytes| == c.blockSize && HeadThere(c, bytes, items, i)
    requires var next := At(c, items, i + 1);
      c.blockSize > next + ITEM_HDR_SIZE ==> ParseFrom(c, bytes, next) == (HeadsFrom(c, items, i + 1), Free(c, items))
    ensures ParseFrom(c, bytes, At(c, items, i)) == (HeadsFrom(c, items, i), Free(c, items))
  {
    OffIncreases(c, items, i + 1, |items|);
    var pos, next := At(c, items, i), At(c, items, i + 1);
    assert NextPos(c, bytes, pos) == next && Found(bytes, pos) == [HeadOf(c, items, i)];
    assert HeadsFrom(c, items, i) == [HeadOf(c, items, i)] + HeadsFrom(c, items, i + 1);
    if c.blockSize <= next + ITEM_HDR_SIZE {
      assert i + 1 == |items|;
      assert HeadsFrom(c, items, i) == Found(bytes, pos);
    }
  }

  /** A traversal of the active block of a quiescent store finds its records and recomputes its free space. */
  lemma TraverseQuiescent(s: Kv)
    requires Inv(s)
    ensures var b := s.flash[Active(s)];
      HasRoom(s.cfg, b.items)
      && ParseFrom(s.cfg, Image(s.cfg, b), BLOCK_HDR_SIZE) == (HeadsFrom(s.cfg, b.items, 0), s.info[Active(s)].space)
  {
    hide ParseFrom, Image, HeadsFrom, UniqueLive, Contents;
    ParseFinds(s.cfg, s.flash[Active(s)]);
  }

  /** Whatever the bytes are, a traversal hands out no record with an empty key, or with key or value too long. */
  lemma {:induction false} HeadsHaveKeys(c: Config, bytes: Bytes, pos: nat)
    requires c.Valid() && |bytes| == c.blockSize && pos + ITEM_HDR_SIZE <= c.blockSize
    ensures forall h :: h in ParseFrom(c, bytes, pos).0 ==> 0 < h.keyLen <= MAX_KEY_LEN && 0 < h.valLen <= MAX_VAL_LEN
    decreases c.blockSize - pos
  {
    hide FromLe16, NumberOf, Weight;
    var next := NextPos(c, bytes, pos);
    if !IsErased(bytes, pos) && c.blockSize > next + ITEM_HDR_SIZE {
      HeadsHaveKeys(c, bytes, next);
    }
  }

  /** Why keys must not be empty: a record written with an empty key is not taken for a record when its bytes are
      traversed, so nothing can find it again. The search on records of the model would find it. */
  lemma EmptyKeyIsNoRecord(c: Config, b: Block, i: nat)
    requires HasRoom(c, b.items) && i < |b.items| && b.items[i].key == []
    ensures At(c, b.items, i) + ITEM_HDR_SIZE <= c.blockSize && !IsRecord(Image(c, b), At(c, b.items, i))
  {
    hide ByteOf, NumberOf, Header, FromLe16;
    var pos, len := At(c, b.items, i), c.Size(b.items[i]);
    RecordAt(c, b, i);
    assert Image(c, b)[pos + 3] == Image(c, b)[pos..pos + len][3];
    HeaderBytes(b.items[i]);
    HeaderFirst(c, b.items[i]);
    ByteBack(0);
  }

  /** The bytes of a record on flash, place by place: magic, state, checksum, key length, value length and origin with
      their low bytes first, key, value, and zeros up to the alignment. */
  lemma RecordLayout(c: Config, item: Item)
    requires c.Valid() && Sane(c, item)
    ensures var r, k, v := Record(c, item), |item.key|, |item.val|;
      && |r| % c.align == 0 && 8 + k + v <= |r| < 8 + k + v + c.align
      && r[0] == 0x49 && r[1] == (if item.live then 0xEE else 0x00) && r[2] == item.crc
      && NumberOf(r[3]) == k && NumberOf(r[4]) + 256 * NumberOf(r[5]) == v && NumberOf(r[6]) + 256 * NumberOf(r[7]) == item.origin
      && r[8..8 + k] == item.key && r[8 + k..8 + k + v] == item.val && forall i :: 8 + k + v <= i < |r| ==> r[i] == 0
  {
    hide ByteOf, NumberOf;
    HeaderRead(c, item);
    HeaderFirst(c, item);
    HeaderBytes(item);
    AlignMultiple(c, 8 + |item.key| + |item.val|);
    RecordBody(Header(item), item.key, item.val, Fill(0, c.Size(item) - ITEM_HDR_SIZE - |item.key| - |item.val|));
  }

  lemma RecordBody(h: Bytes, key: Bytes, val: Bytes, fill: Bytes)
    requires |h| == 8 && forall i :: 0 <= i < |fill| ==> fill[i] == 0
    ensures var r, k, v := h + key + val + fill, |key|, |val|;
      && r[8..8 + k] == key && r[8 + k..8 + k + v] == val && forall i :: 8 + k + v <= i < |r| ==> r[i] == 0
  {
  }

  /** What a block starts with: magic, state, and two zero bytes; an erased header is none. */
  lemma BlockLayout(c: Config, b: Block)
    requires HasRoom(c, b.items) && b.state != Blank
    ensures var m := Image(c, b);
      && m[0] == 0x4B && m[2] == 0 && m[3] == 0
      && m[1] == if b.state == Clean then 0xEE else if b.state == Used then 0xCC else 0x44
  {
  }
}
