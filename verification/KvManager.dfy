/** The key-value store as the program runs it: one manager object whose fields are updated in place, with the loops
    of `kv_item_traverse` written out once for each callback (components/kv/kv.c). */
module KvManager {
  import opened KvTypes
  import opened KvCrc
  import opened KvModel
  import opened KvRefinement
  import opened KvRecovery
  import opened KvImage

  /** The records of block `b` leave some of it free. */
  ghost predicate Roomy(s: Kv, b: nat) {
    && Shaped(s) && b < BLOCK_NUMS
    && s.cfg.Off(s.flash[b].items, |s.flash[b].items|) < s.cfg.blockSize - BLOCK_HDR_SIZE
  }

  /** A traversal with the find callback: dead records seen on the way mark the block dirty, and a scan that reaches
      the end recomputes the free space. */
  function ScanFind(s: Kv, b: nat, key: Bytes, from: nat): (r: (Kv, Option<nat>))
    requires Shaped(s) && b < BLOCK_NUMS && from <= |s.flash[b].items|
    ensures Shaped(r.0) && (r.1.Some? ==> r.1.value < |r.0.flash[b].items|)
    decreases |s.flash[b].items| - from
  {
    var items := s.flash[b].items;
    if from == |items| then (Spaced(s, b), None)
    else if !items[from].live then ScanFind(MarkDirty(s, b), b, key, from + 1)
    else if items[from].key == key then (s, Some(from))
    else ScanFind(s, b, key, from + 1)
  }

  lemma SpacedQuiescent(s: Kv, b: nat)
    requires Inv(s) && b < BLOCK_NUMS
    ensures Spaced(s, b) == s && Roomy(s, b)
  {
    assert s.info == s.info[b := s.info[b].(space := FreeSpace(s.cfg, s.flash[b].items))];
  }

  /** In a quiescent store a traversal changes nothing: the space it recomputes is the space on record. */
  lemma {:induction false} ScanFindQuiescent(s: Kv, b: nat, key: Bytes, from: nat)
    requires Inv(s) && b < BLOCK_NUMS && from <= |s.flash[b].items|
    ensures ScanFind(s, b, key, from) == (s, FindKey(s.flash[b].items, key, from))
    decreases |s.flash[b].items| - from
  {
    if from == |s.flash[b].items| {
      SpacedQuiescent(s, b);
    } else {
      assert !s.flash[b].items[from].live ==> MarkDirty(s, b) == s;
      ScanFindQuiescent(s, b, key, from + 1);
    }
  }

  lemma MarkDirtyRoomy(s: Kv, b: nat, c: nat)
    requires Roomy(s, b) && c < BLOCK_NUMS
    ensures Roomy(MarkDirty(s, c), b) && MarkDirty(s, c).flash[b].items == s.flash[b].items
  {
  }

  lemma RetireRoomy(s: Kv, b: nat, r: Ref)
    requires Roomy(s, b) && r.block < BLOCK_NUMS && r.index < |s.flash[r.block].items|
    ensures Roomy(Retire(s, r), b) && SameRecords(s.flash[b].items, Retire(s, r).flash[b].items)
    ensures |Retire(s, r).flash[b].items| == |s.flash[b].items|
  {
    OffAgree(s.cfg, s.flash[b].items, Retire(s, r).flash[b].items, |s.flash[b].items|);
  }

  lemma PrefixVisitRoomy(s: Kv, b: nat, prefix: Bytes, i: nat)
    requires Roomy(s, b) && i < |s.flash[b].items|
    ensures var t := PrefixVisit(s, b, prefix, i);
      && Roomy(t, b) && |t.flash[b].items| == |s.flash[b].items|
      && s.cfg.Pos(b, t.flash[b].items, i + 1) == s.cfg.Pos(b, s.flash[b].items, i) + s.cfg.Size(s.flash[b].items[i])
  {
    MarkDirtyRoomy(s, b, b);
    RetireRoomy(s, b, Ref(b, i));
    OffAgree(s.cfg, s.flash[b].items, PrefixVisit(s, b, prefix, i).flash[b].items, i + 1);
  }

  /** Where the scan of a block with room stops: it sees every record. */
  lemma ScanReachesEnd(c: Config, b: nat, items: seq<Item>, i: nat)
    requires c.Valid() && b < BLOCK_NUMS && i <= |items|
    requires c.Off(items, |items|) < c.blockSize - BLOCK_HDR_SIZE
    ensures i < |items| ==> c.Base(b) + c.blockSize > c.Pos(b, items, i) + ITEM_HDR_SIZE
    ensures c.Pos(b, items, i) < c.Base(b) + c.blockSize
  {
    OffIncreases(c, items, i, |items|);
  }

  /** The RAM record of a block that has been looked at agrees with its flash header. */
  ghost predicate InStep(flash: seq<Block>, info: seq<Info>) {
    && |flash| == BLOCK_NUMS == |info|
    && forall b :: 0 <= b < BLOCK_NUMS && info[b].state != Blank ==> flash[b].state == info[b].state
  }

  class Manager {
    const cfg: Config
    var flash: seq<Block>
    var info: seq<Info>
    var writePos: nat
    var cleanNums: nat
    var gcTrigger: bool

    /** The bytes of the flash, those it had at power-on, and all that the driver has been asked to do since. */
    ghost var mem: Flash
    ghost const start: Flash
    ghost var writes: seq<FlashOp>

    function State(): Kv
      reads this
    {
      Kv(cfg, flash, info, writePos, cleanNums, gcTrigger)
    }

    /** The bytes are those of the blocks, and every single flash operation since power-on was allowed when it came. */
    ghost predicate Synced()
      reads `flash, `info, `mem, `writes
    {
      Mirrors(cfg, flash, mem) && InStep(flash, info) && Fair(start, writes, mem)
    }

    // -------------------------------------------------------------------------------------------
    // Single writes

    /** The flash driver; whoever calls it has to show that the operation needs no bit to go from 0 to 1. */
    ghost method Drive(op: FlashOp)
      requires Allowed(mem, op) && Fair(start, writes, mem)
      modifies `mem, `writes
      ensures mem == Played(old(mem), op) && writes == old(writes) + [op] && Fair(start, writes, mem)
    {
      hide Allowed, Played;
      FairNext(start, writes, mem, op);
      mem, writes := Played(mem, op), writes + [op];
    }

    method TriggerGc()
      modifies `gcTrigger
      ensures gcTrigger
    {
      gcTrigger := true;
    }

    method SetSpace(b: nat, space: nat)
      requires Synced() && b < BLOCK_NUMS
      modifies `info
      ensures Synced() && info == old(info)[b := old(info)[b].(space := space)]
    {
      info := info[b := info[b].(space := space)];
    }

    /** One byte is rewritten, which only clears bits. */
    method SetBlockState(b: nat, state: BlockState)
      requires Shaped(State()) && b < BLOCK_NUMS && Synced()
      requires flash[b].state != Blank && state != Blank && StateStep(flash[b].state, state)
      modifies `flash, `info, `mem, `writes
      ensures Synced() && State() == WithBlockState(old(State()), b, state)
      ensures writes == old(writes) + [Rewrite(b, 1, StateByte(state))]
    {
      hide Mirrors, Fair, StateByte, StateStep, Image;
      SyncedBlock(b);
      StateRewritten(cfg, flash[b], mem[b], state);
      MirrorsWith(cfg, flash, mem, b, flash[b].(state := state), mem[b][1 := StateByte(state)]);
      Drive(Rewrite(b, 1, StateByte(state)));
      flash := flash[b := flash[b].(state := state)];
      info := info[b := info[b].(state := state)];
    }

    lemma SyncedBlock(b: nat)
      requires Synced() && b < BLOCK_NUMS
      ensures |mem| == BLOCK_NUMS == |flash| && MirrorsBlock(cfg, flash[b], mem[b])
      ensures HasRoom(cfg, flash[b].items) && |mem[b]| == cfg.blockSize
    {
      hide Image, Fair;
    }

    method DirtyIfUsed(b: nat)
      requires Shaped(State()) && b < BLOCK_NUMS && Synced()
      modifies `flash, `info, `mem, `writes
      ensures Synced() && State() == MarkDirty(old(State()), b)
      ensures writes == old(writes) + if old(info)[b].state == Used then [Rewrite(b, 1, StateByte(Dirty))] else []
    {
      hide Mirrors, Fair;
      if info[b].state == Used {
        SetBlockState(b, Dirty);
      }
    }

    /** The block is erased, and its header is written over erased bytes. */
    method BlockFormat(b: nat)
      requires Shaped(State()) && b < BLOCK_NUMS && Synced()
      modifies `flash, `info, `cleanNums, `mem, `writes
      ensures Synced() && State() == Format(old(State()), b)
      ensures writes == old(writes) + [Erase(b), Append(b, 0, BlockHeader(Clean))]
    {
      hide Mirrors, Fair, Image;
      SyncedBlock(b);
      Formatted(cfg, |mem[b]|);
      ghost var erased, before := Fill(ERASED, |mem[b]|), mem;
      MirrorsWith(cfg, flash, mem, b, Block(Clean, []), erased[..0] + BlockHeader(Clean) + erased[BLOCK_HDR_SIZE..]);
      Drive(Erase(b));
      Drive(Append(b, 0, BlockHeader(Clean)));
      assert mem == before[b := erased[..0] + BlockHeader(Clean) + erased[BLOCK_HDR_SIZE..]];
      flash := flash[b := Block(Clean, [])];
      info := info[b := Info(Clean, cfg.blockSize - BLOCK_HDR_SIZE)];
      cleanNums := cleanNums + 1;
    }

    /** One record goes to the write position, the first erased byte of block `b`: all the bytes it takes are erased. */
    method WriteRecord(b: nat, item: Item)
      requires Shaped(State()) && b < BLOCK_NUMS && Synced() && flash[b].state != Blank
      requires writePos == cfg.Pos(b, flash[b].items, |flash[b].items|) && HasRoom(cfg, flash[b].items + [item])
      modifies `flash, `mem, `writes
      ensures Synced() && flash == old(flash)[b := old(flash)[b].(items := old(flash)[b].items + [item])]
      ensures writes == old(writes) + [Append(b, writePos - cfg.Base(b), Record(cfg, item))]
    {
      hide Mirrors, Fair, Image, Record;
      SyncedBlock(b);
      RecordAppended(cfg, flash[b], mem[b], item);
      ghost var block, at, data := flash[b].(items := flash[b].items + [item]), writePos - cfg.Base(b), Record(cfg, item);
      MirrorsWith(cfg, flash, mem, b, block, mem[b][..at] + data + mem[b][at + |data|..]);
      Drive(Append(b, at, data));
      flash := flash[b := flash[b].(items := flash[b].items + [item])];
    }

    /** `kv_item_del` on a known record: its state byte is cleared, and that of its block if it was in use. */
    method ItemDelete(r: Ref)
      requires Shaped(State()) && r.block < BLOCK_NUMS && r.index < |flash[r.block].items| && Synced()
      modifies `flash, `info, `mem, `writes
      ensures Synced() && State() == Retire(old(State()), r)
      ensures var at := cfg.Pos(r.block, old(flash)[r.block].items, r.index) - cfg.Base(r.block) + 1;
        writes == old(writes) + [Rewrite(r.block, at, 0)]
          + if old(info)[r.block].state == Used then [Rewrite(r.block, 1, StateByte(Dirty))] else []
    {
      hide Mirrors, Fair, Image;
      SyncedBlock(r.block);
      RecordRetired(cfg, flash[r.block], mem[r.block], r.index);
      ghost var block := flash[r.block].(items := Cleared(flash[r.block].items, r.index));
      ghost var at := BLOCK_HDR_SIZE + cfg.Off(flash[r.block].items, r.index) + 1;
      MirrorsWith(cfg, flash, mem, r.block, block, mem[r.block][at := 0]);
      Drive(Rewrite(r.block, at, 0));
      var items := flash[r.block].items;
      flash := flash[r.block := flash[r.block].(items := items[r.index := items[r.index].(live := false)])];
      DirtyIfUsed(r.block);
    }

    // -------------------------------------------------------------------------------------------
    // Search

    method FindInBlock(b: nat, key: Bytes) returns (r: Option<nat>)
      requires Roomy(State(), b) && Synced()
      modifies `flash, `info, `mem, `writes
      ensures Synced()
      ensures (State(), r) == ScanFind(old(State()), b, key, 0)
    {
      hide Synced, BlockHeader, Fill, HasRoom, Records, Image, PlayedAll, Played;
      var pos, end, i := cfg.Base(b) + BLOCK_HDR_SIZE, cfg.Base(b) + cfg.blockSize, 0;
      ghost var items := flash[b].items;
      var more := true;
      while more
        invariant Roomy(State(), b) && Synced() && flash[b].items == items && i <= |items|
        invariant pos == cfg.Pos(b, items, i) && (more || i == |items|)
        invariant ScanFind(old(State()), b, key, 0) == ScanFind(State(), b, key, i)
        decreases |items| - i, more
      {
        if i == |flash[b].items| {
          break;
        }
        var item := flash[b].items[i];
        if item.live {
          if item.key == key {
            return Some(i);
          }
        } else {
          MarkDirtyRoomy(State(), b, b);
          DirtyIfUsed(b);
        }
        pos, i := pos + cfg.Size(item), i + 1;
        ScanReachesEnd(cfg, b, items, i);
        more := end > pos + ITEM_HDR_SIZE;
      }
      ScanReachesEnd(cfg, b, items, i);
      SetSpace(b, if end > pos then end - pos else ITEM_HDR_SIZE);
      r := None;
    }

    method ItemSearch(key: Bytes) returns (r: Option<Ref>)
      requires Inv(State()) && Synced()
      modifies `flash, `info, `mem, `writes
      ensures Synced()
      ensures State() == old(State()) && r == Search(State(), key)
    {
      hide Synced;
      ScanFindQuiescent(State(), 0, key, 0);
      ScanFindQuiescent(State(), 1, key, 0);
      SpacedQuiescent(State(), 0);
      SpacedQuiescent(State(), 1);
      if info[0].state != Clean {
        var i := FindInBlock(0, key);
        if i.Some? {
          return Some(Ref(0, i.value));
        }
      }
      if info[1].state != Clean {
        var i := FindInBlock(1, key);
        if i.Some? {
          return Some(Ref(1, i.value));
        }
      }
      r := None;
    }

    // -------------------------------------------------------------------------------------------
    // Set, get, delete

    /** Write position for a record of `len` bytes, or 0; a full or nearly full block triggers a collection. */
    method CalcPosition(len: nat) returns (pos: nat)
      requires Books(State(), Active(State()))
      modifies `gcTrigger
      ensures var s := old(State());
        if s.info[Active(s)].space > len then
          && pos == s.writePos > 0
          && State() == s.(gcTrigger := s.gcTrigger || (s.info[Active(s)].space - len < ITEM_MAX_LEN && s.cleanNums <= RESERVED_BLOCKS))
        else
          pos == 0 && State() == s.(gcTrigger := true)
    {
      StoreStaysInBlock(State(), len);
      var b := cfg.BlockOf(writePos);
      if info[b].space > len {
        if info[b].space - len < ITEM_MAX_LEN && cleanNums <= RESERVED_BLOCKS {
          TriggerGc();
        }
        return writePos;
      }
      TriggerGc();
      pos := 0;
    }

    /** A record is written at the write position, within the block it is in, and booked. */
    method Book(a: nat, item: Item)
      requires Shaped(State()) && Synced() && a < BLOCK_NUMS && flash[a].state != Blank
      requires writePos == cfg.Pos(a, flash[a].items, |flash[a].items|) && HasRoom(cfg, flash[a].items + [item])
      requires cfg.BlockOf(writePos + cfg.Size(item)) == a && info[a].space >= cfg.Size(item)
      modifies `flash, `info, `writePos, `mem, `writes
      ensures Synced() && State() == WithCopy(old(State()), a, item)
    {
      hide Synced;
      WriteRecord(a, item);
      writePos := writePos + cfg.Size(item);
      var b := cfg.BlockOf(writePos);
      SetSpace(b, info[b].space - cfg.Size(item));
    }

    method ItemStore(key: Bytes, val: Bytes, origin: nat) returns (status: Status)
      requires Inv(State()) && cfg.crc == Crc8 && Synced()
      modifies this
      ensures Synced()
      ensures (State(), status) == Store(old(State()), key, val, origin)
    {
      hide Synced, Inv, Store, Books, HasRoom, Crc8;
      QuiescentActive(State());
      var crc := CalcCrc8(key + val);
      var item := Item(true, crc, key, val, origin);
      StoreIs(State(), key, val, origin);
      var pos := CalcPosition(cfg.Size(item));
      if pos > 0 {
        Book(cfg.BlockOf(pos), item);
        status := Ok;
      } else {
        status := NoSpace;
      }
    }

    method ItemUpdate(r: Ref, key: Bytes, val: Bytes) returns (status: Status)
      requires Inv(State()) && cfg.crc == Crc8 && Live(State(), r) && r.block < BLOCK_NUMS && Synced()
      modifies this
      ensures Synced()
      ensures var s := old(State());
        (State(), status) ==
          if ItemAt(s, r).val == val then (s, Ok)
          else if StoreUpdate(s, r, key, val).1 != Ok then StoreUpdate(s, r, key, val)
          else (Retire(StoreUpdate(s, r, key, val).0, r), Ok)
      ensures key != [] && LegalSet(key, val) && Search(old(State()), key) == Some(r) ==>
        SetMeets(old(State()), key, val, State(), status)
    {
      hide Synced, SetMeets;
      if key != [] {
        SetUpdatesMap(State(), key, val);
      }
      if flash[r.block].items[r.index].val == val {
        return Ok;
      }
      status := ItemStore(key, val, cfg.Pos(r.block, flash[r.block].items, r.index));
      if status == Ok {
        assert State() == StoreUpdate(old(State()), r, key, val).0;
        ItemDelete(r);
      }
    }

    ghost predicate Valid()
      reads this
    {
      Inv(State()) && cfg.crc == Crc8 && Synced()
    }

    /** `kv_item_set`. */
    method Set(key: Bytes, val: Bytes) returns (status: Status)
      requires Valid() && key != []
      modifies this
      ensures Valid() && (State(), status) == SetItem(old(State()), key, val)
      ensures SetMeets(old(State()), key, val, State(), status)
    {
      hide Synced;
      SetUpdatesMap(State(), key, val);
      if |val| == 0 || |key| > MAX_KEY_LEN || |val| > MAX_VAL_LEN {
        return InvalidParam;
      }
      var found := ItemSearch(key);
      if found.Some? {
        status := ItemUpdate(found.value, key, val);
      } else {
        status := ItemStore(key, val, 0);
      }
    }

    /** `kv_item_get`: `room` is the size of the caller's buffer. */
    method Get(key: Bytes, room: int) returns (g: GetResult)
      requires Valid()
      modifies this
      ensures Valid() && State() == old(State()) && g == GetItem(State(), key, room)
      ensures room > 0 && key in Map(State()) && room >= |Map(State())[key]| ==> g.status == Ok && g.val == Map(State())[key]
      ensures room > 0 && key !in Map(State()) ==> g.status == NotFound
    {
      if room <= 0 {
        return GetResult(InvalidParam, [], 0);
      }
      GetReadsMap(State(), key, room);
      var found := ItemSearch(key);
      if found.None? {
        return GetResult(NotFound, [], 0);
      }
      var val := flash[found.value.block].items[found.value.index].val;
      g := if room < |val| then GetResult(NoSpace, [], |val|) else GetResult(Ok, val, |val|);
    }

    /** `kv_item_delete`. */
    method Delete(key: Bytes) returns (status: Status)
      requires Valid()
      modifies this
      ensures Valid() && (State(), status) == DeleteItem(old(State()), key)
      ensures Map(State()) == Map(old(State())) - {key}
      ensures status == if key in Map(old(State())) then Ok else NotFound
    {
      hide Synced;
      DeleteRemovesKey(State(), key);
      var found := ItemSearch(key);
      if found.None? {
        return NotFound;
      }
      ItemDelete(found.value);
      status := Ok;
    }

    /** The callback of delete by prefix, and the traversal's own reaction to a dead record. */
    method DeleteIfPrefixed(b: nat, prefix: Bytes, i: nat)
      requires Shaped(State()) && b < BLOCK_NUMS && i < |flash[b].items| && Synced()
      modifies `flash, `info, `mem, `writes
      ensures Synced()
      ensures State() == PrefixVisit(old(State()), b, prefix, i)
    {
      hide Synced;
      var item := flash[b].items[i];
      if !item.live {
        DirtyIfUsed(b);
      } else if prefix <= item.key {
        ItemDelete(Ref(b, i));
      }
    }

    method DeletePrefixInBlock(b: nat, prefix: Bytes)
      requires Roomy(State(), b) && Synced()
      modifies `flash, `info, `mem, `writes
      ensures Synced()
      ensures State() == Spaced(DeletePrefixIn(old(State()), b, prefix, 0), b)
    {
      hide Synced, DeletePrefixIn;
      var pos := DeletePrefixScan(b, prefix);
      var end := cfg.Base(b) + cfg.blockSize;
      SetSpace(b, if end > pos then end - pos else ITEM_HDR_SIZE);
    }

    /** The traversal, up to the position it ends at. */
    method DeletePrefixScan(b: nat, prefix: Bytes) returns (pos: nat)
      requires Roomy(State(), b) && Synced()
      modifies `flash, `info, `mem, `writes
      ensures Synced() && Roomy(State(), b) && State() == DeletePrefixIn(old(State()), b, prefix, 0)
      ensures pos == cfg.Pos(b, flash[b].items, |flash[b].items|) < cfg.Base(b) + cfg.blockSize
    {
      hide PrefixVisit, Synced;
      pos := cfg.Base(b) + BLOCK_HDR_SIZE;
      var end, i := cfg.Base(b) + cfg.blockSize, 0;
      var more := true;
      while more
        invariant Roomy(State(), b) && Synced() && i <= |flash[b].items|
        invariant pos == cfg.Pos(b, flash[b].items, i) && (more || i == |flash[b].items|)
        invariant DeletePrefixIn(old(State()), b, prefix, 0) == DeletePrefixIn(State(), b, prefix, i)
        decreases |flash[b].items| - i, more
      {
        if i == |flash[b].items| {
          break;
        }
        pos := pos + cfg.Size(flash[b].items[i]);
        PrefixVisitRoomy(State(), b, prefix, i);
        DeleteIfPrefixed(b, prefix, i);
        i := i + 1;
        ScanReachesEnd(cfg, b, flash[b].items, i);
        more := end > pos + ITEM_HDR_SIZE;
      }
      ScanReachesEnd(cfg, b, flash[b].items, i);
    }

    /** `kv_item_delete_by_prefix`. */
    method DeleteByPrefix(prefix: Bytes)
      requires Valid()
      modifies this
      ensures Valid() && State() == KvModel.DeleteByPrefix(old(State()), prefix)
      ensures Map(State()) == WithoutPrefix(Map(old(State())), prefix)
    {
      hide Synced;
      DeleteByPrefixRemoves(State(), prefix);
      ghost var first := DeletePrefixIn(State(), 0, prefix, 0);
      PrefixBlock0(State(), prefix);
      SpacedQuiescent(State(), 0);
      SpacedQuiescent(first, 0);
      SpacedQuiescent(first, 1);
      SpacedQuiescent(DeletePrefixIn(first, 1, prefix, 0), 1);
      DeletePrefixInBlock(0, prefix);
      DeletePrefixInBlock(1, prefix);
    }

    // -------------------------------------------------------------------------------------------
    // Garbage collection

    /** The collection callback: append one live record to the clean block. */
    method CopyRecord(c: nat, item: Item)
      requires CanCopy(State(), c, item) && Synced()
      modifies this
      ensures Synced()
      ensures State() == WithCopy(old(State()), c, item)
    {
      hide Synced, WithCopy;
      CopyHasRoom(State(), c, item);
      Book(c, item);
    }

    /** The traversal with the collection callback over the dirty active block `v`. */
    method GcTraverse(v: nat, c: nat, ghost s: Kv)
      requires Inv(s) && v == Active(s) && c == 1 - v && Synced()
      requires State() == s.(writePos := cfg.Base(c) + BLOCK_HDR_SIZE)
      modifies this
      ensures Synced()
      ensures CopyFits(s, c, v, |s.flash[v].items|) && State() == CopyInto(s, c, v, |s.flash[v].items|)
    {
      hide Synced, CanCopy, WithCopy, LiveOnly, UniqueLive, AllSane, Live;
      var pos, end, i := cfg.Base(v) + BLOCK_HDR_SIZE, cfg.Base(v) + cfg.blockSize, 0;
      var more := true;
      CopyIntoStart(s, c, v);
      while more
        invariant i <= |s.flash[v].items| && CopyFits(s, c, v, i)
        invariant State() == CopyInto(s, c, v, i) && Synced()
        invariant pos == cfg.Pos(v, s.flash[v].items, i) && (more || i == |s.flash[v].items|)
        decreases |s.flash[v].items| - i, more
      {
        if i == |flash[v].items| {
          break;
        }
        var item := flash[v].items[i];
        CopyIntoNext(s, c, v, i);
        if item.live {
          CopyRecord(c, item);
        }
        pos, i := pos + cfg.Size(item), i + 1;
        ScanReachesEnd(cfg, v, s.flash[v].items, i);
        more := end > pos + ITEM_HDR_SIZE;
      }
    }

    method FirstCleanBlock() returns (c: nat)
      requires Shaped(State())
      ensures c == FirstClean(State())
    {
      c := 0;
      while c < BLOCK_NUMS && info[c].state != Clean
        invariant c <= BLOCK_NUMS
        invariant forall k :: 0 <= k < c ==> info[k].state != Clean
      {
        c := c + 1;
      }
    }

    /** `kv_gc_task`, holding the lock. */
    method GcTask()
      requires Valid()
      modifies this
      ensures Valid() && State() == Collect(old(State())) && Map(State()) == Map(old(State()))
    {
      hide Synced;
      CollectKeepsMap(State());
      if cleanNums != 0 {
        var c := FirstCleanBlock();
        if c < BLOCK_NUMS {
          CollectFrom(c, State());
        }
      }
      gcTrigger := false;
    }

    method CollectVictim(v: nat, c: nat, ghost s: Kv)
      requires Inv(s) && Victim(s) == Some(v) && c == FirstClean(s) && Synced()
      requires State() == s.(writePos := cfg.Base(c) + BLOCK_HDR_SIZE)
      modifies this
      ensures Synced()
      ensures State() == Collect(s).(gcTrigger := s.gcTrigger)
    {
      hide Synced, Inv, Collect, CopyInto, CopyFits, Format, WithBlockState;
      CollectParts(s, v, c);
      GcTraverse(v, c, s);
      BlockFormat(v);
      SetBlockState(c, Used);
      cleanNums := cleanNums - 1;
    }

    /** The search for a dirty block, from the one after the active block round to the active block itself. */
    method CollectFrom(c: nat, ghost s: Kv)
      requires Inv(s) && State() == s && c == FirstClean(s) && Synced()
      modifies this
      ensures Synced()
      ensures State() == Collect(s).(gcTrigger := s.gcTrigger)
    {
      hide Synced;
      LiveOnlyFits(s, |Items(s)|);
      StoreStaysInBlock(s, 0);
      var origin := writePos;
      writePos := cfg.Base(c) + BLOCK_HDR_SIZE;
      var i, left := cfg.BlockOf(origin) + 1, BLOCK_NUMS;
      while true
        invariant State() == s.(writePos := cfg.Base(c) + BLOCK_HDR_SIZE) && Synced()
        invariant 0 < left <= BLOCK_NUMS
        invariant i == if left == BLOCK_NUMS then Active(s) + 1 else BLOCK_NUMS - Active(s)
        decreases left
      {
        if i == BLOCK_NUMS {
          i := 0;
        }
        if info[i].state == Dirty {
          CollectVictim(i, c, s);
          return;
        }
        if i == cfg.BlockOf(origin) {
          break;
        }
        i, left := i + 1, left - 1;
      }
      writePos := origin;
    }

    // -------------------------------------------------------------------------------------------
    // Start-up

    /** The recovery callback and the traversal's reaction to a dead record. */
    method RecoverRecord(b: nat, i: nat)
      requires Shaped(State()) && b < BLOCK_NUMS && i < |flash[b].items| && cfg.crc == Crc8 && Synced()
      modifies `flash, `info, `mem, `writes
      ensures Synced()
      ensures State() == VisitRecord(old(State()), b, i)
    {
      hide Synced;
      var item := flash[b].items[i];
      if !item.live {
        DirtyIfUsed(b);
        return;
      }
      var crc := CalcCrc8(item.key + item.val);
      if item.crc == crc {
        if item.origin != 0 && item.origin != cfg.Pos(b, flash[b].items, i) {
          var older := RefAt(State(), item.origin);
          if older.Some? {
            var there := ItemAt(State(), older.value);
            if there.live && there.key == item.key {
              ItemDelete(older.value);
            }
          }
        }
      } else {
        ItemDelete(Ref(b, i));
      }
    }

    method RecoverTraverse(b: nat)
      requires Roomy(State(), b) && cfg.crc == Crc8 && Synced()
      modifies `flash, `info, `mem, `writes
      ensures Synced()
      ensures State() == Spaced(VisitFrom(old(State()), b, 0), b)
    {
      hide Turns, VisitRecord, Synced;
      var pos, end, i := cfg.Base(b) + BLOCK_HDR_SIZE, cfg.Base(b) + cfg.blockSize, 0;
      var more := true;
      while more
        invariant Roomy(State(), b) && Synced() && i <= |flash[b].items|
        invariant pos == cfg.Pos(b, flash[b].items, i) && (more || i == |flash[b].items|)
        invariant VisitFrom(old(State()), b, 0) == VisitFrom(State(), b, i)
        decreases |flash[b].items| - i, more
      {
        if i == |flash[b].items| {
          break;
        }
        pos := pos + cfg.Size(flash[b].items[i]);
        VisitRoomy(State(), b, i);
        RecoverRecord(b, i);
        i := i + 1;
        ScanReachesEnd(cfg, b, flash[b].items, i);
        more := end > pos + ITEM_HDR_SIZE;
      }
      ScanReachesEnd(cfg, b, flash[b].items, i);
      SetSpace(b, if end > pos then end - pos else ITEM_HDR_SIZE);
    }

    /** The state of a block as its header says. */
    method ReadState(b: nat)
      requires Synced() && b < BLOCK_NUMS
      modifies `info
      ensures Synced() && info == old(info)[b := old(info)[b].(state := flash[b].state)]
    {
      info := info[b := info[b].(state := flash[b].state)];
    }

    /** One turn of the first loop of `kv_init_internal`. */
    method InitBlock(b: nat) returns (unclean: bool)
      requires Roomy(State(), b) && cfg.crc == Crc8 && Synced()
      modifies this
      ensures Synced()
      ensures (State(), unclean) == RecoverBlock(old(State()), b)
    {
      hide Synced;
      if flash[b].state == Blank {
        BlockFormat(b);
        return false;
      }
      var state := flash[b].state;
      ReadState(b);
      RecoverTraverse(b);
      unclean := state == Clean && info[b].space != cfg.blockSize - BLOCK_HDR_SIZE;
      if state == Clean && !unclean {
        cleanNums := cleanNums + 1;
      }
    }

    method SettleBlock(b: nat, unclean: bool)
      requires Shaped(State()) && b < BLOCK_NUMS && Synced() && (unclean ==> flash[b].state == Clean)
      modifies `flash, `info, `cleanNums, `mem, `writes
      ensures Synced()
      ensures State() == Settle(old(State()), b, unclean)
    {
      hide Synced;
      if unclean {
        if cleanNums >= RESERVED_BLOCKS {
          SetBlockState(b, Dirty);
        } else {
          BlockFormat(b);
        }
      }
    }

    method PickWritePos()
      requires Shaped(State())
      modifies `writePos
      ensures State() == ChooseWritePos(old(State()))
    {
      var i := 0;
      while i < BLOCK_NUMS
        invariant i <= BLOCK_NUMS && State() == old(State())
        invariant i > 0 ==> !(InUse(info[0].state) && info[1].state == Clean && info[0].space <= cfg.blockSize)
        invariant i > 1 ==> !(InUse(info[1].state) && info[0].state == Clean && info[1].space <= cfg.blockSize)
      {
        var next := if i + 1 == BLOCK_NUMS then 0 else i + 1;
        if InUse(info[i].state) && info[next].state == Clean && info[i].space <= cfg.blockSize {
          writePos := cfg.Base(i) + cfg.blockSize - info[i].space;
          return;
        }
        i := i + 1;
      }
    }

    method ScanBlocks() returns (unclean0: bool, unclean1: bool)
      requires Roomy(State(), 0) && Roomy(State(), 1) && cfg.crc == Crc8 && Synced()
      requires cleanNums == 0 && info[0].state == Blank && info[1].state == Blank
      modifies this
      ensures Synced()
      ensures var (s1, u0) := RecoverBlock(old(State()), 0);
        var (s2, u1) := RecoverBlock(s1, 1);
        State() == s2 && unclean0 == u0 && unclean1 == u1
      ensures Counted(State(), unclean0, unclean1)
    {
      hide Synced;
      RecoverRoomy(State(), 0, 1);
      ScanCounted(State());
      unclean0 := InitBlock(0);
      unclean1 := InitBlock(1);
    }

    method FinishInit(unclean0: bool, unclean1: bool)
      requires Counted(State(), unclean0, unclean1) && Synced()
      modifies this
      ensures Synced()
      ensures State() == Finish(old(State()), unclean0, unclean1)
    {
      hide Synced, BlocksReady, BlockChosen, Finish;
      ghost var s := State();
      FinishIs(s, unclean0, unclean1);
      PrepareBlocks(unclean0, unclean1);
      ChooseBlock();
      gcTrigger := info[Active(State())].space < ITEM_MAX_LEN && cleanNums < RESERVED_BLOCKS + 1;
    }

    /** Blocks that hold records and say `Clean` are settled, and one block is formatted if none is clean. */
    method PrepareBlocks(unclean0: bool, unclean1: bool)
      requires Counted(State(), unclean0, unclean1) && Synced()
      modifies `flash, `info, `cleanNums, `mem, `writes
      ensures Synced() && Shaped(State()) && State() == BlocksReady(old(State()), unclean0, unclean1)
      ensures cleanNums == BLOCK_NUMS ==> flash[0].state == Clean
    {
      hide Synced, Settle;
      SettleCounted(State(), unclean0, unclean1);
      SettleBlock(1, unclean1);
      SettleBlock(0, unclean0);
      if cleanNums == 0 {
        BlockFormat(0);
      }
    }

    method ChooseBlock()
      requires Shaped(State()) && Synced() && (cleanNums == BLOCK_NUMS ==> flash[0].state == Clean)
      modifies this
      ensures Synced() && Shaped(State()) && State() == BlockChosen(old(State()))
    {
      hide Synced, ChooseWritePos;
      if cleanNums == BLOCK_NUMS {
        writePos := BLOCK_HDR_SIZE;
        SetBlockState(0, Used);
        cleanNums := cleanNums - 1;
      } else {
        PickWritePos();
      }
    }

    /** `kv_init` on the flash found at power-on. */
    constructor (c: Config, found: seq<Block>, ghost bytes: Flash)
      requires c.Valid() && c.crc == Crc8 && Mirrors(c, found, bytes)
      ensures cfg == c && State() == Recover(c, found) && Synced() && start == bytes
    {
      cfg, flash, info := c, found, [Info(Blank, 0), Info(Blank, 0)];
      writePos, cleanNums, gcTrigger := 0, 0, false;
      mem, start, writes := bytes, bytes, [];
      new;
      var unclean0, unclean1 := ScanBlocks();
      FinishInit(unclean0, unclean1);
    }
  }

  /** Power off and on again: a new manager on the flash of the old one. It starts in a valid state with the same map,
      and initialisation, too, has only asked the driver for what the flash allows. */
  method PowerCycle(m: Manager) returns (n: Manager)
    requires m.Valid()
    ensures fresh(n) && n.Valid() && n.cfg == m.cfg && n.flash == m.flash && n.start == m.mem
    ensures Map(n.State()) == Map(m.State())
  {
    hide Recover, Mirrors, Fair;
    RestartRebuilds(m.State());
    n := new Manager(m.cfg, m.flash, m.mem);
  }

  // ---------------------------------------------------------------------------------------------
  // The count of clean blocks during initialisation

  /** Blocks have headers, flagged ones say `Clean`, and the other clean ones have been counted. */
  ghost predicate Counted(s: Kv, unclean0: bool, unclean1: bool) {
    && Shaped(s) && s.flash[0].state != Blank && s.flash[1].state != Blank
    && (unclean0 ==> s.flash[0].state == Clean) && (unclean1 ==> s.flash[1].state == Clean)
    && s.cleanNums == CleanOne(s, 0, unclean0) + CleanOne(s, 1, unclean1)
  }

  function CleanOne(s: Kv, b: nat, unclean: bool): nat
    requires b < |s.flash|
  {
    if s.flash[b].state == Clean && !unclean then 1 else 0
  }

  /** The headers of both blocks say `Clean`, or are invalid, exactly where they did before. */
  ghost predicate SameHeaders(s: Kv, t: Kv)
    requires |s.flash| == BLOCK_NUMS == |t.flash|
  {
    && t.cleanNums == s.cleanNums
    && forall d :: 0 <= d < BLOCK_NUMS ==>
      (t.flash[d].state == Clean <==> s.flash[d].state == Clean) && (t.flash[d].state == Blank <==> s.flash[d].state == Blank)
  }

  lemma {:induction false} VisitHeaders(s: Kv, b: nat, i: nat)
    requires Shaped(s) && b < BLOCK_NUMS && i <= |s.flash[b].items| && InStep(s.flash, s.info)
    ensures var t := VisitFrom(s, b, i); InStep(t.flash, t.info) && SameHeaders(s, t)
    decreases |s.flash[b].items| - i
  {
    if i < |s.flash[b].items| {
      VisitHeader(s, b, i);
      VisitHeaders(VisitRecord(s, b, i), b, i + 1);
    }
  }

  lemma VisitHeader(s: Kv, b: nat, i: nat)
    requires Shaped(s) && b < BLOCK_NUMS && i < |s.flash[b].items| && InStep(s.flash, s.info)
    ensures var t := VisitRecord(s, b, i); InStep(t.flash, t.info) && SameHeaders(s, t)
  {
    hide Outdated;
  }

  lemma BlockCounted(s: Kv, b: nat)
    requires Shaped(s) && b < BLOCK_NUMS && InStep(s.flash, s.info)
    ensures var (t, unclean) := RecoverBlock(s, b);
      && InStep(t.flash, t.info) && t.flash[b].state != Blank && (unclean ==> t.flash[b].state == Clean)
      && (t.flash[1 - b].state == Clean <==> s.flash[1 - b].state == Clean)
      && (t.flash[1 - b].state == Blank <==> s.flash[1 - b].state == Blank)
      && t.cleanNums == s.cleanNums + CleanOne(t, b, unclean)
  {
    hide VisitFrom;
    if s.flash[b].state != Blank {
      VisitHeaders(Known(s, b), b, 0);
    }
  }

  lemma ScanCounted(s: Kv)
    requires Shaped(s) && s.cleanNums == 0 && s.info[0].state == Blank && s.info[1].state == Blank
    ensures var (s1, unclean0) := RecoverBlock(s, 0);
      var (s2, unclean1) := RecoverBlock(s1, 1);
      Counted(s2, unclean0, unclean1)
  {
    hide RecoverBlock;
    BlockCounted(s, 0);
    BlockCounted(RecoverBlock(s, 0).0, 1);
  }

  function BlocksReady(s: Kv, unclean0: bool, unclean1: bool): Kv
    requires Shaped(s)
  {
    var t := Settle(Settle(s, 1, unclean1), 0, unclean0);
    if t.cleanNums == 0 then Format(t, 0) else t
  }

  function BlockChosen(s: Kv): Kv
    requires Shaped(s)
  {
    if s.cleanNums == BLOCK_NUMS
    then WithBlockState(s.(writePos := BLOCK_HDR_SIZE), 0, Used).(cleanNums := s.cleanNums - 1)
    else ChooseWritePos(s)
  }

  lemma FinishIs(s: Kv, unclean0: bool, unclean1: bool)
    requires Shaped(s)
    ensures Shaped(BlocksReady(s, unclean0, unclean1))
    ensures var u := BlockChosen(BlocksReady(s, unclean0, unclean1));
      && Shaped(u) && Active(u) < BLOCK_NUMS
      && Finish(s, unclean0, unclean1)
           == u.(gcTrigger := u.info[Active(u)].space < ITEM_MAX_LEN && u.cleanNums < RESERVED_BLOCKS + 1)
  {
    hide Settle, ChooseWritePos;
  }

  /** With nothing left to settle both blocks are clean if two are counted, and block 0 is not if none is. */
  lemma SettleCounted(s: Kv, unclean0: bool, unclean1: bool)
    requires Counted(s, unclean0, unclean1)
    ensures var t := Settle(s, 1, unclean1); var u := Settle(t, 0, unclean0);
      && (unclean0 ==> t.flash[0].state == Clean) && Counted(u, false, false)
      && (u.cleanNums == BLOCK_NUMS ==> u.flash[0].state == Clean)
      && (u.cleanNums == 0 ==> Format(u, 0).cleanNums < BLOCK_NUMS)
  {
  }

  lemma VisitRoomy(s: Kv, b: nat, i: nat)
    requires Roomy(s, b) && i < |s.flash[b].items|
    ensures var t := VisitRecord(s, b, i);
      && Roomy(t, b) && |t.flash[b].items| == |s.flash[b].items|
      && s.cfg.Pos(b, t.flash[b].items, i + 1) == s.cfg.Pos(b, s.flash[b].items, i) + s.cfg.Size(s.flash[b].items[i])
  {
    VisitKeepsRoom(s, b, i, b);
    OffAgree(s.cfg, s.flash[b].items, VisitRecord(s, b, i).flash[b].items, i + 1);
  }

  lemma VisitKeepsRoom(s: Kv, b: nat, i: nat, d: nat)
    requires Shaped(s) && b < BLOCK_NUMS && i < |s.flash[b].items| && Roomy(s, d)
    ensures Roomy(VisitRecord(s, b, i), d) && SameRecords(s.flash[d].items, VisitRecord(s, b, i).flash[d].items)
  {
    MarkDirtyRoomy(s, d, b);
    if Outdated(s, b, i).Some? {
      RetireRoomy(s, d, Outdated(s, b, i).value);
    }
  }

  lemma {:induction false} VisitFromRoomy(s: Kv, b: nat, i: nat, d: nat)
    requires Shaped(s) && b < BLOCK_NUMS && i <= |s.flash[b].items| && Roomy(s, d)
    ensures Roomy(VisitFrom(s, b, i), d)
    decreases |s.flash[b].items| - i
  {
    if i < |s.flash[b].items| {
      VisitKeepsRoom(s, b, i, d);
      VisitFromRoomy(VisitRecord(s, b, i), b, i + 1, d);
    }
  }

  lemma RecoverRoomy(s: Kv, b: nat, d: nat)
    requires Roomy(s, b) && Roomy(s, d) && b != d
    ensures Roomy(RecoverBlock(s, b).0, d)
  {
    if s.flash[b].state != Blank {
      VisitFromRoomy(Known(s, b), b, 0, d);
    }
  }

  /** A collection of the victim, step by step. */
  lemma CollectParts(s: Kv, v: nat, c: nat)
    requires Inv(s) && Victim(s) == Some(v) && c == FirstClean(s)
    ensures Shaped(s) && v == Active(s) && c == 1 - v && v < BLOCK_NUMS && CopyFits(s, c, v, |s.flash[v].items|)
    ensures var t := Format(CopyInto(s, c, v, |s.flash[v].items|), v);
      && Shaped(CopyInto(s, c, v, |s.flash[v].items|)) && Shaped(t) && t.flash[c].state == Clean && t.cleanNums == s.cleanNums + 1
      && Collect(s).(gcTrigger := s.gcTrigger) == WithBlockState(t, c, Used).(cleanNums := s.cleanNums)
  {
    LiveOnlyFits(s, |Items(s)|);
  }

  ghost predicate CopyFits(s: Kv, c: nat, v: nat, n: nat) {
    && Shaped(s) && c < BLOCK_NUMS && v < BLOCK_NUMS && n <= |s.flash[v].items| && s.flash[c].items == []
    && var kept := LiveOnly(s.flash[v].items[..n]);
      s.cfg.Off(kept, |kept|) < s.cfg.blockSize - BLOCK_HDR_SIZE == s.info[c].space
  }

  lemma CopyIntoStart(s: Kv, c: nat, v: nat)
    requires Inv(s) && v == Active(s) && c == 1 - v
    ensures CopyFits(s, c, v, 0) && CopyInto(s, c, v, 0) == s.(writePos := s.cfg.Base(c) + BLOCK_HDR_SIZE)
  {
    assert s.flash[v].items[..0] == [];
    var t := CopyInto(s, c, v, 0);
    assert t.flash == s.flash && t.info == s.info;
  }

  /** The write position is the end of block `c`, and the record fits below it with room to spare. */
  ghost predicate CanCopy(t: Kv, c: nat, item: Item) {
    && Shaped(t) && c < BLOCK_NUMS && t.flash[c].state == Clean
    && t.writePos == t.cfg.Pos(c, t.flash[c].items, |t.flash[c].items|)
    && t.cfg.Size(item) <= t.info[c].space
    && t.cfg.Off(t.flash[c].items, |t.flash[c].items|) + t.cfg.Size(item) < t.cfg.blockSize - BLOCK_HDR_SIZE
  }

  lemma CopyHasRoom(t: Kv, c: nat, item: Item)
    requires CanCopy(t, c, item)
    ensures HasRoom(t.cfg, t.flash[c].items + [item]) && t.cfg.BlockOf(t.writePos + t.cfg.Size(item)) == c
  {
    OffAgree(t.cfg, t.flash[c].items, t.flash[c].items + [item], |t.flash[c].items|);
    BlockOfPos(t.cfg, c, BLOCK_HDR_SIZE + t.cfg.Off(t.flash[c].items, |t.flash[c].items|) + t.cfg.Size(item));
  }

  lemma QuiescentActive(s: Kv)
    requires Inv(s)
    ensures Shaped(s) && Active(s) < BLOCK_NUMS && Books(s, Active(s))
    ensures s.writePos == s.cfg.Pos(Active(s), Items(s), |Items(s)|) > 0
  {
  }

  lemma StoreHasRoom(s: Kv, item: Item)
    requires Books(s, Active(s)) && s.info[Active(s)].space > s.cfg.Size(item)
    ensures HasRoom(s.cfg, Items(s) + [item]) && s.flash[Active(s)].state != Blank
  {
    OffAgree(s.cfg, Items(s), Items(s) + [item], |Items(s)|);
  }

  /** A store in terms of the single append. */
  lemma StoreIs(s: Kv, key: Bytes, val: Bytes, origin: nat)
    requires Inv(s)
    ensures var a, item := Active(s), NewItem(s.cfg, key, val, origin); var len := s.cfg.Size(item);
      && s.cfg.BlockOf(s.writePos) == a < BLOCK_NUMS && s.writePos > 0
      && (s.info[a].space > len ==>
            && HasRoom(s.cfg, Items(s) + [item]) && s.flash[a].state != Blank && s.cfg.BlockOf(s.writePos + len) == a
            && Store(s, key, val, origin) ==
               (WithCopy(s, a, item).(
                 gcTrigger := s.gcTrigger || (s.info[a].space - len < ITEM_MAX_LEN && s.cleanNums <= RESERVED_BLOCKS)), Ok))
      && (s.info[a].space <= len ==> Store(s, key, val, origin) == (s.(gcTrigger := true), NoSpace))
  {
    hide UniqueLive, AllSane, AllLive;
    var item := NewItem(s.cfg, key, val, origin);
    StoreStaysInBlock(s, s.cfg.Size(item));
    if s.info[Active(s)].space > s.cfg.Size(item) {
      StoreHasRoom(s, item);
    }
  }

  function WithCopy(t: Kv, c: nat, item: Item): Kv
    requires Shaped(t) && c < BLOCK_NUMS && t.cfg.Size(item) <= t.info[c].space
  {
    t.(flash := t.flash[c := t.flash[c].(items := t.flash[c].items + [item])],
       info := t.info[c := t.info[c].(space := t.info[c].space - t.cfg.Size(item))],
       writePos := t.writePos + t.cfg.Size(item))
  }

  /** One more record looked at. */
  lemma CopyIntoNext(s: Kv, c: nat, v: nat, i: nat)
    requires Inv(s) && v == Active(s) && c == 1 - v && i < |s.flash[v].items| && CopyFits(s, c, v, i)
    ensures CopyFits(s, c, v, i + 1)
    ensures CopyInto(s, c, v, i).flash[v] == s.flash[v]
    ensures s.flash[v].items[i].live ==>
      && CanCopy(CopyInto(s, c, v, i), c, s.flash[v].items[i])
      && CopyInto(s, c, v, i + 1) == WithCopy(CopyInto(s, c, v, i), c, s.flash[v].items[i])
    ensures !s.flash[v].items[i].live ==> CopyInto(s, c, v, i + 1) == CopyInto(s, c, v, i)
  {
    hide LiveOnly, AllSane, Sane, Items, Contents, UniqueLive, Active, AllLive;
    CopyIntoStep(s, c, v, i);
  }

  lemma CopyIntoStep(s: Kv, c: nat, v: nat, i: nat)
    requires Inv(s) && v == Active(s) && c == 1 - v && i < |s.flash[v].items|
    ensures var items, kept := s.flash[v].items, LiveOnly(s.flash[v].items[..i]);
      && LiveOnly(items[..i + 1]) == (if items[i].live then kept + [items[i]] else kept)
      && s.cfg.Off(LiveOnly(items[..i + 1]), |LiveOnly(items[..i + 1])|)
           == s.cfg.Off(kept, |kept|) + (if items[i].live then s.cfg.Size(items[i]) else 0)
      && s.cfg.Off(LiveOnly(items[..i + 1]), |LiveOnly(items[..i + 1])|) < s.info[c].space == s.cfg.blockSize - BLOCK_HDR_SIZE
  {
    hide LiveOnly, UniqueLive, AllSane;
    LiveOnlyFits(s, i + 1);
    hide Inv;
    LiveOnlyNext(s.cfg, s.flash[v].items, i);
  }

  lemma LiveOnlyNext(c: Config, items: seq<Item>, i: nat)
    requires c.align > 0 && i < |items|
    ensures var kept, more := LiveOnly(items[..i]), LiveOnly(items[..i + 1]);
      && more == (if items[i].live then kept + [items[i]] else kept)
      && c.Off(more, |more|) == c.Off(kept, |kept|) + if items[i].live then c.Size(items[i]) else 0
  {
    var kept := LiveOnly(items[..i]);
    assert items[..i + 1][..i] == items[..i];
    OffAgree(c, kept, kept + [items[i]], |kept|);
  }

  lemma PrefixBlock0(s: Kv, prefix: Bytes)
    requires Inv(s)
    ensures Inv(DeletePrefixIn(s, 0, prefix, 0))
  {
    if Active(s) == 0 {
      DeletePrefixFrom(s, prefix, 0);
    }
  }
}
