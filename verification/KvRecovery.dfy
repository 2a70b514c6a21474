/** `kv_init`: rebuilding the RAM record from flash after a restart or a power cut
    (components/kv/kv.c, __item_recovery_cb and kv_init_internal). */
module KvRecovery {
  import opened KvTypes
  import opened KvModel
  import opened KvRefinement

  // ---------------------------------------------------------------------------------------------
  // The procedure

  /** The record that visiting live record `i` of block `b` retires: itself on a bad checksum, else the older
      version of its key that its header names. */
  function Outdated(s: Kv, b: nat, i: nat): (r: Option<Ref>)
    requires Shaped(s) && b < BLOCK_NUMS && i < |s.flash[b].items|
    ensures r.Some? ==> r.value.block < BLOCK_NUMS && r.value.index < |s.flash[r.value.block].items|
  {
    var item := s.flash[b].items[i];
    if item.crc != s.cfg.crc(item.key + item.val) then Some(Ref(b, i))
    else if item.origin == 0 || item.origin == s.cfg.Pos(b, s.flash[b].items, i) then None
    else
      var old_ := RefAt(s, item.origin);
      if old_.Some? && ItemAt(s, old_.value).live && ItemAt(s, old_.value).key == item.key then old_ else None
  }

  function VisitRecord(s: Kv, b: nat, i: nat): (t: Kv)
    requires Shaped(s) && b < BLOCK_NUMS && i < |s.flash[b].items|
    ensures Shaped(t) && t.cfg == s.cfg
    ensures forall c :: 0 <= c < BLOCK_NUMS ==> |t.flash[c].items| == |s.flash[c].items|
  {
    if !s.flash[b].items[i].live then MarkDirty(s, b)
    else if Outdated(s, b, i).Some? then Retire(s, Outdated(s, b, i).value)
    else s
  }

  function VisitFrom(s: Kv, b: nat, i: nat): (t: Kv)
    requires Shaped(s) && b < BLOCK_NUMS && i <= |s.flash[b].items|
    ensures Shaped(t) && t.cfg == s.cfg
    ensures forall c :: 0 <= c < BLOCK_NUMS ==> |t.flash[c].items| == |s.flash[c].items|
    decreases |s.flash[b].items| - i
  {
    if i == |s.flash[b].items| then s else VisitFrom(VisitRecord(s, b, i), b, i + 1)
  }

  /** Free space as a scan of the whole block recomputes it. */
  function FreeSpace(c: Config, items: seq<Item>): (space: nat)
    requires c.align > 0
    ensures space > 0
  {
    var used := BLOCK_HDR_SIZE + c.Off(items, |items|);
    if c.blockSize > used then c.blockSize - used else ITEM_HDR_SIZE
  }

  /** The block's state byte as read from its header. */
  function Known(s: Kv, b: nat): (t: Kv)
    requires Shaped(s) && b < BLOCK_NUMS
    ensures Shaped(t) && t.cfg == s.cfg && t.flash == s.flash
  {
    s.(info := s.info[b := s.info[b].(state := s.flash[b].state)])
  }

  function Spaced(s: Kv, b: nat): (t: Kv)
    requires Shaped(s) && b < BLOCK_NUMS
    ensures Shaped(t) && t.cfg == s.cfg && t.flash == s.flash
  {
    s.(info := s.info[b := s.info[b].(space := FreeSpace(s.cfg, s.flash[b].items))])
  }

  /** The flag tells that the block says `Clean` but holds records. */
  function RecoverBlock(s: Kv, b: nat): (r: (Kv, bool))
    requires Shaped(s) && b < BLOCK_NUMS
    ensures Shaped(r.0) && r.0.cfg == s.cfg
  {
    if s.flash[b].state == Blank then (Format(s, b), false)
    else
      var t := Spaced(VisitFrom(Known(s, b), b, 0), b);
      if s.flash[b].state != Clean then (t, false)
      else if t.info[b].space != s.cfg.blockSize - BLOCK_HDR_SIZE then (t, true)
      else (t.(cleanNums := t.cleanNums + 1), false)
  }

  /** A block that says `Clean` but holds records is kept if another clean block exists, else erased. */
  function Settle(s: Kv, b: nat, unclean: bool): (t: Kv)
    requires Shaped(s) && b < BLOCK_NUMS
    ensures Shaped(t)
  {
    if !unclean then s
    else if s.cleanNums >= RESERVED_BLOCKS then WithBlockState(s, b, Dirty)
    else Format(s, b)
  }

  predicate InUse(state: BlockState) {
    state == Used || state == Dirty
  }

  function ChooseWritePos(s: Kv): (t: Kv)
    requires Shaped(s)
    ensures Shaped(t)
  {
    var end := s.cfg.blockSize;
    if InUse(s.info[0].state) && s.info[1].state == Clean && s.info[0].space <= end then
      s.(writePos := end - s.info[0].space)
    else if InUse(s.info[1].state) && s.info[0].state == Clean && s.info[1].space <= end then
      s.(writePos := s.cfg.Base(1) + end - s.info[1].space)
    else s
  }

  /** The end of `kv_init`, once both blocks have been scanned. */
  function Finish(s: Kv, unclean0: bool, unclean1: bool): (t: Kv)
    requires Shaped(s)
    ensures Shaped(t)
  {
    var s3 := Settle(Settle(s, 1, unclean1), 0, unclean0);
    var s4 := if s3.cleanNums == 0 then Format(s3, 0) else s3;
    var s5 :=
      if s4.cleanNums == BLOCK_NUMS then
        WithBlockState(s4.(writePos := BLOCK_HDR_SIZE), 0, Used).(cleanNums := s4.cleanNums - 1)
      else ChooseWritePos(s4);
    s5.(gcTrigger := s5.info[Active(s5)].space < ITEM_MAX_LEN && s5.cleanNums < RESERVED_BLOCKS + 1)
  }

  function Recover(cfg: Config, flash: seq<Block>): (t: Kv)
    requires cfg.Valid() && |flash| == BLOCK_NUMS
    ensures Shaped(t)
  {
    var (s1, unclean0) := RecoverBlock(PowerOn(cfg, flash), 0);
    var (s2, unclean1) := RecoverBlock(s1, 1);
    Finish(s2, unclean0, unclean1)
  }

  /** Only the flash survives; the RAM record starts zeroed. */
  function PowerOn(cfg: Config, flash: seq<Block>): Kv {
    Kv(cfg, flash, [Info(Blank, 0), Info(Blank, 0)], 0, 0, false)
  }

  // ---------------------------------------------------------------------------------------------
  // The scan of one block, on its records alone

  /** `Outdated` when the other block is empty. */
  function OutdatedIn(c: Config, b: nat, items: seq<Item>, i: nat): (r: Option<nat>)
    requires c.align > 0 && i < |items|
    ensures r.Some? ==> r.value < |items|
  {
    var item := items[i];
    if item.crc != c.crc(item.key + item.val) then Some(i)
    else if item.origin == 0 || item.origin == c.Pos(b, items, i) then None
    else
      var j := c.FindAt(b, items, item.origin, 0);
      if j.Some? && items[j.value].live && items[j.value].key == item.key then j else None
  }

  function PassRecord(c: Config, b: nat, items: seq<Item>, i: nat): (r: seq<Item>)
    requires c.align > 0 && i < |items|
    ensures |r| == |items| && Retires(items, r)
  {
    if items[i].live && OutdatedIn(c, b, items, i).Some?
    then Cleared(items, OutdatedIn(c, b, items, i).value) else items
  }

  function PassFrom(c: Config, b: nat, items: seq<Item>, i: nat): (r: seq<Item>)
    requires c.align > 0 && i <= |items|
    ensures |r| == |items| && Retires(items, r)
    decreases |items| - i
  {
    if i == |items| then items else PassFrom(c, b, PassRecord(c, b, items, i), i + 1)
  }

  /** `b` is `a` with some live records retired. */
  ghost predicate Retires(a: seq<Item>, b: seq<Item>)
    requires |a| == |b|
  {
    forall i :: 0 <= i < |a| ==> b[i] == a[i] || b[i] == a[i].(live := false)
  }

  lemma RetiresSpace(c: Config, a: seq<Item>, b: seq<Item>)
    requires c.align > 0 && |a| == |b| && Retires(a, b)
    ensures c.Off(b, |b|) == c.Off(a, |a|)
    ensures AllSane(c, a) ==> AllSane(c, b)
    ensures AllLive(b) ==> b == a
  {
    OffAgree(c, a, b, |a|);
  }

  ghost predicate LiveBefore(items: seq<Item>, n: nat) {
    forall k :: 0 <= k < n && k < |items| ==> items[k].live
  }

  /** Midway through the scan of `b` at record `i`, with nothing in the other block. */
  ghost predicate Scanning(s: Kv, b: nat, i: nat) {
    && Shaped(s) && b < BLOCK_NUMS && i <= |s.flash[b].items|
    && s.flash[1 - b].items == []
    && s.info[b].state == s.flash[b].state
    && (s.flash[b].state == Used ==> LiveBefore(s.flash[b].items, i))
    && s.cfg.Off(s.flash[b].items, |s.flash[b].items|) < s.cfg.blockSize - BLOCK_HDR_SIZE
  }

  function WithBlock(s: Kv, b: nat, state: BlockState, items: seq<Item>): Kv
    requires Shaped(s) && b < BLOCK_NUMS
  {
    s.(flash := s.flash[b := Block(state, items)], info := s.info[b := Info(state, s.info[b].space)])
  }

  /** `t` differs from `s` in the records of block `b`, and perhaps in its having gone dirty. */
  ghost predicate OnlyItems(s: Kv, t: Kv, b: nat, items: seq<Item>)
    requires Shaped(s) && Shaped(t) && b < BLOCK_NUMS
  {
    && t == WithBlock(s, b, t.flash[b].state, items)
    && (t.flash[b].state == s.flash[b].state || (s.flash[b].state == Used && t.flash[b].state == Dirty && !AllLive(items)))
  }

  /** Looking a position up in the flash is looking it up in the one block that has records. */
  lemma RefAtOneBlock(s: Kv, b: nat, pos: nat)
    requires Scanning(s, b, 0)
    ensures RefAt(s, pos) == var j := s.cfg.FindAt(b, s.flash[b].items, pos, 0);
      if j.Some? then Some(Ref(b, j.value)) else None
  {
    var c, items := s.cfg, s.flash[b].items;
    var j := c.FindAt(b, items, pos, 0);
    if j.Some? {
      OffIncreases(c, items, j.value, |items|);
      BlockOfPos(c, b, BLOCK_HDR_SIZE + c.Off(items, j.value));
    }
  }

  lemma ScanRetire(s: Kv, b: nat, j: nat, i: nat)
    requires Scanning(s, b, i) && j < |s.flash[b].items|
    ensures var t := Retire(s, Ref(b, j));
      Scanning(t, b, i) && OnlyItems(s, t, b, Cleared(s.flash[b].items, j)) && t.flash[b].state != Used
  {
    var items, t := Cleared(s.flash[b].items, j), Retire(s, Ref(b, j));
    OffAgree(s.cfg, s.flash[b].items, items, |items|);
    assert t == WithBlock(s, b, t.flash[b].state, items);
  }

  lemma OutdatedOneBlock(s: Kv, b: nat, i: nat)
    requires Scanning(s, b, i) && i < |s.flash[b].items|
    ensures Outdated(s, b, i) == var j := OutdatedIn(s.cfg, b, s.flash[b].items, i);
      if j.Some? then Some(Ref(b, j.value)) else None
  {
    RefAtOneBlock(s, b, s.flash[b].items[i].origin);
  }

  lemma OnlyItemsSame(s: Kv, b: nat)
    requires Shaped(s) && b < BLOCK_NUMS && s.info[b].state == s.flash[b].state
    ensures OnlyItems(s, s, b, s.flash[b].items)
  {
    assert s == WithBlock(s, b, s.flash[b].state, s.flash[b].items);
  }

  lemma ScanDead(s: Kv, b: nat, i: nat)
    requires Scanning(s, b, i) && i < |s.flash[b].items| && !s.flash[b].items[i].live
    ensures Scanning(MarkDirty(s, b), b, i + 1) && OnlyItems(s, MarkDirty(s, b), b, s.flash[b].items)
  {
    var t := MarkDirty(s, b);
    assert t == WithBlock(s, b, t.flash[b].state, s.flash[b].items);
  }

  lemma ScanRecord(s: Kv, b: nat, i: nat)
    requires Scanning(s, b, i) && i < |s.flash[b].items|
    ensures var t := VisitRecord(s, b, i);
      Scanning(t, b, i + 1) && OnlyItems(s, t, b, PassRecord(s.cfg, b, s.flash[b].items, i))
  {
    OutdatedOneBlock(s, b, i);
    var j := OutdatedIn(s.cfg, b, s.flash[b].items, i);
    if !s.flash[b].items[i].live {
      ScanDead(s, b, i);
    } else if j.Some? {
      ScanRetire(s, b, j.value, i);
    } else {
      OnlyItemsSame(s, b);
    }
  }

  lemma ScanJoin(s: Kv, b: nat, i: nat, t: Kv, u: Kv)
    requires Scanning(s, b, i) && i < |s.flash[b].items| && Shaped(t) && Shaped(u)
    requires OnlyItems(s, t, b, PassRecord(s.cfg, b, s.flash[b].items, i))
    requires OnlyItems(t, u, b, PassFrom(t.cfg, b, t.flash[b].items, i + 1))
    ensures OnlyItems(s, u, b, PassFrom(s.cfg, b, s.flash[b].items, i))
  {
  }

  /** The scan of a block, next to an empty one, is the pass over its records. */
  lemma {:induction false} ScanFrom(s: Kv, b: nat, i: nat)
    requires Scanning(s, b, i)
    ensures var t := VisitFrom(s, b, i);
      Scanning(t, b, |s.flash[b].items|) && OnlyItems(s, t, b, PassFrom(s.cfg, b, s.flash[b].items, i))
    decreases |s.flash[b].items| - i
  {
    hide VisitRecord, PassRecord, OnlyItems, WithBlock, LiveBefore;
    if i == |s.flash[b].items| {
      OnlyItemsSame(s, b);
    } else {
      var t := VisitRecord(s, b, i);
      ScanRecord(s, b, i);
      ScanFrom(t, b, i + 1);
      ScanJoin(s, b, i, t, VisitFrom(t, b, i + 1));
      assert VisitFrom(s, b, i) == VisitFrom(t, b, i + 1);
    }
  }

  // ---------------------------------------------------------------------------------------------
  // kv_init when one block holds the records

  /** `s` after the scan of block `b`: its records, its state and its free space. */
  function Scanned(s: Kv, b: nat, state: BlockState, items: seq<Item>): Kv
    requires Shaped(s) && b < BLOCK_NUMS
  {
    s.(flash := s.flash[b := Block(state, items)], info := s.info[b := Info(state, FreeSpace(s.cfg, items))])
  }

  lemma RecoverEmptyClean(s: Kv, b: nat)
    requires Shaped(s) && b < BLOCK_NUMS && s.flash[b] == Block(Clean, [])
    ensures RecoverBlock(s, b).0 == Scanned(s, b, Clean, []).(cleanNums := s.cleanNums + 1)
    ensures !RecoverBlock(s, b).1
  {
    assert VisitFrom(Known(s, b), b, 0) == Known(s, b);
    assert s.flash[b := Block(Clean, [])] == s.flash;
  }

  /** The state a used or dirty block ends its scan in. */
  ghost predicate EndState(before: BlockState, after: BlockState, items: seq<Item>) {
    && (after == before || (before == Used && after == Dirty && !AllLive(items)))
    && (after == Used ==> AllLive(items))
  }

  lemma RecoverInUse(s: Kv, b: nat)
    requires Shaped(s) && b < BLOCK_NUMS && s.flash[1 - b].items == [] && InUse(s.flash[b].state)
    requires s.cfg.Off(s.flash[b].items, |s.flash[b].items|) < s.cfg.blockSize - BLOCK_HDR_SIZE
    ensures var t, items := RecoverBlock(s, b).0, PassFrom(s.cfg, b, s.flash[b].items, 0);
      t == Scanned(s, b, t.flash[b].state, items) && EndState(s.flash[b].state, t.flash[b].state, items)
    ensures !RecoverBlock(s, b).1
  {
    hide PassFrom;
    ScanFrom(Known(s, b), b, 0);
    var items, seen := PassFrom(s.cfg, b, s.flash[b].items, 0), VisitFrom(Known(s, b), b, 0);
    assert seen == WithBlock(Known(s, b), b, seen.flash[b].state, items);
    assert Spaced(seen, b) == Scanned(s, b, seen.flash[b].state, items);
  }

  /** What `kv_init` leaves when block `a` holds all records, `items` being what the pass makes of them. */
  ghost predicate Rebuilt(t: Kv, c: Config, flash: seq<Block>, a: nat, items: seq<Item>)
    requires c.Valid() && |flash| == BLOCK_NUMS && a < BLOCK_NUMS && |t.flash| == BLOCK_NUMS == |t.info|
  {
    && t.cfg == c && t.cleanNums == RESERVED_BLOCKS
    && t.flash == flash[a := Block(t.flash[a].state, items)]
    && t.info[a] == Info(t.flash[a].state, FreeSpace(c, items))
    && t.info[1 - a] == Info(Clean, FreeSpace(c, []))
    && t.writePos == c.Pos(a, items, |items|)
    && EndState(flash[a].state, t.flash[a].state, items)
  }

  /** The scanned state of a flash whose block `a` holds the records. */
  ghost predicate OneScanned(s: Kv, c: Config, flash: seq<Block>, a: nat, items: seq<Item>)
    requires c.Valid() && |flash| == BLOCK_NUMS && a < BLOCK_NUMS && Shaped(s)
  {
    && s.cfg == c && s.cleanNums == 1
    && s.flash == flash[a := Block(s.flash[a].state, items)]
    && s.info[a] == Info(s.flash[a].state, FreeSpace(c, items))
    && s.info[1 - a] == Info(Clean, FreeSpace(c, []))
    && EndState(flash[a].state, s.flash[a].state, items)
  }

  lemma FinishOne(s: Kv, c: Config, flash: seq<Block>, a: nat, items: seq<Item>)
    requires c.Valid() && |flash| == BLOCK_NUMS && a < BLOCK_NUMS && InUse(flash[a].state)
    requires Shaped(s) && OneScanned(s, c, flash, a, items)
    requires c.Off(items, |items|) < c.blockSize - BLOCK_HDR_SIZE
    ensures Rebuilt(Finish(s, false, false), c, flash, a, items)
  {
    hide Finish, Sane;
    var t := Finish(s, false, false);
    FinishCounted(s);
    assert t == ChooseWritePos(s).(gcTrigger := t.gcTrigger);
  }

  /** With one clean block counted and nothing to settle only the write position is chosen. */
  lemma FinishCounted(s: Kv)
    requires Shaped(s) && s.cleanNums == 1
    ensures var t := Finish(s, false, false); t == ChooseWritePos(s).(gcTrigger := t.gcTrigger)
  {
    hide ChooseWritePos;
  }

  lemma ScanBlock0(c: Config, flash: seq<Block>)
    requires c.Valid() && |flash| == BLOCK_NUMS && flash[1] == Block(Clean, []) && InUse(flash[0].state)
    requires c.Off(flash[0].items, |flash[0].items|) < c.blockSize - BLOCK_HDR_SIZE
    ensures var (s1, unclean0) := RecoverBlock(PowerOn(c, flash), 0);
      var (s2, unclean1) := RecoverBlock(s1, 1);
      !unclean0 && !unclean1 && OneScanned(s2, c, flash, 0, PassFrom(c, 0, flash[0].items, 0))
  {
    RecoverInUse(PowerOn(c, flash), 0);
    RecoverEmptyClean(RecoverBlock(PowerOn(c, flash), 0).0, 1);
  }

  lemma ScanBlock1(c: Config, flash: seq<Block>)
    requires c.Valid() && |flash| == BLOCK_NUMS && flash[0] == Block(Clean, []) && InUse(flash[1].state)
    requires c.Off(flash[1].items, |flash[1].items|) < c.blockSize - BLOCK_HDR_SIZE
    ensures var (s1, unclean0) := RecoverBlock(PowerOn(c, flash), 0);
      var (s2, unclean1) := RecoverBlock(s1, 1);
      !unclean0 && !unclean1 && OneScanned(s2, c, flash, 1, PassFrom(c, 1, flash[1].items, 0))
  {
    RecoverEmptyClean(PowerOn(c, flash), 0);
    RecoverInUse(RecoverBlock(PowerOn(c, flash), 0).0, 1);
  }

  lemma RecoverOneBlock(c: Config, flash: seq<Block>, a: nat)
    requires c.Valid() && |flash| == BLOCK_NUMS && a < BLOCK_NUMS
    requires flash[1 - a] == Block(Clean, []) && InUse(flash[a].state)
    requires c.Off(flash[a].items, |flash[a].items|) < c.blockSize - BLOCK_HDR_SIZE
    ensures Rebuilt(Recover(c, flash), c, flash, a, PassFrom(c, a, flash[a].items, 0))
  {
    var items := PassFrom(c, a, flash[a].items, 0);
    RetiresSpace(c, flash[a].items, items);
    if a == 0 {
      ScanBlock0(c, flash);
    } else {
      ScanBlock1(c, flash);
    }
    var s1 := RecoverBlock(PowerOn(c, flash), 0).0;
    FinishOne(RecoverBlock(s1, 1).0, c, flash, a, items);
  }

  /** A rebuilt state with sane records and unique live keys is a quiescent store. */
  lemma RebuiltInv(t: Kv, c: Config, flash: seq<Block>, a: nat, items: seq<Item>)
    requires c.Valid() && |flash| == BLOCK_NUMS && a < BLOCK_NUMS && |t.flash| == BLOCK_NUMS == |t.info|
    requires flash[1 - a] == Block(Clean, []) && InUse(flash[a].state) && Rebuilt(t, c, flash, a, items)
    requires c.Off(items, |items|) < c.blockSize - BLOCK_HDR_SIZE && AllSane(c, items) && UniqueLive(items)
    ensures Active(t) == a && Inv(t) && Items(t) == items && Map(t) == Contents(items)
  {
  }

  // ---------------------------------------------------------------------------------------------
  // Restart and power cuts

  /** No other live record has the key of record `i`. */
  ghost predicate Alone(items: seq<Item>, i: nat)
    requires i < |items|
  {
    forall j :: 0 <= j < |items| && j != i && items[i].live && items[j].live ==> items[j].key != items[i].key
  }

  ghost predicate Quiet(c: Config, b: nat, items: seq<Item>, i: nat)
    requires c.align > 0 && i < |items|
  {
    PassRecord(c, b, items, i) == items
  }

  lemma AloneQuiet(c: Config, b: nat, items: seq<Item>, i: nat)
    requires c.align > 0 && AllSane(c, items) && i < |items| && Alone(items, i)
    ensures Quiet(c, b, items, i)
  {
  }

  lemma UniqueAlone(items: seq<Item>, i: nat)
    requires UniqueLive(items) && i < |items|
    ensures Alone(items, i)
  {
    forall j | 0 <= j < |items| && j != i && items[i].live && items[j].live ensures items[j].key != items[i].key {
      if j < i {
        LiveKeysDiffer(items, j, i);
      } else {
        LiveKeysDiffer(items, i, j);
      }
    }
  }

  /** Quiet records are passed over. */
  lemma {:induction false} PassSkips(c: Config, b: nat, items: seq<Item>, i: nat, k: nat)
    requires c.align > 0 && i <= k <= |items|
    requires forall j :: i <= j < k ==> Quiet(c, b, items, j)
    ensures PassFrom(c, b, items, i) == PassFrom(c, b, items, k)
    decreases k - i
  {
    hide Retires, PassRecord, Cleared;
    if i < k {
      assert Quiet(c, b, items, i);
      PassSkips(c, b, items, i + 1, k);
    }
  }

  lemma PassUnique(c: Config, b: nat, items: seq<Item>, i: nat)
    requires c.align > 0 && AllSane(c, items) && UniqueLive(items) && i <= |items|
    ensures PassFrom(c, b, items, i) == items
  {
    forall j | i <= j < |items| ensures Quiet(c, b, items, j) {
      UniqueAlone(items, j);
      AloneQuiet(c, b, items, j);
    }
    PassSkips(c, b, items, i, |items|);
  }

  /** A restart of a quiescent store rebuilds it: flash untouched, block record, write position and map the same. It
      asks for a collection if less is free than the largest record needs. */
  lemma RestartRebuilds(s: Kv)
    requires Inv(s)
    ensures Recover(s.cfg, s.flash) == s.(gcTrigger := s.info[Active(s)].space < 648)
  {
    hide Recover, PassFrom, Rebuilt, UniqueLive, AllSane, AllLive;
    var a, t := Active(s), Recover(s.cfg, s.flash);
    RecoverOneBlock(s.cfg, s.flash, a);
    PassUnique(s.cfg, a, Items(s), 0);
    RebuiltSame(s, t);
    RecoverAsks(s.cfg, s.flash);
  }

  lemma RecoverAsks(cfg: Config, flash: seq<Block>)
    requires cfg.Valid() && |flash| == BLOCK_NUMS
    ensures var t := Recover(cfg, flash); t.gcTrigger == (t.info[Active(t)].space < 648 && t.cleanNums < 2)
  {
    hide RecoverBlock, Settle, ChooseWritePos, Format, WithBlockState;
  }

  lemma RebuiltSame(s: Kv, t: Kv)
    requires Inv(s) && |t.flash| == BLOCK_NUMS == |t.info| && Rebuilt(t, s.cfg, s.flash, Active(s), Items(s))
    ensures t.flash == s.flash && t.info == s.info && t.writePos == s.writePos && t.cfg == s.cfg
    ensures t.cleanNums == s.cleanNums
  {
    hide UniqueLive, AllSane;
    assert t.flash[Active(s)] == s.flash[Active(s)];
  }
}
