/** What a power cut inside an operation, or damage on flash, costs: recovery after an update that never retired
    its old version, after a delete that never marked its block, and after one corrupted byte. */
module KvPowerCut {
  import opened KvTypes
  import opened KvCrc
  import opened KvModel
  import opened KvRefinement
  import opened KvRecovery

  // ---------------------------------------------------------------------------------------------
  // A cut between the two halves of an update

  /** The old version at `i` and its replacement `x` are both live. */
  ghost predicate Doubled(c: Config, b: nat, items: seq<Item>, i: nat, x: Item) {
    && c.align > 0 && AllSane(c, items) && UniqueLive(items) && i < |items| && items[i].live
    && Sane(c, x) && x.live && x.key == items[i].key && x.origin == c.Pos(b, items, i)
  }

  lemma DoubledAlone(c: Config, b: nat, items: seq<Item>, i: nat, x: Item, j: nat)
    requires Doubled(c, b, items, i, x) && j < |items| && j != i
    ensures Alone(items + [x], j) && Quiet(c, b, items + [x], j)
  {
    var all := items + [x];
    AllSaneAppend(c, items, x);
    forall k | 0 <= k < |all| && k != j && all[j].live && all[k].live ensures all[k].key != all[j].key {
      var k' := if k == |items| then i else k;
      if j < k' {
        LiveKeysDiffer(items, j, k');
      } else {
        LiveKeysDiffer(items, k', j);
      }
    }
  }

  /** The record an interrupted update loses: the old version, unless its own stale header names the place where
      the new one was written. */
  function Loser(c: Config, b: nat, items: seq<Item>, i: nat): nat
    requires c.align > 0 && i < |items|
  {
    if items[i].origin == c.Pos(b, items, |items|) then |items| else i
  }

  /** The visit of the old version. */
  lemma PassOld(c: Config, b: nat, items: seq<Item>, i: nat, x: Item)
    requires Doubled(c, b, items, i, x)
    ensures var all := items + [x];
      PassRecord(c, b, all, i) == if Loser(c, b, items, i) == i then all else Cleared(all, |items|)
  {
    var all, n := items + [x], |items|;
    OffAgree(c, items, all, i);
    OffAgree(c, items, all, n);
    FindAtSelf(c, b, all, n);
    OffIncreases(c, all, i, n);
    var j := OutdatedIn(c, b, all, i);
    if j.Some? && j.value < n && j.value != i {
      DoubledAlone(c, b, items, i, x, j.value);
    }
  }

  /** The visit of the new version, when the old one is still live. */
  lemma PassNew(c: Config, b: nat, items: seq<Item>, i: nat, x: Item)
    requires Doubled(c, b, items, i, x)
    ensures PassRecord(c, b, items + [x], |items|) == Cleared(items + [x], i)
  {
    var all, n := items + [x], |items|;
    OffAgree(c, items, all, i);
    FindAtSelf(c, b, all, i);
    OffIncreases(c, all, i, n);
  }

  /** Visits up to `k` leave both versions live, the visit of the old version being quiet or still ahead. */
  lemma PassUpTo(c: Config, b: nat, items: seq<Item>, i: nat, x: Item, k: nat)
    requires Doubled(c, b, items, i, x) && k <= |items|
    requires k <= i || Loser(c, b, items, i) == i
    ensures PassFrom(c, b, items + [x], 0) == PassFrom(c, b, items + [x], k)
  {
    forall j | 0 <= j < k ensures Quiet(c, b, items + [x], j) {
      if j == i {
        PassOld(c, b, items, i, x);
      } else {
        DoubledAlone(c, b, items, i, x, j);
      }
    }
    PassSkips(c, b, items + [x], 0, k);
  }

  lemma PassDoubled(c: Config, b: nat, items: seq<Item>, i: nat, x: Item)
    requires Doubled(c, b, items, i, x)
    ensures PassFrom(c, b, items + [x], 0) == Cleared(items + [x], Loser(c, b, items, i))
  {
    var all, n := items + [x], |items|;
    if Loser(c, b, items, i) == i {
      PassUpTo(c, b, items, i, x, n);
      PassNew(c, b, items, i, x);
      assert PassFrom(c, b, all, n) == PassFrom(c, b, Cleared(all, i), n + 1);
    } else {
      PassUpTo(c, b, items, i, x, i);
      PassOld(c, b, items, i, x);
      PassWithoutNew(c, b, items, x, i + 1);
    }
  }

  lemma PassWithoutNew(c: Config, b: nat, items: seq<Item>, x: Item, k: nat)
    requires c.align > 0 && AllSane(c, items) && UniqueLive(items) && Sane(c, x) && k <= |items|
    ensures PassFrom(c, b, Cleared(items + [x], |items|), k) == Cleared(items + [x], |items|)
  {
    var dead := x.(live := false);
    assert Cleared(items + [x], |items|) == items + [dead];
    ContentsAppend(items, dead);
    AllSaneAppend(c, items, dead);
    PassUnique(c, b, items + [dead], k);
  }

  lemma LoserContents(c: Config, b: nat, items: seq<Item>, i: nat, x: Item)
    requires Doubled(c, b, items, i, x)
    ensures var left := Cleared(items + [x], Loser(c, b, items, i));
      && UniqueLive(left)
      && Contents(left) == if Loser(c, b, items, i) == i then Contents(items)[x.key := x.val] else Contents(items)
  {
    if Loser(c, b, items, i) == i {
      ReplaceUpdates(items, i, x);
    } else {
      assert Cleared(items + [x], |items|) == items + [x.(live := false)];
      ContentsAppend(items, x.(live := false));
    }
  }

  /** A power cut after the new version is stored and before the old one is retired: the recovered store is
      quiescent and its map is the one before the update or the one after it. */
  lemma UpdateIsAtomic(s: Kv, i: nat, val: Bytes)
    requires Inv(s) && i < |Items(s)| && Items(s)[i].live && 0 < |val| <= MAX_VAL_LEN
    requires Fits(s, Items(s)[i].key, val)
    ensures var key := Items(s)[i].key;
      var cut := StoreUpdate(s, Ref(Active(s), i), key, val).0;
      var t := Recover(s.cfg, cut.flash);
      Inv(t) && Map(t) == if Loser(s.cfg, Active(s), Items(s), i) == i then Map(s)[key := val] else Map(s)
  {
    var key := Items(s)[i].key;
    var x := NewItem(s.cfg, key, val, s.cfg.Pos(Active(s), Items(s), i));
    PosInFlash(s, i);
    StoreBooks(s, key, val, x.origin);
    CutRecovers(s, StoreUpdate(s, Ref(Active(s), i), key, val).0, i, x);
  }

  lemma CutRecovers(s: Kv, cut: Kv, i: nat, x: Item)
    requires Inv(s) && Doubled(s.cfg, Active(s), Items(s), i, x)
    requires cut.cfg == s.cfg && Active(cut) == Active(s) && Books(cut, Active(s)) && Items(cut) == Items(s) + [x]
    ensures var t := Recover(s.cfg, cut.flash);
      Inv(t) && Map(t) == if Loser(s.cfg, Active(s), Items(s), i) == i then Map(s)[x.key := x.val] else Map(s)
  {
    PassDoubled(s.cfg, Active(s), Items(s), i, x);
    LoserContents(s.cfg, Active(s), Items(s), i, x);
    RecoverCut(s, cut, Cleared(Items(s) + [x], Loser(s.cfg, Active(s), Items(s), i)));
  }

  /** Recovery from a flash with sound books whose records the pass turns into `left`. */
  lemma RecoverCut(s: Kv, cut: Kv, left: seq<Item>)
    requires Books(cut, Active(cut)) && cut.cfg == s.cfg
    requires left == PassFrom(s.cfg, Active(cut), Items(cut), 0) && UniqueLive(left)
    ensures var t := Recover(s.cfg, cut.flash);
      Inv(t) && Map(t) == Contents(left) && Items(t) == left && Active(t) == Active(cut)
  {
    var a := Active(cut);
    RecoverOneBlock(s.cfg, cut.flash, a);
    RetiresSpace(s.cfg, Items(cut), left);
    RebuiltInv(Recover(s.cfg, cut.flash), s.cfg, cut.flash, a, left);
  }

  // ---------------------------------------------------------------------------------------------
  // A cut inside a delete, and a first start

  /** The record's state byte is cleared but its block does not yet say `Dirty`: the key is gone all the same. */
  lemma DeleteIsAtomic(s: Kv, i: nat)
    requires Inv(s) && i < |Items(s)| && Items(s)[i].live
    ensures var a := Active(s);
      var cut := s.flash[a := s.flash[a].(items := Cleared(Items(s), i))];
      var t := Recover(s.cfg, cut);
      Inv(t) && Map(t) == Map(s) - {Items(s)[i].key}
  {
    var left := Cleared(Items(s), i);
    DeadRemoves(Items(s), i, left[i]);
    OffAgree(s.cfg, Items(s), left, |left|);
    PassUnique(s.cfg, Active(s), left, 0);
    RecoverReplaced(s, left, left);
  }

  /** Recovery when the active block holds `items` instead, which the pass turns into `left`. */
  lemma RecoverReplaced(s: Kv, items: seq<Item>, left: seq<Item>)
    requires Inv(s) && s.cfg.Off(items, |items|) < s.cfg.blockSize - BLOCK_HDR_SIZE
    requires left == PassFrom(s.cfg, Active(s), items, 0) && AllSane(s.cfg, left) && UniqueLive(left)
    ensures var a := Active(s);
      var t := Recover(s.cfg, s.flash[a := s.flash[a].(items := items)]);
      Inv(t) && Map(t) == Contents(left)
  {
    hide Settle, Map, PassFrom, RecoverBlock, InUse, VisitFrom, Items;
    var a := Active(s);
    var flash := s.flash[a := s.flash[a].(items := items)];
    RetiresSpace(s.cfg, items, left);
    RecoverOneBlock(s.cfg, flash, a);
    RebuiltInv(Recover(s.cfg, flash), s.cfg, flash, a, left);
  }

  /** A flash without valid headers becomes an empty store writing to block 0. */
  lemma FirstStart(c: Config)
    requires c.Valid()
    ensures var t := Recover(c, [Block(Blank, []), Block(Blank, [])]);
      Inv(t) && Map(t) == map[] && t.writePos == BLOCK_HDR_SIZE
  {
    var t := Recover(c, [Block(Blank, []), Block(Blank, [])]);
    assert t.flash == [Block(Used, []), Block(Clean, [])];
    assert t.info == [Info(Used, c.blockSize - BLOCK_HDR_SIZE), Info(Clean, c.blockSize - BLOCK_HDR_SIZE)];
    assert t.writePos == BLOCK_HDR_SIZE && t.cleanNums == 1;
  }

  // ---------------------------------------------------------------------------------------------
  // One corrupted byte

  /** `d` is the live record `item` with one byte of its key or value replaced. */
  ghost predicate OneByteOff(item: Item, d: Item) {
    && d.live && d.crc == item.crc && d.origin == item.origin
    && |d.key| == |item.key| && |d.val| == |item.val|
    && exists k :: 0 <= k < |item.key + item.val| && (item.key + item.val)[k] != (d.key + d.val)[k]
                   && d.key + d.val == (item.key + item.val)[k := (d.key + d.val)[k]]
  }

  lemma DamageShows(c: Config, item: Item, d: Item)
    requires c.crc == Crc8 && Sane(c, item) && item.live && OneByteOff(item, d)
    ensures d.crc != c.crc(d.key + d.val)
  {
    var k :| 0 <= k < |item.key + item.val| && (item.key + item.val)[k] != (d.key + d.val)[k]
             && d.key + d.val == (item.key + item.val)[k := (d.key + d.val)[k]];
    OneByteDetected(item.key + item.val, k, (d.key + d.val)[k]);
  }

  /** Visiting record `j`: only the damaged record can be retired, and it is when visited. */
  lemma DamagedPassRecord(c: Config, b: nat, items: seq<Item>, i: nat, d: Item, j: nat)
    requires c.align > 0 && AllSane(c, items) && UniqueLive(items) && i < |items| && items[i].live
    requires d.live && d.crc != c.crc(d.key + d.val) && j < |items|
    ensures var bad := items[i := d];
      && (PassRecord(c, b, bad, j) == bad || PassRecord(c, b, bad, j) == Cleared(bad, i))
      && (j == i ==> PassRecord(c, b, bad, j) == Cleared(bad, i))
  {
    var bad := items[i := d];
    var v := OutdatedIn(c, b, bad, j);
    if j != i && v.Some? && v.value != i && v.value != j && items[j].live && items[v.value].live {
      if j < v.value {
        LiveKeysDiffer(items, j, v.value);
      } else {
        LiveKeysDiffer(items, v.value, j);
      }
    }
  }

  lemma {:induction false} DamagedPass(c: Config, b: nat, items: seq<Item>, i: nat, d: Item, j: nat)
    requires c.align > 0 && AllSane(c, items) && UniqueLive(items) && i < |items| && items[i].live
    requires d.live && d.crc != c.crc(d.key + d.val) && j <= i
    ensures PassFrom(c, b, items[i := d], j) == Cleared(items[i := d], i)
    decreases i - j
  {
    hide PassRecord;
    DamagedPassRecord(c, b, items, i, d, j);
    if Quiet(c, b, items[i := d], j) {
      DamagedPass(c, b, items, i, d, j + 1);
    } else {
      DamagedRest(c, b, items, i, d, j + 1);
    }
  }

  lemma DamagedRest(c: Config, b: nat, items: seq<Item>, i: nat, d: Item, j: nat)
    requires c.align > 0 && AllSane(c, items) && UniqueLive(items) && i < |items| && items[i].live && j <= |items|
    ensures PassFrom(c, b, Cleared(items[i := d], i), j) == Cleared(items[i := d], i)
  {
    var left := Cleared(items[i := d], i);
    forall k | j <= k < |items| ensures Quiet(c, b, left, k) {
      UniqueAlone(items, k);
    }
    PassSkips(c, b, left, j, |items|);
  }

  /** One byte of a live record's key or value changes on flash while the store is off: recovery retires exactly
      that record, and every other key keeps its value. */
  lemma DamageCostsOneKey(s: Kv, i: nat, d: Item)
    requires Inv(s) && s.cfg.crc == Crc8 && i < |Items(s)| && Items(s)[i].live && OneByteOff(Items(s)[i], d)
    ensures var a := Active(s);
      var t := Recover(s.cfg, s.flash[a := s.flash[a].(items := Items(s)[i := d])]);
      Inv(t) && Map(t) == Map(s) - {Items(s)[i].key}
  {
    hide PassFrom, UniqueLive, Active;
    var bad := Items(s)[i := d];
    var left := Cleared(bad, i);
    DamageShows(s.cfg, Items(s)[i], d);
    DamagedPass(s.cfg, Active(s), Items(s), i, d, 0);
    SameLengths(s.cfg, Items(s), bad, |bad|);
    assert left == Items(s)[i := d.(live := false)];
    DeadRemoves(Items(s), i, d.(live := false));
    RecoverReplaced(s, bad, left);
  }

  lemma {:induction false} SameLengths(c: Config, a: seq<Item>, b: seq<Item>, i: nat)
    requires c.align > 0 && |a| == |b| && i <= |a|
    requires forall k :: 0 <= k < |a| ==> |a[k].key| == |b[k].key| && |a[k].val| == |b[k].val|
    ensures c.Off(a, i) == c.Off(b, i)
  {
    if i > 0 {
      SameLengths(c, a, b, i - 1);
    }
  }
}
