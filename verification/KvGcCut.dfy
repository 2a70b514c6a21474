/** A power cut in the middle of a collection. The half-copied block is erased by recovery, but recovery first acts
    on the origin fields of the copies: a record whose origin is its own position loses its original. This module
    proves exactly which keys survive. */
module KvGcCut {
  import opened KvTypes
  import opened KvModel
  import opened KvRefinement
  import opened KvRecovery

  /** Block `v` holds the records `p`; `q` are the copies of the live ones among its first `n`. */
  datatype Cut = Cut(c: Config, v: nat, p: seq<Item>, n: nat, q: seq<Item>)

  ghost predicate Sound(k: Cut) {
    && k.c.Valid() && k.v < BLOCK_NUMS && k.n <= |k.p|
    && AllSane(k.c, k.p) && UniqueLive(k.p)
    && k.q == LiveOnly(k.p[..k.n])
    && k.c.Off(k.p, |k.p|) < k.c.blockSize - BLOCK_HDR_SIZE
    && k.c.Off(k.q, |k.q|) < k.c.blockSize - BLOCK_HDR_SIZE
  }

  /** A live record already copied whose header names its own position as the older version. */
  ghost predicate Lost(k: Cut, j: nat)
    requires Sound(k) && j < |k.p|
  {
    j < k.n && k.p[j].live && k.p[j].origin == k.c.Pos(k.v, k.p, j)
  }

  function Survivor(k: Cut, j: nat): Item
    requires k.c.align > 0 && j < |k.p|
  {
    if j < k.n && k.p[j].live && k.p[j].origin == k.c.Pos(k.v, k.p, j) then k.p[j].(live := false) else k.p[j]
  }

  /** The records of `v` that recovery leaves. */
  ghost function Survivors(k: Cut): (r: seq<Item>)
    requires Sound(k)
    ensures |r| == |k.p|
  {
    seq(|k.p|, j requires 0 <= j < |k.p| => Survivor(k, j))
  }

  // ---------------------------------------------------------------------------------------------
  // Copies and originals

  lemma {:induction false} CopyHasOriginal(items: seq<Item>, t: nat) returns (j: nat)
    requires t < |LiveOnly(items)|
    ensures j < |items| && items[j] == LiveOnly(items)[t] && items[j].live
  {
    var n := |items| - 1;
    if items[n].live && t == |LiveOnly(items[..n])| {
      j := n;
    } else {
      j := CopyHasOriginal(items[..n], t);
    }
  }

  lemma {:induction false} OriginalHasCopy(items: seq<Item>, j: nat) returns (t: nat)
    requires j < |items| && items[j].live
    ensures t < |LiveOnly(items)| && LiveOnly(items)[t] == items[j]
  {
    var n := |items| - 1;
    if j == n {
      t := |LiveOnly(items[..n])|;
    } else {
      t := OriginalHasCopy(items[..n], j);
    }
  }

  /** A live record of `p` with the key of a copy is what was copied. */
  lemma SameKeySameRecord(k: Cut, t: nat, j: nat)
    requires Sound(k) && t < |k.q| && j < |k.p| && k.p[j].live && k.p[j].key == k.q[t].key
    ensures k.p[j] == k.q[t] && j < k.n
  {
    var o := CopyHasOriginal(k.p[..k.n], t);
    if o < j {
      LiveKeysDiffer(k.p, o, j);
    } else if j < o {
      LiveKeysDiffer(k.p, j, o);
    }
  }

  lemma CopiesSound(k: Cut)
    requires Sound(k)
    ensures AllSane(k.c, k.q) && UniqueLive(k.q) && AllLive(k.q)
  {
    PrefixUnique(k.p, k.n);
    LiveOnlyKeepsContents(k.c, k.p[..k.n]);
  }

  // ---------------------------------------------------------------------------------------------
  // The scan

  /** During recovery: originals die only if lost, copies only if their origin is their own new position. */
  ghost predicate Mid(s: Kv, k: Cut) {
    && Sound(k) && Shaped(s) && s.cfg == k.c
    && s.flash[k.v].state == Dirty && s.flash[1 - k.v].state == Clean
    && s.info[0].state != Used && s.info[1].state != Used
    && var p, q := s.flash[k.v].items, s.flash[1 - k.v].items;
    && |p| == |k.p| && Retires(k.p, p) && |q| == |k.q| && Retires(k.q, q)
    && (forall j :: 0 <= j < |p| ==> p[j] == k.p[j] || Lost(k, j))
    && (forall t :: 0 <= t < |q| ==> q[t] == k.q[t] || k.q[t].origin == k.c.Pos(1 - k.v, k.q, t))
  }

  /** Lost originals whose copies are among the first `m` have been retired. */
  ghost predicate CopiesActed(s: Kv, k: Cut, m: nat)
    requires Mid(s, k)
  {
    forall t, j :: 0 <= t < m && t < |k.q| && 0 <= j < |k.p| && k.q[t] == k.p[j] && Lost(k, j) ==> !s.flash[k.v].items[j].live
  }

  lemma MidStates(s: Kv, k: Cut)
    requires Mid(s, k)
    ensures Sound(k) && Shaped(s) && s.cfg == k.c && k.v < BLOCK_NUMS && k.n <= |k.p|
    ensures s.flash[k.v].state == Dirty && s.flash[1 - k.v].state == Clean
    ensures |s.flash[k.v].items| == |k.p| && |s.flash[1 - k.v].items| == |k.q|
  {
  }

  lemma MidQuiet(s: Kv, k: Cut)
    requires Mid(s, k)
    ensures Shaped(s) && s.info[0].state != Used && s.info[1].state != Used
    ensures forall b :: 0 <= b < BLOCK_NUMS ==> MarkDirty(s, b) == s
  {
    hide Sound, Lost;
  }

  lemma RefAtPos(s: Kv, r: Ref, orig: seq<Item>)
    requires Shaped(s) && r.block < BLOCK_NUMS && r.index < |s.flash[r.block].items|
    requires |orig| == |s.flash[r.block].items| && Retires(orig, s.flash[r.block].items)
    requires s.cfg.Off(orig, |orig|) < s.cfg.blockSize - BLOCK_HDR_SIZE
    ensures s.cfg.Pos(r.block, s.flash[r.block].items, r.index) == s.cfg.Pos(r.block, orig, r.index)
    ensures RefAt(s, s.cfg.Pos(r.block, orig, r.index)) == Some(r)
  {
    var items := s.flash[r.block].items;
    OffAgree(s.cfg, orig, items, r.index);
    OffIncreases(s.cfg, orig, r.index, |items|);
    FindAtSelf(s.cfg, r.block, items, r.index);
    hide Retires;
    BlockOfPos(s.cfg, r.block, BLOCK_HDR_SIZE + s.cfg.Off(orig, r.index));
  }

  lemma MidPos(s: Kv, k: Cut, r: Ref)
    requires Mid(s, k) && r.block < BLOCK_NUMS && r.index < |s.flash[r.block].items|
    ensures var orig := if r.block == k.v then k.p else k.q;
      && s.cfg.Pos(r.block, s.flash[r.block].items, r.index) == k.c.Pos(r.block, orig, r.index)
      && RefAt(s, k.c.Pos(r.block, orig, r.index)) == Some(r)
  {
    RefAtPos(s, r, if r.block == k.v then k.p else k.q);
  }

  /** A record that is live during recovery is what it was before. */
  lemma LiveAsBefore(s: Kv, k: Cut, r: Ref)
    requires Mid(s, k) && r.block < BLOCK_NUMS && r.index < |s.flash[r.block].items| && ItemAt(s, r).live
    ensures var orig := if r.block == k.v then k.p else k.q;
      && |orig| == |s.flash[r.block].items| && ItemAt(s, r) == orig[r.index]
      && ItemAt(s, r).crc == s.cfg.crc(ItemAt(s, r).key + ItemAt(s, r).val)
  {
    hide UniqueLive, LiveOnly, Lost, Shaped;
    CopiesSound(k);
  }

  /** A record with a good checksum retires another live one of its key, at the position it names. */
  lemma OutdatedNames(s: Kv, r: Ref)
    requires Shaped(s) && r.block < BLOCK_NUMS && r.index < |s.flash[r.block].items|
    requires ItemAt(s, r).crc == s.cfg.crc(ItemAt(s, r).key + ItemAt(s, r).val)
    ensures var o := Outdated(s, r.block, r.index);
      o.Some? ==>
        && o.value != r && ItemAt(s, o.value).live && ItemAt(s, o.value).key == ItemAt(s, r).key
        && ItemAt(s, r).origin == s.cfg.Pos(o.value.block, s.flash[o.value.block].items, o.value.index)
  {
  }

  /** Which record visiting an original can retire. */
  lemma OriginalActs(s: Kv, k: Cut, j: nat)
    requires Mid(s, k) && j < |k.p| && s.flash[k.v].items[j].live && Outdated(s, k.v, j).Some?
    ensures var r := Outdated(s, k.v, j).value;
      r.block == 1 - k.v && k.q[r.index].origin == k.c.Pos(1 - k.v, k.q, r.index)
  {
    hide LiveOnly, Contents, Alone, Lost, UniqueLive, RefAt, Shaped;
    var r := Outdated(s, k.v, j).value;
    if r.block == k.v {
      UniqueAlone(k.p, j);
    } else {
      MidPos(s, k, r);
      SameKeySameRecord(k, r.index, j);
    }
  }

  /** Which record visiting a copy can retire. */
  lemma CopyActs(s: Kv, k: Cut, t: nat)
    requires Mid(s, k) && t < |k.q| && s.flash[1 - k.v].items[t].live && Outdated(s, 1 - k.v, t).Some?
    ensures var r := Outdated(s, 1 - k.v, t).value;
      r.block == k.v && Lost(k, r.index)
  {
    hide Mid, UniqueLive, Outdated, Retires, AllSane, LiveOnly, Shaped;
    MidStates(s, k);
    var r := Outdated(s, 1 - k.v, t).value;
    LiveAsBefore(s, k, Ref(1 - k.v, t));
    OutdatedNames(s, Ref(1 - k.v, t));
    LiveAsBefore(s, k, r);
    if r.block == 1 - k.v {
      CopiesSound(k);
      UniqueAlone(k.q, t);
    } else {
      MidPos(s, k, r);
      SameKeySameRecord(k, t, r.index);
    }
  }

  /** With no block recorded as used only the record changes. */
  lemma RetireQuiet(s: Kv, r: Ref)
    requires Shaped(s) && r.block < BLOCK_NUMS && r.index < |s.flash[r.block].items| && s.info[r.block].state != Used
    ensures Retire(s, r)
         == s.(flash := s.flash[r.block := s.flash[r.block].(items := Cleared(s.flash[r.block].items, r.index))])
  {
  }

  lemma RetireMid(s: Kv, k: Cut, r: Ref)
    requires Mid(s, k) && r.block < BLOCK_NUMS && r.index < |s.flash[r.block].items|
    requires if r.block == k.v then r.index < |k.p| && Lost(k, r.index)
             else r.index < |k.q| && k.q[r.index].origin == k.c.Pos(1 - k.v, k.q, r.index)
    ensures var t := Retire(s, r);
      && Mid(t, k) && t == s.(flash := t.flash)
      && t.flash[r.block].items == Cleared(s.flash[r.block].items, r.index)
      && t.flash[1 - r.block] == s.flash[1 - r.block]
  {
    hide Sound, Lost, Retire;
    MidStates(s, k);
    RetireQuiet(s, r);
  }

  lemma VisitOriginal(s: Kv, k: Cut, j: nat, m: nat)
    requires Mid(s, k) && j < |k.p| && CopiesActed(s, k, m)
    ensures var t := VisitRecord(s, k.v, j); Mid(t, k) && t == s.(flash := t.flash) && CopiesActed(t, k, m)
  {
    if s.flash[k.v].items[j].live && Outdated(s, k.v, j).Some? {
      OriginalActs(s, k, j);
      RetireMid(s, k, Outdated(s, k.v, j).value);
    }
  }

  /** A live copy of a lost original retires it. */
  lemma LostDies(s: Kv, k: Cut, t: nat, j: nat)
    requires Mid(s, k) && t < |k.q| && j < |k.p| && k.q[t] == k.p[j] && Lost(k, j) && s.flash[k.v].items[j].live
    ensures s.flash[1 - k.v].items[t].live && Outdated(s, 1 - k.v, t) == Some(Ref(k.v, j))
  {
    hide Mid, Sound, RefAt, Outdated, UniqueLive, LiveOnly, AllSane, Shaped, Retires;
    MidStates(s, k);
    MidPos(s, k, Ref(1 - k.v, t));
    MidPos(s, k, Ref(k.v, j));
    ElsewhereInBlocks(k, t, j);
    CopyWaits(s, k, t);
    LiveAsBefore(s, k, Ref(k.v, j));
    OutdatedFinds(s, Ref(1 - k.v, t), Ref(k.v, j));
  }

  lemma ElsewhereInBlocks(k: Cut, t: nat, j: nat)
    requires Sound(k) && t < |k.q| && j < |k.p|
    ensures 0 < k.c.Pos(k.v, k.p, j) != k.c.Pos(1 - k.v, k.q, t)
  {
    OffIncreases(k.c, k.p, j, |k.p|);
    OffIncreases(k.c, k.q, t, |k.q|);
  }

  /** A copy that names another position than its own is still there. */
  lemma CopyWaits(s: Kv, k: Cut, t: nat)
    requires Mid(s, k) && t < |k.q| && k.q[t].origin != k.c.Pos(1 - k.v, k.q, t)
    ensures s.flash[1 - k.v].items[t] == k.q[t] && k.q[t].live
  {
    hide UniqueLive, Shaped, Lost;
    CopiesSound(k);
  }

  lemma OutdatedFinds(s: Kv, r: Ref, o: Ref)
    requires Shaped(s) && r.block < BLOCK_NUMS && r.index < |s.flash[r.block].items|
    requires o.block < BLOCK_NUMS && o.index < |s.flash[o.block].items|
    requires var item := ItemAt(s, r);
      && item.crc == s.cfg.crc(item.key + item.val) && item.origin != 0
      && item.origin != s.cfg.Pos(r.block, s.flash[r.block].items, r.index) && RefAt(s, item.origin) == Some(o)
      && ItemAt(s, o).live && ItemAt(s, o).key == item.key
    ensures Outdated(s, r.block, r.index) == Some(o)
  {
    hide RefAt;
  }

  lemma VisitCopyKeeps(s: Kv, k: Cut, t: nat)
    requires Mid(s, k) && t < |k.q|
    ensures var u := VisitRecord(s, 1 - k.v, t);
      && Mid(u, k) && u == s.(flash := u.flash)
      && (forall j :: 0 <= j < |k.p| && u.flash[k.v].items[j].live ==> s.flash[k.v].items[j].live)
      && (forall j :: 0 <= j < |k.p| && s.flash[1 - k.v].items[t].live && Outdated(s, 1 - k.v, t) == Some(Ref(k.v, j)) ==>
            !u.flash[k.v].items[j].live)
  {
    hide Mid, Lost, Sound, Outdated, Retire, WithBlockState;
    MidStates(s, k);
    MidQuiet(s, k);
    if s.flash[1 - k.v].items[t].live && Outdated(s, 1 - k.v, t).Some? {
      CopyActs(s, k, t);
      RetireMid(s, k, Outdated(s, 1 - k.v, t).value);
    }
  }

  lemma VisitCopy(s: Kv, k: Cut, t: nat)
    requires Mid(s, k) && t < |k.q| && CopiesActed(s, k, t)
    ensures var u := VisitRecord(s, 1 - k.v, t); Mid(u, k) && u == s.(flash := u.flash) && CopiesActed(u, k, t + 1)
  {
    hide RefAt, LiveOnly, UniqueLive, AllSane, WithBlockState, Contents, Sane;
    VisitCopyKeeps(s, k, t);
    var u := VisitRecord(s, 1 - k.v, t);
    forall j | 0 <= j < |k.p| && k.q[t] == k.p[j] && Lost(k, j) ensures !u.flash[k.v].items[j].live {
      if s.flash[k.v].items[j].live {
        LostDies(s, k, t, j);
      }
    }
  }

  lemma {:induction false} ScanOriginals(s: Kv, k: Cut, j: nat, m: nat)
    requires Mid(s, k) && j <= |k.p| && CopiesActed(s, k, m)
    ensures var t := VisitFrom(s, k.v, j); Mid(t, k) && t == s.(flash := t.flash) && CopiesActed(t, k, m)
    decreases |k.p| - j
  {
    hide Mid, CopiesActed, VisitRecord, Sound;
    MidStates(s, k);
    if j < |k.p| {
      VisitOriginal(s, k, j, m);
      ScanOriginals(VisitRecord(s, k.v, j), k, j + 1, m);
    }
  }

  lemma {:induction false} ScanCopies(s: Kv, k: Cut, t: nat)
    requires Mid(s, k) && t <= |k.q| && CopiesActed(s, k, t)
    ensures var u := VisitFrom(s, 1 - k.v, t); Mid(u, k) && u == s.(flash := u.flash) && CopiesActed(u, k, |k.q|)
    decreases |k.q| - t
  {
    hide Mid, CopiesActed, VisitRecord, Sound;
    MidStates(s, k);
    if t < |k.q| {
      VisitCopy(s, k, t);
      ScanCopies(VisitRecord(s, 1 - k.v, t), k, t + 1);
    }
  }

  /** Once every copy has been visited, exactly the lost originals are gone. */
  lemma AllActed(s: Kv, k: Cut)
    requires Mid(s, k) && CopiesActed(s, k, |k.q|)
    ensures s.flash[k.v].items == Survivors(k)
  {
    var p := s.flash[k.v].items;
    forall j | 0 <= j < |p| ensures p[j] == Survivors(k)[j] {
      if Lost(k, j) {
        var t := OriginalHasCopy(k.p[..k.n], j);
        assert k.q[t] == k.p[j];
      }
    }
  }

  // ---------------------------------------------------------------------------------------------
  // kv_init after the cut

  /** Flash contents when the power fails after `n` records of the victim have been looked at. */
  function CutFlash(k: Cut): (flash: seq<Block>)
    ensures |flash| == BLOCK_NUMS
  {
    if k.v == 0 then [Block(Dirty, k.p), Block(Clean, k.q)] else [Block(Clean, k.q), Block(Dirty, k.p)]
  }

  /** The invariant speaks of the flash and of blocks not being recorded as `Used`. */
  lemma MidInfo(s: Kv, t: Kv, k: Cut, m: nat)
    requires Mid(s, k) && CopiesActed(s, k, m) && Shaped(t) && t.cfg == s.cfg && t.flash == s.flash
    requires t.info[0].state != Used && t.info[1].state != Used
    ensures Mid(t, k) && CopiesActed(t, k, m)
  {
  }

  /** A scan that touched only flash contents ends with the block's state and free space recorded. */
  lemma SpacedInfo(s: Kv, seen: Kv, b: nat, free: nat)
    requires Shaped(s) && Shaped(seen) && b < BLOCK_NUMS && seen == Known(s, b).(flash := seen.flash)
    requires FreeSpace(s.cfg, seen.flash[b].items) == free
    ensures Spaced(seen, b) == s.(flash := seen.flash, info := s.info[b := Info(s.flash[b].state, free)])
  {
  }

  lemma MidSpace(s: Kv, k: Cut)
    requires Mid(s, k)
    ensures FreeSpace(k.c, s.flash[k.v].items) == FreeSpace(k.c, k.p)
    ensures FreeSpace(k.c, s.flash[1 - k.v].items) == FreeSpace(k.c, k.q)
  {
    RetiresSpace(k.c, k.p, s.flash[k.v].items);
    RetiresSpace(k.c, k.q, s.flash[1 - k.v].items);
  }

  lemma ScanVictim(s: Kv, k: Cut, m: nat)
    requires Mid(s, k) && CopiesActed(s, k, m)
    ensures var t := Spaced(VisitFrom(Known(s, k.v), k.v, 0), k.v);
      && Mid(t, k) && CopiesActed(t, k, m)
      && t == s.(flash := t.flash, info := s.info[k.v := Info(Dirty, FreeSpace(k.c, k.p))])
  {
    MidInfo(s, Known(s, k.v), k, m);
    ScanOriginals(Known(s, k.v), k, 0, m);
    var seen := VisitFrom(Known(s, k.v), k.v, 0);
    MidSpace(seen, k);
    SpacedInfo(s, seen, k.v, FreeSpace(k.c, k.p));
    MidInfo(seen, Spaced(seen, k.v), k, m);
  }

  lemma RecoverVictim(s: Kv, k: Cut, m: nat)
    requires Mid(s, k) && CopiesActed(s, k, m)
    ensures var (t, unclean) := RecoverBlock(s, k.v);
      && !unclean && Mid(t, k) && CopiesActed(t, k, m)
      && t == s.(flash := t.flash, info := s.info[k.v := Info(Dirty, FreeSpace(k.c, k.p))])
  {
    ScanVictim(s, k, m);
    assert RecoverBlock(s, k.v) == (Spaced(VisitFrom(Known(s, k.v), k.v, 0), k.v), false);
  }

  /** The copies fill the whole block exactly when there are none. */
  lemma CopiesSpace(c: Config, items: seq<Item>)
    requires c.Valid() && c.Off(items, |items|) < c.blockSize - BLOCK_HDR_SIZE
    ensures FreeSpace(c, items) == c.blockSize - BLOCK_HDR_SIZE <==> items == []
  {
    OffIncreases(c, items, 0, |items|);
  }

  lemma ScanCopied(s: Kv, k: Cut)
    requires Mid(s, k)
    ensures var b := 1 - k.v;
      var t := Spaced(VisitFrom(Known(s, b), b, 0), b);
      && Mid(t, k) && CopiesActed(t, k, |k.q|)
      && t == s.(flash := t.flash, info := s.info[b := Info(Clean, FreeSpace(k.c, k.q))])
  {
    var b := 1 - k.v;
    MidInfo(s, Known(s, b), k, 0);
    ScanCopies(Known(s, b), k, 0);
    var seen := VisitFrom(Known(s, b), b, 0);
    MidSpace(seen, k);
    SpacedInfo(s, seen, b, FreeSpace(k.c, k.q));
    MidInfo(seen, Spaced(seen, b), k, |k.q|);
  }

  lemma RecoverCopies(s: Kv, k: Cut)
    requires Mid(s, k)
    ensures var (t, unclean) := RecoverBlock(s, 1 - k.v);
      && unclean == (k.q != []) && Mid(t, k) && CopiesActed(t, k, |k.q|)
      && t == s.(flash := t.flash, info := s.info[1 - k.v := Info(Clean, FreeSpace(k.c, k.q))],
                 cleanNums := s.cleanNums + if unclean then 0 else 1)
  {
    hide Spaced, Retires;
    var b := 1 - k.v;
    ScanCopied(s, k);
    CopiesSpace(k.c, k.q);
    var t := Spaced(VisitFrom(Known(s, b), b, 0), b);
    assert RecoverBlock(s, b) == if k.q != [] then (t, true) else (t.(cleanNums := t.cleanNums + 1), false);
    if k.q == [] {
      MidInfo(t, RecoverBlock(s, b).0, k, 0);
    }
  }

  /** Both blocks scanned. */
  ghost predicate CutScanned(s: Kv, k: Cut)
    requires Sound(k)
  {
    && Shaped(s) && s.cfg == k.c
    && s.flash[k.v] == Block(Dirty, Survivors(k)) && s.flash[1 - k.v].state == Clean
    && s.info[k.v] == Info(Dirty, FreeSpace(k.c, k.p))
    && s.info[1 - k.v] == Info(Clean, FreeSpace(k.c, k.q))
    && s.cleanNums == (if k.q == [] then 1 else 0)
    && (k.q == [] ==> s.flash[1 - k.v].items == [])
  }

  lemma StartMid(k: Cut)
    requires Sound(k)
    ensures var s := PowerOn(k.c, CutFlash(k));
      Mid(s, k) && CopiesActed(s, k, 0) && Shaped(s) && s.info == [Info(Blank, 0), Info(Blank, 0)] && s.cleanNums == 0
  {
    hide AllSane, UniqueLive;
  }

  lemma ScanCut0(k: Cut)
    requires Sound(k) && k.v == 0
    ensures var (s1, unclean0) := RecoverBlock(PowerOn(k.c, CutFlash(k)), 0);
      var (s2, unclean1) := RecoverBlock(s1, 1);
      CutScanned(s2, k) && !unclean0 && unclean1 == (k.q != [])
  {
    hide Mid, CopiesActed, RecoverBlock, CutFlash, Survivors, Sound, Spaced, FreeSpace;
    var s0 := PowerOn(k.c, CutFlash(k));
    StartMid(k);
    RecoverVictim(s0, k, 0);
    var s1 := RecoverBlock(s0, 0).0;
    RecoverCopies(s1, k);
    var s2 := RecoverBlock(s1, 1).0;
    MidStates(s2, k);
    AllActed(s2, k);
  }

  lemma ScanCut1(k: Cut)
    requires Sound(k) && k.v == 1
    ensures var (s1, unclean0) := RecoverBlock(PowerOn(k.c, CutFlash(k)), 0);
      var (s2, unclean1) := RecoverBlock(s1, 1);
      CutScanned(s2, k) && unclean0 == (k.q != []) && !unclean1
  {
    hide Mid, CopiesActed, RecoverBlock, CutFlash, Survivors, Sound, Spaced, FreeSpace;
    var s0 := PowerOn(k.c, CutFlash(k));
    StartMid(k);
    RecoverCopies(s0, k);
    var s1 := RecoverBlock(s0, 0).0;
    RecoverVictim(s1, k, |k.q|);
    var s2 := RecoverBlock(s1, 1).0;
    MidStates(s2, k);
    AllActed(s2, k);
  }

  lemma ScanCut(k: Cut)
    requires Sound(k)
    ensures var (s1, unclean0) := RecoverBlock(PowerOn(k.c, CutFlash(k)), 0);
      var (s2, unclean1) := RecoverBlock(s1, 1);
      && CutScanned(s2, k)
      && unclean0 == (k.v == 1 && k.q != []) && unclean1 == (k.v == 0 && k.q != [])
  {
    hide RecoverBlock, CutFlash, CutScanned, UniqueLive, AllSane;
    if k.v == 0 {
      ScanCut0(k);
    } else {
      ScanCut1(k);
    }
  }

  /** The half-filled block formatted, if it is not empty. */
  function Unfilled(s: Kv, k: Cut): Kv
    requires Shaped(s) && k.v < BLOCK_NUMS
  {
    if k.q == [] then s else Format(s, 1 - k.v)
  }

  lemma UnfilledScanned(s: Kv, k: Cut)
    requires Sound(k) && CutScanned(s, k) && Retires(k.p, Survivors(k))
    ensures var flash := CutFlash(k)[1 - k.v := Block(Clean, [])];
      Shaped(Unfilled(s, k)) && OneScanned(Unfilled(s, k), k.c, flash, k.v, Survivors(k))
  {
    hide Sane, AllSane, AllLive, UniqueLive, Survivors;
    RetiresSpace(k.c, k.p, Survivors(k));
  }

  lemma UnfilledFinish(s: Kv, k: Cut)
    requires Sound(k) && CutScanned(s, k)
    ensures Shaped(Unfilled(s, k))
    ensures Finish(s, k.v == 1 && k.q != [], k.v == 0 && k.q != []) == Finish(Unfilled(s, k), false, false)
  {
    hide AllSane, UniqueLive, Survivors, ChooseWritePos, WithBlockState, FreeSpace;
  }

  /** The half-filled block is erased, whichever one it is. */
  lemma SettleCut(s: Kv, k: Cut)
    requires Sound(k) && CutScanned(s, k)
    ensures var flash := CutFlash(k)[1 - k.v := Block(Clean, [])];
      var t := Finish(s, k.v == 1 && k.q != [], k.v == 0 && k.q != []);
      Rebuilt(t, k.c, flash, k.v, Survivors(k))
  {
    hide AllSane, UniqueLive, Survivors, Rebuilt, Finish, OneScanned, Unfilled, FreeSpace, Retires;
    SurvivorsRetire(k);
    UnfilledScanned(s, k);
    UnfilledFinish(s, k);
    FinishOne(Unfilled(s, k), k.c, CutFlash(k)[1 - k.v := Block(Clean, [])], k.v, Survivors(k));
  }

  lemma SurvivorsRetire(k: Cut)
    requires Sound(k)
    ensures Retires(k.p, Survivors(k))
    ensures k.c.Off(Survivors(k), |k.p|) == k.c.Off(k.p, |k.p|)
  {
    RetiresSpace(k.c, k.p, Survivors(k));
  }

  ghost function LostKeys(k: Cut): set<Bytes>
    requires Sound(k)
  {
    set j | 0 <= j < |k.p| && Lost(k, j) :: k.p[j].key
  }

  lemma {:induction false} RetireSome(items: seq<Item>, left: seq<Item>, keys: set<Bytes>)
    requires UniqueLive(items) && |left| == |items| && Retires(items, left)
    requires forall j :: 0 <= j < |items| && items[j].live ==> (left[j].live <==> items[j].key !in keys)
    ensures UniqueLive(left) && Contents(left) == Contents(items) - keys
  {
    if items != [] {
      var n := |items| - 1;
      RetireSome(items[..n], left[..n], keys);
      RetireLast(Contents(items[..n]), items[n], left[n], keys);
    }
  }

  function Bind(m: map<Bytes, Bytes>, x: Item): map<Bytes, Bytes> {
    if x.live then m[x.key := x.val] else m
  }

  lemma RetireLast(m: map<Bytes, Bytes>, x: Item, y: Item, keys: set<Bytes>)
    requires y == x || y == x.(live := false)
    requires x.live ==> (y.live <==> x.key !in keys)
    ensures Bind(m - keys, y) == Bind(m, x) - keys
  {
  }

  lemma SurvivorsContents(k: Cut)
    requires Sound(k)
    ensures UniqueLive(Survivors(k)) && Contents(Survivors(k)) == Contents(k.p) - LostKeys(k)
  {
    SurvivorsRetire(k);
    forall j | 0 <= j < |k.p| && k.p[j].live ensures Survivors(k)[j].live <==> k.p[j].key !in LostKeys(k) {
      if k.p[j].key in LostKeys(k) {
        var i :| 0 <= i < |k.p| && Lost(k, i) && k.p[i].key == k.p[j].key;
        UniqueAlone(k.p, j);
      }
    }
    RetireSome(k.p, Survivors(k), LostKeys(k));
  }

  /** The cut a collection of the dirty active block of `s` leaves after `n` records. */
  function CutOf(s: Kv, n: nat): Cut
    requires |s.flash| == BLOCK_NUMS && n <= |Items(s)|
  {
    Cut(s.cfg, Active(s), Items(s), n, LiveOnly(Items(s)[..n]))
  }

  lemma CutOfSound(s: Kv, n: nat)
    requires Inv(s) && n <= |Items(s)|
    ensures Sound(CutOf(s, n))
  {
    LiveOnlyFits(s, n);
  }

  /** Recovery after a collection is cut short loses exactly the keys of the copied records whose origin is their
      own position, and leaves a quiescent store. */
  lemma CutLoses(s: Kv, n: nat)
    requires Inv(s) && s.flash[Active(s)].state == Dirty && n <= |Items(s)|
    ensures Sound(CutOf(s, n))
    ensures var t := Recover(s.cfg, CutFlash(CutOf(s, n)));
      Inv(t) && Map(t) == Map(s) - LostKeys(CutOf(s, n))
  {
    var k := CutOf(s, n);
    CutOfSound(s, n);
    ScanCut(k);
    var s2 := RecoverBlock(RecoverBlock(PowerOn(k.c, CutFlash(k)), 0).0, 1).0;
    SettleCut(s2, k);
    SurvivorsRetire(k);
    SurvivorsContents(k);
    RetiresSpace(k.c, k.p, Survivors(k));
    RebuiltInv(Recover(s.cfg, CutFlash(k)), k.c, CutFlash(k)[1 - k.v := Block(Clean, [])], k.v, Survivors(k));
  }

  /** The guard: no live record among the first `n` names its own position as its older version. */
  ghost predicate NoSelfOrigin(s: Kv, n: nat)
    requires Inv(s) && n <= |Items(s)|
  {
    forall j :: 0 <= j < n && Items(s)[j].live ==> Items(s)[j].origin != s.cfg.Pos(Active(s), Items(s), j)
  }

  lemma LostIff(s: Kv, n: nat)
    requires Inv(s) && n <= |Items(s)| && Sound(CutOf(s, n))
    ensures Map(s) - LostKeys(CutOf(s, n)) == Map(s) <==> NoSelfOrigin(s, n)
  {
    hide UniqueLive, Contents, AllSane, AllLive;
    var k := CutOf(s, n);
    if NoSelfOrigin(s, n) {
      assert LostKeys(k) == {};
    } else {
      var j :| 0 <= j < n && Items(s)[j].live && Items(s)[j].origin == s.cfg.Pos(Active(s), Items(s), j);
      assert Lost(k, j);
      assert k.p[j].key in LostKeys(k);
      LiveBinds(Items(s), j);
    }
  }

  /** A cut collection keeps the map if and only if no copied record's origin is its own position. */
  lemma CutKeepsMapIff(s: Kv, n: nat)
    requires Inv(s) && s.flash[Active(s)].state == Dirty && n <= |Items(s)|
    ensures var t := Recover(s.cfg, CutFlash(CutOf(s, n)));
      Inv(t) && (Map(t) == Map(s) <==> NoSelfOrigin(s, n))
  {
    hide Recover, Books, UniqueLive, Contents, CutFlash, LostKeys, NoSelfOrigin, Sound;
    CutLoses(s, n);
    LostIff(s, n);
  }

  // ---------------------------------------------------------------------------------------------
  // The cut after the victim is erased

  /** A block that says `Clean` and holds unduplicated records scans to itself. */
  lemma ScanUnclean(s: Kv, b: nat)
    requires Shaped(s) && b < BLOCK_NUMS && s.flash[1 - b].items == [] && s.flash[b].state == Clean
    requires AllSane(s.cfg, s.flash[b].items) && UniqueLive(s.flash[b].items)
    requires s.cfg.Off(s.flash[b].items, |s.flash[b].items|) < s.cfg.blockSize - BLOCK_HDR_SIZE
    ensures var (t, unclean) := RecoverBlock(s, b);
      && unclean == (s.flash[b].items != [])
      && t == Scanned(s, b, Clean, s.flash[b].items).(cleanNums := s.cleanNums + if unclean then 0 else 1)
  {
    hide VisitFrom, UniqueLive, AllSane;
    var items := s.flash[b].items;
    SeenSame(s, b);
    CopiesSpace(s.cfg, items);
    assert Spaced(VisitFrom(Known(s, b), b, 0), b) == Scanned(s, b, Clean, items);
  }

  lemma SeenSame(s: Kv, b: nat)
    requires Shaped(s) && b < BLOCK_NUMS && s.flash[1 - b].items == [] && s.flash[b].state == Clean
    requires AllSane(s.cfg, s.flash[b].items) && UniqueLive(s.flash[b].items)
    requires s.cfg.Off(s.flash[b].items, |s.flash[b].items|) < s.cfg.blockSize - BLOCK_HDR_SIZE
    ensures VisitFrom(Known(s, b), b, 0) == WithBlock(Known(s, b), b, Clean, s.flash[b].items)
  {
    hide VisitFrom, PassFrom, UniqueLive, AllSane;
    ScanFrom(Known(s, b), b, 0);
    PassUnique(s.cfg, b, s.flash[b].items, 0);
  }

  /** Flash contents once the victim `v` is erased and the copies `q` are complete but not yet marked used. */
  function ErasedFlash(v: nat, state: BlockState, q: seq<Item>): (flash: seq<Block>)
    ensures |flash| == BLOCK_NUMS
  {
    if v == 0 then [Block(state, []), Block(Clean, q)] else [Block(Clean, q), Block(state, [])]
  }

  lemma RecoverErased(s: Kv, b: nat)
    requires Shaped(s) && b < BLOCK_NUMS && (s.flash[b] == Block(Clean, []) || s.flash[b] == Block(Blank, []))
    ensures RecoverBlock(s, b) == (Scanned(s, b, Clean, []).(cleanNums := s.cleanNums + 1), false)
  {
    if s.flash[b].state == Clean {
      RecoverEmptyClean(s, b);
    }
  }

  /** Both blocks scanned: the erased one is formatted if its header was not yet written. */
  ghost predicate ErasedScanned(s: Kv, c: Config, v: nat, q: seq<Item>)
    requires c.Valid() && v < BLOCK_NUMS
  {
    && Shaped(s) && s.cfg == c && s.flash == ErasedFlash(v, Clean, q)
    && s.info[v] == Info(Clean, FreeSpace(c, [])) && s.info[1 - v] == Info(Clean, FreeSpace(c, q))
    && s.cleanNums == (if q == [] then 2 else 1)
  }

  ghost predicate Copies(c: Config, q: seq<Item>) {
    c.Valid() && AllSane(c, q) && UniqueLive(q) && c.Off(q, |q|) < c.blockSize - BLOCK_HDR_SIZE
  }

  lemma ScanErased0(c: Config, state: BlockState, q: seq<Item>)
    requires Copies(c, q) && (state == Clean || state == Blank)
    ensures var (s1, unclean0) := RecoverBlock(PowerOn(c, [Block(state, []), Block(Clean, q)]), 0);
      var (s2, unclean1) := RecoverBlock(s1, 1);
      ErasedScanned(s2, c, 0, q) && !unclean0 && unclean1 == (q != [])
  {
    var s0 := PowerOn(c, [Block(state, []), Block(Clean, q)]);
    RecoverErased(s0, 0);
    var s1 := RecoverBlock(s0, 0).0;
    assert s1.flash == [Block(Clean, []), Block(Clean, q)];
    ScanUnclean(s1, 1);
    assert RecoverBlock(s1, 1).0.flash == s1.flash;
  }

  lemma ScanErased1(c: Config, state: BlockState, q: seq<Item>)
    requires Copies(c, q) && (state == Clean || state == Blank)
    ensures var (s1, unclean0) := RecoverBlock(PowerOn(c, [Block(Clean, q), Block(state, [])]), 0);
      var (s2, unclean1) := RecoverBlock(s1, 1);
      ErasedScanned(s2, c, 1, q) && unclean0 == (q != []) && !unclean1
  {
    var s0 := PowerOn(c, [Block(Clean, q), Block(state, [])]);
    ScanUnclean(s0, 0);
    var s1 := RecoverBlock(s0, 0).0;
    assert s1.flash == s0.flash;
    RecoverErased(s1, 1);
    assert RecoverBlock(s1, 1).0.flash == [Block(Clean, q), Block(Clean, [])];
  }

  /** Initialisation with the copies in one block and nothing in the other. */
  lemma ErasedRecovers(c: Config, v: nat, state: BlockState, q: seq<Item>)
    requires Copies(c, q) && v < BLOCK_NUMS && (state == Clean || state == Blank)
    ensures var t := Recover(c, ErasedFlash(v, state, q)); Inv(t) && Items(t) == q
  {
    hide RecoverBlock, Finish, Copies, Books, UniqueLive;
    CopiesFit(c, q);
    if v == 0 {
      ScanErased0(c, state, q);
    } else {
      ScanErased1(c, state, q);
    }
    var s2 := RecoverBlock(RecoverBlock(PowerOn(c, ErasedFlash(v, state, q)), 0).0, 1).0;
    if q == [] {
      FinishEmpty(s2);
    } else {
      FinishErased(s2, c, v, q);
    }
  }

  lemma CopiesFit(c: Config, q: seq<Item>)
    requires Copies(c, q)
    ensures c.Valid()
  {
  }

  /** After the erase the copies are all there is, and recovery keeps them: no key is lost any more. */
  lemma CutAfterErase(s: Kv, state: BlockState)
    requires Inv(s) && s.flash[Active(s)].state == Dirty && (state == Clean || state == Blank)
    ensures var t := Recover(s.cfg, ErasedFlash(Active(s), state, LiveOnly(Items(s))));
      Inv(t) && Map(t) == Map(s)
  {
    hide Recover, Contents, LiveOnly, AllLive, Sane;
    LiveOnlyKeepsContents(s.cfg, Items(s));
    LiveOnlyFits(s, |Items(s)|);
    ErasedRecovers(s.cfg, Active(s), state, LiveOnly(Items(s)));
  }

  lemma FinishEmpty(s: Kv)
    requires Shaped(s) && s.flash == [Block(Clean, []), Block(Clean, [])] && s.cleanNums == BLOCK_NUMS
    requires s.info == [Info(Clean, FreeSpace(s.cfg, [])), Info(Clean, FreeSpace(s.cfg, []))]
    ensures Inv(Finish(s, false, false)) && Items(Finish(s, false, false)) == []
  {
    var t := Finish(s, false, false);
    assert t.flash == [Block(Used, []), Block(Clean, [])];
    assert t.info == [Info(Used, FreeSpace(s.cfg, [])), Info(Clean, FreeSpace(s.cfg, []))];
  }

  lemma FinishErased(s: Kv, c: Config, v: nat, q: seq<Item>)
    requires Copies(c, q) && v < BLOCK_NUMS && q != [] && ErasedScanned(s, c, v, q)
    ensures var t := Finish(s, v == 1, v == 0); Inv(t) && Items(t) == q
  {
    var b := 1 - v;
    var d := WithBlockState(s, b, Dirty);
    FinishOne(d, c, d.flash, b, q);
    assert Finish(s, v == 1, v == 0) == Finish(d, false, false);
    RebuiltInv(Finish(d, false, false), c, d.flash, b, q);
  }
}
