/** Whole runs: any interleaving of operations, collections, restarts and power cuts acts on one finite map. */
module KvRuns {
  import opened Runs
  import opened KvTypes
  import opened KvModel
  import opened KvRefinement
  import opened KvRecovery
  import opened KvPowerCut
  import opened KvGcCut

  /** In the cut operations the power fails between two flash writes, and `kv_init` follows: a set after `writes` of
      its writes, a delete between its two, a delete by prefix once `records` records have been looked at and perhaps
      within the next one, a collection after as many records or once its victim is erased. */
  datatype Op =
    | Set(key: Bytes, val: Bytes)
    | Get(key: Bytes, room: int)
    | Delete(key: Bytes)
    | DeletePrefix(prefix: Bytes)
    | Gc
    | Restart
    | CutSet(key: Bytes, val: Bytes, writes: nat)
    | CutDelete(key: Bytes)
    | CutDeletePrefix(prefix: Bytes, records: nat, within: bool)
    | CutGc(records: nat)
    | CutErase(header: bool)

  ghost predicate Legal(op: Op) {
    (op.Set? ==> op.key != []) && (op.CutSet? ==> op.key != [])
  }

  // ---------------------------------------------------------------------------------------------
  // A cut set: it writes once, or three times to replace a value

  /** The set replaces a value, so it stores the new one, clears the old one, and may mark the block. */
  ghost predicate Replaces(s: Kv, key: Bytes, val: Bytes)
    requires Inv(s)
  {
    LegalSet(key, val) && key in Map(s) && Map(s)[key] != val && Fits(s, key, val)
  }

  /** The flash of `s` with other records in its active block. */
  ghost function WithItems(s: Kv, items: seq<Item>): (flash: seq<Block>)
    requires |s.flash| == BLOCK_NUMS
    ensures |flash| == BLOCK_NUMS
  {
    s.flash[Active(s) := s.flash[Active(s)].(items := items)]
  }

  ghost function CutSetFlash(s: Kv, key: Bytes, val: Bytes, writes: nat): (flash: seq<Block>)
    requires Inv(s) && key != []
    ensures |flash| == BLOCK_NUMS
  {
    SetUpdatesMap(s, key, val);
    if writes == 0 then s.flash
    else if writes <= 2 && Replaces(s, key, val) then
      SearchFinds(s, key);
      var r := Search(s, key).value;
      var x := NewItem(s.cfg, key, val, s.cfg.Pos(Active(s), Items(s), r.index));
      WithItems(s, if writes == 1 then Items(s) + [x] else Cleared(Items(s) + [x], r.index))
    else SetItem(s, key, val).0.flash
  }

  lemma StoredFlash(s: Kv, i: nat, key: Bytes, val: Bytes)
    requires Inv(s) && i < |Items(s)| && Items(s)[i].live && Items(s)[i].key == key && LegalSet(key, val) && Fits(s, key, val)
    ensures var x := NewItem(s.cfg, key, val, s.cfg.Pos(Active(s), Items(s), i));
      && StoreUpdate(s, Ref(Active(s), i), key, val).0.flash == WithItems(s, Items(s) + [x])
      && s.cfg.Off(Items(s) + [x], |Items(s)| + 1) < s.cfg.blockSize - BLOCK_HDR_SIZE
      && x.origin < BLOCK_NUMS * s.cfg.blockSize
  {
    PosInFlash(s, i);
    StoreBooks(s, key, val, s.cfg.Pos(Active(s), Items(s), i));
  }

  /** The new version is stored and the old one cleared: recovery finds the new value, whatever the block says. */
  lemma ClearedActs(s: Kv, i: nat, key: Bytes, val: Bytes)
    requires Inv(s) && i < |Items(s)| && Items(s)[i].live && Items(s)[i].key == key && LegalSet(key, val) && Fits(s, key, val)
    ensures var x := NewItem(s.cfg, key, val, s.cfg.Pos(Active(s), Items(s), i));
      var t := Recover(s.cfg, WithItems(s, Cleared(Items(s) + [x], i)));
      Inv(t) && Map(t) == Map(s)[key := val]
  {
    hide Recover, Contents, UniqueLive, Inv;
    InvParts(s);
    StoredFlash(s, i, key, val);
    var x := NewItem(s.cfg, key, val, s.cfg.Pos(Active(s), Items(s), i));
    var left := Cleared(Items(s) + [x], i);
    ReplaceUpdates(Items(s), i, x);
    AllSaneAppend(s.cfg, Items(s), x);
    OffAgree(s.cfg, Items(s) + [x], left, |left|);
    PassUnique(s.cfg, Active(s), left, 0);
    RecoverReplaced(s, left, left);
  }

  lemma InvShape(s: Kv)
    requires Inv(s)
    ensures |s.flash| == BLOCK_NUMS == |s.info| && Active(s) < BLOCK_NUMS
  {
  }

  lemma InvParts(s: Kv)
    requires Inv(s)
    ensures UniqueLive(Items(s)) && AllSane(s.cfg, Items(s)) && s.cfg.align > 0 && |s.flash| == BLOCK_NUMS && Active(s) < BLOCK_NUMS
    ensures forall i :: 0 <= i < |Items(s)| ==> Sane(s.cfg, Items(s)[i])
  {
  }

  lemma CutReplaceActs(s: Kv, key: Bytes, val: Bytes, writes: nat)
    requires Inv(s) && key != [] && Replaces(s, key, val) && 0 < writes <= 2
    ensures var t := Recover(s.cfg, CutSetFlash(s, key, val, writes));
      Inv(t) && (Map(t) == Map(s)[key := val] || (writes == 1 && Map(t) == Map(s)))
  {
    hide Recover;
    SearchFinds(s, key);
    var i := Search(s, key).value.index;
    if writes == 1 {
      StoredFlash(s, i, key, val);
      UpdateIsAtomic(s, i, val);
    } else {
      ClearedActs(s, i, key, val);
    }
  }

  lemma CutSetActs(s: Kv, key: Bytes, val: Bytes, writes: nat)
    requires Inv(s) && key != []
    ensures var t := Recover(s.cfg, CutSetFlash(s, key, val, writes)); Inv(t) && CutSetMeets(s, key, val, writes, Map(t))
  {
    hide Recover;
    SetUpdatesMap(s, key, val);
    if 0 < writes <= 2 && Replaces(s, key, val) {
      CutReplaceActs(s, key, val, writes);
    } else if writes == 0 {
      RestartActs(s);
    } else {
      SetKeepsConfig(s, key, val);
      RestartActs(SetItem(s, key, val).0);
    }
  }

  /** Nothing before the first write, the whole effect from the second on, and either of them after the first write
      of a set that replaces a value. */
  ghost predicate CutSetMeets(s: Kv, key: Bytes, val: Bytes, writes: nat, m: map<Bytes, Bytes>)
    requires Inv(s) && key != []
  {
    SetUpdatesMap(s, key, val);
    var all := Map(SetItem(s, key, val).0);
    (writes != 1 ==> m == if writes == 0 then Map(s) else all)
    && (writes == 1 ==> m == all || (m == Map(s) && Replaces(s, key, val)))
  }

  // ---------------------------------------------------------------------------------------------
  // A cut delete

  ghost function CutDeleteFlash(s: Kv, key: Bytes): (flash: seq<Block>)
    requires Inv(s)
    ensures |flash| == BLOCK_NUMS
  {
    var found := Search(s, key);
    if found.None? then s.flash
    else
      SearchFinds(s, key);
      WithItems(s, Cleared(Items(s), found.value.index))
  }

  // ---------------------------------------------------------------------------------------------
  // A cut delete by prefix

  /** The state once the first `n` records of block `b` have been looked at. */
  function PrefixUpTo(s: Kv, b: nat, prefix: Bytes, n: nat): (t: Kv)
    requires b < |s.flash| && b < |s.info| && n <= |s.flash[b].items|
    ensures |t.flash| == |s.flash| && |t.info| == |s.info| && t.cfg == s.cfg
    ensures |t.flash[b].items| == |s.flash[b].items|
    decreases n
  {
    if n == 0 then s else PrefixVisit(PrefixUpTo(s, b, prefix, n - 1), b, prefix, n - 1)
  }

  /** The keys with the prefix among the first `n` records. */
  ghost function PrefixedKeys(s: Kv, prefix: Bytes, n: nat): set<Bytes>
    requires |s.flash| == BLOCK_NUMS && n <= |Items(s)|
  {
    set j | 0 <= j < n && Items(s)[j].live && prefix <= Items(s)[j].key :: Items(s)[j].key
  }

  /** A quiescent state from which some of the prefixed keys are gone, and the records from `n` on are as they were. */
  ghost predicate Partly(s: Kv, prefix: Bytes, t: Kv, n: nat)
    requires Inv(s) && n <= |Items(s)|
  {
    && Inv(t) && t.cfg == s.cfg && Active(t) == Active(s) && |Items(t)| == |Items(s)| && Items(t)[n..] == Items(s)[n..]
    && Map(t) == Map(s) - PrefixedKeys(s, prefix, n)
  }

  lemma PrefixOneMore(s: Kv, t: Kv, prefix: Bytes, n: nat)
    requires Inv(s) && n < |Items(s)| && Partly(s, prefix, t, n)
    ensures Items(t)[n] == Items(s)[n] && Partly(s, prefix, PrefixVisit(t, Active(s), prefix, n), n + 1)
  {
    hide Books, UniqueLive, Contents, Retire, Active, WithBlockState;
    InvShape(s);
    InvShape(t);
    var item := Items(s)[n];
    assert Items(t)[n] == Items(t)[n..][0] == item;
    assert Items(t)[n + 1..] == Items(t)[n..][1..] && Items(s)[n + 1..] == Items(s)[n..][1..];
    if item.live && prefix <= item.key {
      RetireRemoves(t, n);
      RetireConfig(t, Ref(Active(s), n));
      assert PrefixedKeys(s, prefix, n + 1) == PrefixedKeys(s, prefix, n) + {item.key};
      assert Map(s) - PrefixedKeys(s, prefix, n) - {item.key} == Map(s) - (PrefixedKeys(s, prefix, n) + {item.key});
    } else {
      assert PrefixedKeys(s, prefix, n + 1) == PrefixedKeys(s, prefix, n);
      if !item.live {
        DeadVisit(t, n);
      }
    }
  }

  lemma RetireConfig(s: Kv, r: Ref)
    requires r.block < |s.flash| && r.block < |s.info| && r.index < |s.flash[r.block].items|
    ensures Retire(s, r).cfg == s.cfg
  {
  }

  lemma DeadVisit(s: Kv, i: nat)
    requires Inv(s) && i < |Items(s)| && !Items(s)[i].live
    ensures MarkDirty(s, Active(s)) == s
  {
  }

  lemma {:induction false} PrefixUpToActs(s: Kv, prefix: Bytes, n: nat)
    requires Inv(s) && n <= |Items(s)|
    ensures Partly(s, prefix, PrefixUpTo(s, Active(s), prefix, n), n)
    decreases n
  {
    hide Books, UniqueLive, Contents, PrefixVisit, Partly;
    InvShape(s);
    if n == 0 {
      PartlyNone(s, prefix);
    } else {
      PrefixUpToActs(s, prefix, n - 1);
      PrefixOneMore(s, PrefixUpTo(s, Active(s), prefix, n - 1), prefix, n - 1);
    }
  }

  lemma PartlyNone(s: Kv, prefix: Bytes)
    requires Inv(s)
    ensures Partly(s, prefix, s, 0)
  {
    assert PrefixedKeys(s, prefix, 0) == {};
  }

  /** Visiting the records one by one from the front is the loop of the delete, cut short. */
  lemma {:induction false} PrefixUpToIs(s: Kv, b: nat, prefix: Bytes, n: nat)
    requires b < |s.flash| && b < |s.info| && n <= |s.flash[b].items|
    ensures DeletePrefixIn(s, b, prefix, 0) == DeletePrefixIn(PrefixUpTo(s, b, prefix, n), b, prefix, n)
    decreases n
  {
    hide PrefixVisit;
    if n > 0 {
      PrefixUpToIs(s, b, prefix, n - 1);
    }
  }

  ghost function CutPrefixFlash(s: Kv, prefix: Bytes, n: nat, within: bool): (flash: seq<Block>)
    requires Inv(s)
    ensures |flash| == BLOCK_NUMS
  {
    if n > |Items(s)| then DeleteByPrefix(s, prefix).flash
    else
      PrefixUpToActs(s, prefix, n);
      var t := PrefixUpTo(s, Active(s), prefix, n);
      if within && n < |Items(s)| && Items(s)[n].live && prefix <= Items(s)[n].key
      then WithItems(t, Cleared(Items(t), n)) else t.flash
  }

  /** The keys a cut delete by prefix has removed. */
  ghost function CutPrefixKeys(s: Kv, prefix: Bytes, n: nat, within: bool): set<Bytes>
    requires |s.flash| == BLOCK_NUMS && n <= |Items(s)|
  {
    PrefixedKeys(s, prefix, if within && n < |Items(s)| then n + 1 else n)
  }

  lemma CutPrefixActs(s: Kv, prefix: Bytes, n: nat, within: bool)
    requires Inv(s)
    ensures var t := Recover(s.cfg, CutPrefixFlash(s, prefix, n, within));
      && Inv(t)
      && Map(t) == if n > |Items(s)| then WithoutPrefix(Map(s), prefix) else Map(s) - CutPrefixKeys(s, prefix, n, within)
  {
    hide Books, UniqueLive, Contents, Recover, Retire, PrefixVisit, DeletePrefixIn;
    InvShape(s);
    if n > |Items(s)| {
      DeleteByPrefixRemoves(s, prefix);
      PrefixConfig(s, prefix);
      RestartActs(DeleteByPrefix(s, prefix));
    } else {
      var t := PrefixUpTo(s, Active(s), prefix, n);
      PrefixUpToActs(s, prefix, n);
      if within && n < |Items(s)| {
        WithinActs(s, t, prefix, n);
      }
      if !(within && n < |Items(s)| && Items(s)[n].live && prefix <= Items(s)[n].key) {
        RestartActs(t);
      }
    }
  }

  /** One more record is looked at, and if it is to go, only its own state byte is written. */
  lemma WithinActs(s: Kv, t: Kv, prefix: Bytes, n: nat)
    requires Inv(s) && n < |Items(s)| && Partly(s, prefix, t, n)
    ensures Items(t)[n] == Items(s)[n]
    ensures var item := Items(s)[n];
      if item.live && prefix <= item.key then
        var u := Recover(s.cfg, WithItems(t, Cleared(Items(t), n)));
        Inv(u) && Map(u) == Map(s) - PrefixedKeys(s, prefix, n + 1)
      else PrefixedKeys(s, prefix, n + 1) == PrefixedKeys(s, prefix, n)
  {
    hide Books, UniqueLive, Contents, Recover, Retire;
    InvShape(s);
    PrefixOneMore(s, t, prefix, n);
    var item := Items(s)[n];
    if item.live && prefix <= item.key {
      DeleteIsAtomic(t, n);
      RetireRemoves(t, n);
    } else {
      assert PrefixedKeys(s, prefix, n + 1) == PrefixedKeys(s, prefix, n);
    }
  }

  lemma PrefixConfig(s: Kv, prefix: Bytes)
    requires Inv(s)
    ensures DeleteByPrefix(s, prefix).cfg == s.cfg
  {
  }

  // ---------------------------------------------------------------------------------------------
  // A cut collection

  ghost function CutGcFlash(s: Kv, records: nat): (flash: seq<Block>)
    requires Inv(s)
    ensures |flash| == BLOCK_NUMS
  {
    if s.flash[Active(s)].state == Dirty && records <= |Items(s)| then CutFlash(CutOf(s, records)) else s.flash
  }

  /** The keys that are lost: those of the copied records whose origin is their own position. */
  ghost function CutGcKeys(s: Kv, records: nat): set<Bytes>
    requires Inv(s)
  {
    if s.flash[Active(s)].state == Dirty && records <= |Items(s)| then
      CutOfSound(s, records);
      LostKeys(CutOf(s, records))
    else {}
  }

  ghost function CutEraseFlash(s: Kv, header: bool): (flash: seq<Block>)
    requires Inv(s)
    ensures |flash| == BLOCK_NUMS
  {
    if s.flash[Active(s)].state == Dirty
    then ErasedFlash(Active(s), if header then Clean else Blank, LiveOnly(Items(s))) else s.flash
  }

  lemma CutEraseActs(s: Kv, header: bool)
    requires Inv(s)
    ensures var t := Recover(s.cfg, CutEraseFlash(s, header)); Inv(t) && Map(t) == Map(s)
  {
    hide Recover;
    if s.flash[Active(s)].state == Dirty {
      CutAfterErase(s, if header then Clean else Blank);
    } else {
      RestartActs(s);
    }
  }

  // ---------------------------------------------------------------------------------------------
  // One step

  ghost function Step(s: Kv, op: Op): (Kv, Status)
    requires Inv(s) && Legal(op)
  {
    match op
    case Set(key, val) => SetItem(s, key, val)
    case Get(key, room) => (s, GetItem(s, key, room).status)
    case Delete(key) => DeleteItem(s, key)
    case DeletePrefix(prefix) => (DeleteByPrefix(s, prefix), Ok)
    case Gc => (Collect(s), Ok)
    case Restart => (Recover(s.cfg, s.flash), Ok)
    case CutSet(key, val, writes) => (Recover(s.cfg, CutSetFlash(s, key, val, writes)), Ok)
    case CutDelete(key) => (Recover(s.cfg, CutDeleteFlash(s, key)), Ok)
    case CutDeletePrefix(prefix, records, within) => (Recover(s.cfg, CutPrefixFlash(s, prefix, records, within)), Ok)
    case CutGc(records) => (Recover(s.cfg, CutGcFlash(s, records)), Ok)
    case CutErase(header) => (Recover(s.cfg, CutEraseFlash(s, header)), Ok)
  }

  /** What each operation does to the map. */
  ghost predicate Acts(s: Kv, op: Op, status: Status, m: map<Bytes, Bytes>)
    requires Inv(s) && Legal(op)
  {
    match op
    case Set(key, val) =>
      && m == (if status == Ok then Map(s)[key := val] else Map(s))
      && (status == InvalidParam <==> !LegalSet(key, val))
      && (status == NoSpace ==> LegalSet(key, val) && !Fits(s, key, val))
    case Get(key, room) =>
      && m == Map(s)
      && status == if room <= 0 then InvalidParam else if key !in Map(s) then NotFound
                   else if room < |Map(s)[key]| then NoSpace else Ok
    case Delete(key) => m == Map(s) - {key} && (status == Ok <==> key in Map(s))
    case DeletePrefix(prefix) => m == WithoutPrefix(Map(s), prefix)
    case Gc => m == Map(s)
    case Restart => m == Map(s)
    case CutSet(key, val, writes) => CutSetMeets(s, key, val, writes, m)
    case CutDelete(key) => m == Map(s) - {key}
    case CutDeletePrefix(prefix, n, within) =>
      m == if n > |Items(s)| then WithoutPrefix(Map(s), prefix) else Map(s) - CutPrefixKeys(s, prefix, n, within)
    case CutGc(records) => m == Map(s) - CutGcKeys(s, records)
    case CutErase(_) => m == Map(s)
  }

  lemma RestartActs(s: Kv)
    requires Inv(s)
    ensures Inv(Recover(s.cfg, s.flash)) && Map(Recover(s.cfg, s.flash)) == Map(s)
  {
    hide Recover;
    RestartRebuilds(s);
  }

  lemma SetKeepsConfig(s: Kv, key: Bytes, val: Bytes)
    requires Inv(s)
    ensures SetItem(s, key, val).0.cfg == s.cfg
  {
  }

  lemma CutDeleteActs(s: Kv, key: Bytes)
    requires Inv(s)
    ensures var t := Recover(s.cfg, CutDeleteFlash(s, key)); Inv(t) && Map(t) == Map(s) - {key}
  {
    if Search(s, key).Some? {
      CutFoundActs(s, key);
    } else {
      SearchFinds(s, key);
      RestartActs(s);
      assert Map(s) - {key} == Map(s);
    }
  }

  lemma CutFoundActs(s: Kv, key: Bytes)
    requires Inv(s) && Search(s, key).Some?
    ensures var t := Recover(s.cfg, CutDeleteFlash(s, key)); Inv(t) && Map(t) == Map(s) - {key}
  {
    SearchFinds(s, key);
    DeleteIsAtomic(s, Search(s, key).value.index);
  }

  lemma CutGcActs(s: Kv, records: nat)
    requires Inv(s)
    ensures var t := Recover(s.cfg, CutGcFlash(s, records)); Inv(t) && Map(t) == Map(s) - CutGcKeys(s, records)
  {
    hide Recover;
    if s.flash[Active(s)].state == Dirty && records <= |Items(s)| {
      CutLoses(s, records);
    } else {
      RestartActs(s);
      assert Map(s) - {} == Map(s);
    }
  }

  /** Every step from a quiescent store ends in one and acts on the map as it should. */
  lemma StepActs(s: Kv, op: Op)
    requires Inv(s) && Legal(op)
    ensures var (t, status) := Step(s, op); Inv(t) && Acts(s, op, status, Map(t))
  {
    hide Contents, CutSetFlash, CutPrefixFlash, CutGcFlash, CutEraseFlash, CutDeleteFlash, Live, Recover, Books, UniqueLive;
    match op
    case Set(key, val) => SetUpdatesMap(s, key, val);
    case Get(key, room) =>
      if room > 0 {
        GetReadsMap(s, key, room);
      }
    case Delete(key) => DeleteRemovesKey(s, key);
    case DeletePrefix(prefix) => DeleteByPrefixRemoves(s, prefix);
    case Gc => CollectKeepsMap(s);
    case Restart => RestartActs(s);
    case CutSet(key, val, writes) => CutSetActs(s, key, val, writes);
    case CutDelete(key) => CutDeleteActs(s, key);
    case CutDeletePrefix(prefix, records, within) => CutPrefixActs(s, prefix, records, within);
    case CutGc(records) => CutGcActs(s, records);
    case CutErase(header) => CutEraseActs(s, header);
  }

  // ---------------------------------------------------------------------------------------------
  // Runs

  ghost predicate AllLegal(ops: seq<Op>) {
    forall i :: 0 <= i < |ops| ==> Legal(ops[i])
  }

  /** A step, with the states and operations that a run never meets left alone. */
  ghost function Next(s: Kv, op: Op): Kv {
    if Inv(s) && Legal(op) then Step(s, op).0 else s
  }

  /** Every run refines the finite map: all its states are quiescent and each step is a step of the map
      specification. */
  lemma RunRefines(s: Kv, ops: seq<Op>)
    requires Inv(s) && AllLegal(ops)
    ensures var r := States(Next, s, ops);
      && (forall i :: 0 <= i <= |ops| ==> Inv(r[i]))
      && (forall i :: 0 <= i < |ops| ==> StepAt(r, ops, i))
  {
    var r := States(Next, s, ops);
    forall t, i {:trigger Next(t, ops[i])} | 0 <= i < |ops| && Inv(t) ensures Inv(Next(t, ops[i])) {
      StepActs(t, ops[i]);
    }
    RunKeeps(Next, t => Inv(t), s, ops);
    StatesChain(Next, s, ops);
    forall i | 0 <= i < |ops| ensures StepAt(r, ops, i) {
      StepAtActs(r, ops, i);
    }
  }

  ghost predicate StepAt(r: seq<Kv>, ops: seq<Op>, i: nat)
    requires i < |ops| && |r| == |ops| + 1
  {
    && Inv(r[i]) && Inv(r[i + 1]) && Legal(ops[i])
    && r[i + 1] == Step(r[i], ops[i]).0
    && Acts(r[i], ops[i], Step(r[i], ops[i]).1, Map(r[i + 1]))
  }

  lemma StepAtActs(r: seq<Kv>, ops: seq<Op>, i: nat)
    requires i < |ops| && |r| == |ops| + 1 && Inv(r[i]) && Legal(ops[i]) && r[i + 1] == Next(r[i], ops[i])
    ensures StepAt(r, ops, i)
  {
    StepActs(r[i], ops[i]);
  }

  /** Does `op` leave the binding of `key` alone? */
  ghost predicate Ignores(op: Op, key: Bytes) {
    match op
    case Set(k, _) => k != key
    case Get(_, _) => true
    case Delete(k) => k != key
    case DeletePrefix(prefix) => !(prefix <= key)
    case Gc => true
    case Restart => true
    case CutSet(k, _, _) => k != key
    case CutDelete(k) => k != key
    case CutDeletePrefix(prefix, _, _) => !(prefix <= key)
    case CutGc(_) => false
    case CutErase(_) => true
  }

  ghost predicate Reads(s: Kv, key: Bytes, val: Bytes) {
    Inv(s) && key in Map(s) && Map(s)[key] == val
  }

  lemma IgnoredStep(s: Kv, op: Op, key: Bytes, val: Bytes)
    requires Reads(s, key, val) && Legal(op) && Ignores(op, key)
    ensures Reads(Next(s, op), key, val)
  {
    hide Step, Books, UniqueLive, Contents, SetItem, DeleteItem, GetItem, LostKeys;
    StepActs(s, op);
    if op.CutSet? {
      SetUpdatesMap(s, op.key, op.val);
    }
  }

  lemma BindingLasts(s: Kv, ops: seq<Op>, key: Bytes, val: Bytes)
    requires Reads(s, key, val) && AllLegal(ops)
    requires forall i :: 0 <= i < |ops| ==> Ignores(ops[i], key)
    ensures Reads(Last(Next, s, ops), key, val)
  {
    forall t, i {:trigger Next(t, ops[i])} | 0 <= i < |ops| && Reads(t, key, val) ensures Reads(Next(t, ops[i]), key, val) {
      IgnoredStep(t, ops[i], key, val);
    }
    RunKeeps(Next, t => Reads(t, key, val), s, ops);
  }

  /** A value set with success is what a get returns after any further run of operations on other keys,
      collections and restarts. */
  lemma LastSetIsRead(s: Kv, key: Bytes, val: Bytes, ops: seq<Op>, room: int)
    requires Inv(s) && key != [] && SetItem(s, key, val).1 == Ok && AllLegal(ops) && room >= |val| > 0
    requires forall i :: 0 <= i < |ops| ==> Ignores(ops[i], key)
    ensures var t := Last(Next, SetItem(s, key, val).0, ops);
      Inv(t) && GetItem(t, key, room) == GetResult(Ok, val, |val|)
  {
    SetUpdatesMap(s, key, val);
    var u := SetItem(s, key, val).0;
    BindingLasts(u, ops, key, val);
    GetReadsMap(Last(Next, u, ops), key, room);
  }
}
