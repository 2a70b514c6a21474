/** What every operation of a run does to the bytes of a block as a whole (components/kv/kv.c): they only lose bits,
    or a collection erases the block it has emptied. The single writes are in KvManager.dfy. */
module KvFlash {
  import opened KvTypes
  import opened KvModel
  import opened KvRefinement
  import opened KvRecovery
  import opened KvImage
  import opened KvRuns

  // ---------------------------------------------------------------------------------------------
  // Every operation of a crash-free run

  lemma StepTransitive(a: Block, b: Block, c: Block)
    requires BlockStep(a, b) && BlockStep(b, c)
    ensures BlockStep(a, c)
  {
    forall i | 0 <= i < |a.items|
      ensures c.items[..|a.items|][i] == a.items[i] || c.items[..|a.items|][i] == a.items[i].(live := false)
    {
      assert b.items[..|a.items|][i] == b.items[i] && c.items[..|b.items|][i] == c.items[i];
    }
  }

  ghost predicate FlashStep(s: Kv, t: Kv) {
    && |s.flash| == BLOCK_NUMS == |t.flash|
    && BlockStep(s.flash[0], t.flash[0]) && BlockStep(s.flash[1], t.flash[1])
  }

  lemma FlashTransitive(s: Kv, t: Kv, u: Kv)
    requires FlashStep(s, t) && FlashStep(t, u)
    ensures FlashStep(s, u)
  {
    hide BlockStep;
    StepTransitive(s.flash[0], t.flash[0], u.flash[0]);
    StepTransitive(s.flash[1], t.flash[1], u.flash[1]);
  }

  lemma SameFlash(s: Kv, t: Kv)
    requires |s.flash| == BLOCK_NUMS && t.flash == s.flash
    ensures FlashStep(s, t)
  {
  }

  lemma RetireSteps(s: Kv, r: Ref)
    requires Inv(s) && r.block == Active(s) && r.index < |Items(s)|
    ensures FlashStep(s, Retire(s, r))
  {
    hide UniqueLive, AllSane, AllLive;
    BooksRetireSteps(s, r);
  }

  lemma StoreSteps(s: Kv, key: Bytes, val: Bytes, origin: nat)
    requires Inv(s)
    ensures FlashStep(s, Store(s, key, val, origin).0)
  {
  }

  lemma UpdateSteps(s: Kv, r: Ref, key: Bytes, val: Bytes)
    requires Inv(s) && Live(s, r) && r.block == Active(s) && 0 < |key| <= MAX_KEY_LEN && 0 < |val| <= MAX_VAL_LEN
    ensures var stored := StoreUpdate(s, r, key, val).0;
      FlashStep(s, stored) && FlashStep(s, Retire(stored, r))
  {
    var origin := s.cfg.Pos(r.block, Items(s), r.index);
    PosInFlash(s, r.index);
    StoreSteps(s, key, val, origin);
    StoreBooks(s, key, val, origin);
    var stored := StoreUpdate(s, r, key, val).0;
    BooksRetireSteps(stored, r);
    FlashTransitive(s, stored, Retire(stored, r));
  }

  lemma BooksRetireSteps(s: Kv, r: Ref)
    requires Books(s, Active(s)) && r.block == Active(s) && r.index < |Items(s)|
    ensures FlashStep(s, Retire(s, r))
  {
  }

  lemma SetSteps(s: Kv, key: Bytes, val: Bytes)
    requires Inv(s) && key != []
    ensures FlashStep(s, SetItem(s, key, val).0)
  {
    hide FlashStep, Search, Store, Retire, Books, UniqueLive, Contents;
    InvShape(s);
    SameFlash(s, s);
    if LegalSet(key, val) {
      SearchFinds(s, key);
      if Search(s, key).None? {
        StoreSteps(s, key, val, 0);
      } else {
        UpdateSteps(s, Search(s, key).value, key, val);
      }
    }
  }

  lemma DeleteSteps(s: Kv, key: Bytes)
    requires Inv(s)
    ensures FlashStep(s, DeleteItem(s, key).0)
  {
    hide FlashStep, Search, Retire, Books, UniqueLive, Contents;
    InvShape(s);
    SameFlash(s, s);
    SearchFinds(s, key);
    if Search(s, key).Some? {
      RetireSteps(s, Search(s, key).value);
    }
  }

  lemma {:induction false} PrefixSteps(s: Kv, prefix: Bytes, from: nat)
    requires Inv(s) && from <= |Items(s)|
    ensures FlashStep(s, DeletePrefixIn(s, Active(s), prefix, from))
    decreases |Items(s)| - from
  {
    hide UniqueLive, Active, FlashStep, Books, Retire, WithBlockState;
    InvShape(s);
    SameFlash(s, s);
    if from < |Items(s)| {
      var t, r := PrefixVisit(s, Active(s), prefix, from), Ref(Active(s), from);
      if !Items(s)[from].live {
        DeadVisit(s, from);
      } else if prefix <= Items(s)[from].key {
        RetireSteps(s, r);
        RetireRemoves(s, from);
      }
      PrefixSteps(t, prefix, from + 1);
      FlashTransitive(s, t, DeletePrefixIn(t, Active(s), prefix, from + 1));
    }
  }

  /** What a crash-free operation does to one block: its bytes only lose bits, or a collection erases the block it
      has emptied. */
  ghost predicate Disciplined(c: Config, op: Op, a: Block, b: Block)
    requires HasRoom(c, a.items) && HasRoom(c, b.items)
  {
    Clears(Image(c, a), Image(c, b)) || (op == Gc && a.state == Dirty && b == Block(Clean, []))
  }

  ghost predicate CrashFree(op: Op) {
    op.Set? || op.Get? || op.Delete? || op.DeletePrefix? || op.Gc? || op.Restart?
  }

  lemma NextSteps(s: Kv, op: Op)
    requires Inv(s) && Legal(op) && CrashFree(op) && (op == Gc ==> s.flash[Active(s)].state == Used)
    ensures FlashStep(s, Next(s, op))
  {
    hide DeletePrefixIn, DeleteByPrefix, SetItem, DeleteItem, GetItem, Collect, Recover, FlashStep, Books, UniqueLive;
    InvShape(s);
    SameFlash(s, s);
    match op
    case Set(key, val) => SetSteps(s, key, val);
    case Get(_, _) =>
    case Delete(key) => DeleteSteps(s, key);
    case DeletePrefix(prefix) =>
      PrefixSteps(s, prefix, 0);
      PrefixDeleteActive(s, prefix);
    case Gc => GcSteps(s);
    case Restart => RestartSteps(s);
  }

  /** A collection that finds nothing dirty leaves the flash alone, and so does a restart. */
  lemma GcSteps(s: Kv)
    requires Inv(s) && s.flash[Active(s)].state == Used
    ensures FlashStep(s, Next(s, Gc))
  {
    hide Books, UniqueLive, Contents, Collect, FlashStep;
    InvShape(s);
    CollectKeepsMap(s);
    SameFlash(s, Collect(s));
  }

  lemma RestartSteps(s: Kv)
    requires Inv(s)
    ensures FlashStep(s, Next(s, Restart))
  {
    hide Books, UniqueLive, Contents, Recover, FlashStep;
    InvShape(s);
    RestartRebuilds(s);
    SameFlash(s, Recover(s.cfg, s.flash));
  }

  lemma PrefixDeleteActive(s: Kv, prefix: Bytes)
    requires Inv(s)
    ensures DeleteByPrefix(s, prefix) == DeletePrefixIn(s, Active(s), prefix, 0)
  {
    DeletePrefixFrom(s, prefix, 0);
    if Active(s) == 0 {
      assert DeleteByPrefix(s, prefix) == DeletePrefixIn(s, 0, prefix, 0);
    } else {
      assert DeletePrefixIn(s, 0, prefix, 0) == s;
    }
  }

  lemma QuiescentFits(s: Kv)
    requires Inv(s)
    ensures HasRoom(s.cfg, s.flash[0].items) && HasRoom(s.cfg, s.flash[1].items)
  {
  }

  lemma NextConfig(s: Kv, op: Op)
    requires Inv(s) && Legal(op) && CrashFree(op)
    ensures Inv(Next(s, op)) && Next(s, op).cfg == s.cfg
  {
    hide Books, UniqueLive, Contents, Acts, Recover, DeletePrefixIn, Search;
    StepActs(s, op);
    match op
    case Set(key, val) => SetKeepsConfig(s, key, val);
    case Get(_, _) =>
    case Delete(key) =>
    case DeletePrefix(prefix) =>
    case Gc =>
    case Restart => RestartRebuilds(s);
  }

  /** A collection that has something to do: the victim is erased, the other block gains bits to clear only. */
  lemma GcErases(s: Kv, b: nat)
    requires Inv(s) && s.flash[Active(s)].state == Dirty && b < BLOCK_NUMS
    ensures var t := Next(s, Gc);
      && |t.flash| == BLOCK_NUMS
      && if b == Active(s) then t.flash[b] == Block(Clean, []) else BlockStep(s.flash[b], t.flash[b])
  {
    hide UniqueLive, Contents, Collect, LiveOnly, AllSane, AllLive;
    CollectKeepsMap(s);
  }

  /** No operation of a crash-free run ever needs a bit to go from 0 to 1, except that a collection erases a block. */
  lemma FlashDiscipline(s: Kv, op: Op, b: nat)
    requires Inv(s) && Legal(op) && CrashFree(op) && b < BLOCK_NUMS
    ensures |Next(s, op).flash| == BLOCK_NUMS
    ensures HasRoom(s.cfg, s.flash[b].items) && HasRoom(s.cfg, Next(s, op).flash[b].items)
    ensures Disciplined(s.cfg, op, s.flash[b], Next(s, op).flash[b])
  {
    hide Next, Image, Books, BlockStep, UniqueLive;
    QuiescentFits(s);
    NextConfig(s, op);
    QuiescentFits(Next(s, op));
    if op == Gc && s.flash[Active(s)].state == Dirty {
      GcErases(s, b);
    } else {
      ActiveState(s);
      NextSteps(s, op);
    }
    if b != Active(s) || op != Gc || s.flash[b].state != Dirty {
      StepClears(s.cfg, s.flash[b], Next(s, op).flash[b]);
    }
  }

  lemma ActiveState(s: Kv)
    requires Inv(s)
    ensures s.flash[Active(s)].state == Used || s.flash[Active(s)].state == Dirty
  {
  }
}
