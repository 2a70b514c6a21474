/** Every operation of the store keeps its invariant and acts on the finite map `Map(s)`. */
module KvRefinement {
  import opened KvTypes
  import opened KvModel

  // ---------------------------------------------------------------------------------------------
  // The map of a sequence of records

  lemma ContentsAppend(items: seq<Item>, x: Item)
    ensures Contents(items + [x]) == if x.live then Contents(items)[x.key := x.val] else Contents(items)
    ensures UniqueLive(items + [x]) <==> UniqueLive(items) && (x.live ==> x.key !in Contents(items))
  {
    assert (items + [x])[..|items|] == items;
  }

  /** A live record binds its key. */
  lemma {:induction false} LiveBinds(items: seq<Item>, i: nat)
    requires UniqueLive(items) && i < |items| && items[i].live
    ensures items[i].key in Contents(items) && Contents(items)[items[i].key] == items[i].val
  {
    if i < |items| - 1 {
      LiveBinds(items[..|items| - 1], i);
    }
  }

  /** Every binding comes from a live record. */
  lemma {:induction false} BindingLive(items: seq<Item>, key: Bytes) returns (i: nat)
    requires key in Contents(items)
    ensures i < |items| && items[i].live && items[i].key == key && items[i].val == Contents(items)[key]
  {
    i := |items| - 1;
    if !(items[i].live && items[i].key == key) {
      i := BindingLive(items[..i], key);
    }
  }

  lemma {:induction false} LiveKeysDiffer(items: seq<Item>, i: nat, j: nat)
    requires UniqueLive(items) && i < j < |items| && items[i].live && items[j].live
    ensures items[i].key != items[j].key
  {
    LiveBinds(items[..j], i) by { PrefixUnique(items, j); }
    PrefixUnique(items, j + 1);
    assert items[..j + 1][..j] == items[..j];
  }

  lemma {:induction false} PrefixUnique(items: seq<Item>, n: nat)
    requires UniqueLive(items) && n <= |items|
    ensures UniqueLive(items[..n])
  {
    if n < |items| {
      PrefixUnique(items[..|items| - 1], n);
      assert items[..|items| - 1][..n] == items[..n];
    } else {
      assert items[..n] == items;
    }
  }

  function Cleared(items: seq<Item>, i: nat): seq<Item>
    requires i < |items|
  {
    items[i := items[i].(live := false)]
  }

  /** Putting a dead record in the place of a live one removes its key and nothing else. */
  lemma {:induction false} DeadRemoves(items: seq<Item>, i: nat, d: Item)
    requires UniqueLive(items) && i < |items| && items[i].live && !d.live
    ensures UniqueLive(items[i := d]) && Contents(items[i := d]) == Contents(items) - {items[i].key}
  {
    var n := |items| - 1;
    var rest, last := items[..n], items[n];
    assert items == rest + [last];
    if i == n {
      assert items[i := d] == rest + [d];
      ContentsAppend(rest, d);
      assert Contents(rest)[last.key := last.val] - {last.key} == Contents(rest);
    } else {
      DeadRemoves(rest, i, d);
      LiveBinds(rest, i);
      assert items[i := d] == rest[i := d] + [last];
      ContentsAppend(rest[i := d], last);
    }
  }

  /** A new version appended and the old one retired is a map update, whatever the key was bound to. */
  lemma ReplaceUpdates(items: seq<Item>, i: nat, x: Item)
    requires UniqueLive(items) && i < |items| && items[i].live && x.live && x.key == items[i].key
    ensures UniqueLive(Cleared(items + [x], i))
    ensures Contents(Cleared(items + [x], i)) == Contents(items)[x.key := x.val]
  {
    hide Contents, UniqueLive;
    DeadRemoves(items, i, items[i].(live := false));
    ContentsAppend(Cleared(items, i), x);
    assert Cleared(items + [x], i) == Cleared(items, i) + [x];
  }

  /** Copying the live records, in order, keeps the map. */
  lemma {:induction false} LiveOnlyKeepsContents(c: Config, items: seq<Item>)
    requires UniqueLive(items) && AllSane(c, items)
    ensures UniqueLive(LiveOnly(items)) && Contents(LiveOnly(items)) == Contents(items)
    ensures AllSane(c, LiveOnly(items)) && AllLive(LiveOnly(items))
  {
    if items != [] {
      var n := |items| - 1;
      LiveOnlyKeepsContents(c, items[..n]);
      ContentsAppend(LiveOnly(items[..n]), items[n]);
    }
  }

  // ---------------------------------------------------------------------------------------------
  // Search and get

  /** The search finds exactly the record that binds the key. */
  lemma SearchFinds(s: Kv, key: Bytes)
    requires Inv(s)
    ensures Search(s, key).Some? <==> key in Map(s)
    ensures Search(s, key).Some? ==> Search(s, key).value.block == Active(s)
                                     && Map(s)[key] == ItemAt(s, Search(s, key).value).val
  {
    var r := FindKey(Items(s), key, 0);
    if r.Some? {
      LiveBinds(Items(s), r.value);
    } else if key in Map(s) {
      var i := BindingLive(Items(s), key);
    }
  }

  /** A get with room for the value returns the map's value, and says how much room is missing otherwise. */
  lemma GetReadsMap(s: Kv, key: Bytes, room: int)
    requires Inv(s)
    ensures var g := GetItem(s, key, room);
      if room <= 0 then g.status == InvalidParam
      else if key !in Map(s) then g.status == NotFound
      else if room < |Map(s)[key]| then g.status == NoSpace && g.len == |Map(s)[key]|
      else g == GetResult(Ok, Map(s)[key], |Map(s)[key]|)
  {
    SearchFinds(s, key);
  }

  // ---------------------------------------------------------------------------------------------
  // Set

  lemma AllSaneAppend(c: Config, items: seq<Item>, x: Item)
    requires AllSane(c, items) && Sane(c, x)
    ensures AllSane(c, items + [x])
  {
  }

  lemma PosInFlash(s: Kv, i: nat)
    requires Inv(s) && i <= |Items(s)|
    ensures s.cfg.Pos(Active(s), Items(s), i) < BLOCK_NUMS * s.cfg.blockSize
  {
    OffIncreases(s.cfg, Items(s), i, |Items(s)|);
  }

  /** The books after a successful append. */
  lemma StoreBooks(s: Kv, key: Bytes, val: Bytes, origin: nat)
    requires Inv(s) && 0 < |key| <= MAX_KEY_LEN && 0 < |val| <= MAX_VAL_LEN && origin < BLOCK_NUMS * s.cfg.blockSize
    ensures var (t, status) := Store(s, key, val, origin);
      var item := NewItem(s.cfg, key, val, origin);
      if s.info[Active(s)].space > s.cfg.Size(item) then
        && status == Ok && Active(t) == Active(s) && Books(t, Active(s)) && Items(t) == Items(s) + [item]
      else
        && status == NoSpace && t == s.(gcTrigger := true)
  {
    var item, a, items := NewItem(s.cfg, key, val, origin), Active(s), Items(s);
    if s.info[a].space > s.cfg.Size(item) {
      StoreStaysInBlock(s, s.cfg.Size(item));
      OffAgree(s.cfg, items, items + [item], |items|);
      AllSaneAppend(s.cfg, items, item);
    }
  }

  /** Retiring a record keeps every tracked quantity; a used block turns dirty. */
  lemma RetireBooks(s: Kv, i: nat)
    requires Books(s, Active(s)) && i < |Items(s)|
    ensures var t := Retire(s, Ref(Active(s), i));
      && Active(t) == Active(s) && Books(t, Active(s)) && Items(t) == Cleared(Items(s), i)
      && t.writePos == s.writePos && t.flash[Active(s)].state == Dirty && t.gcTrigger == s.gcTrigger
  {
    hide SameRecords, AllLive;
    var a, items, t := Active(s), Cleared(Items(s), i), Retire(s, Ref(Active(s), i));
    OffAgree(s.cfg, Items(s), items, |Items(s)|);
    assert t.flash[a] == Block(Dirty, items) && t.info[a] == Info(Dirty, s.info[a].space);
  }

  /** The condition a caller can compute: the new record does not fit strictly below the free space. */
  ghost predicate Fits(s: Kv, key: Bytes, val: Bytes)
    requires Inv(s)
  {
    s.info[Active(s)].space > s.cfg.Size(NewItem(s.cfg, key, val, 0))
  }

  lemma StoreFresh(s: Kv, key: Bytes, val: Bytes)
    requires Inv(s) && 0 < |key| <= MAX_KEY_LEN && 0 < |val| <= MAX_VAL_LEN && key !in Map(s) && Fits(s, key, val)
    ensures var (t, status) := Store(s, key, val, 0);
      status == Ok && Inv(t) && Map(t) == Map(s)[key := val]
  {
    StoreBooks(s, key, val, 0);
    ContentsAppend(Items(s), NewItem(s.cfg, key, val, 0));
  }

  lemma RetireRemoves(s: Kv, i: nat)
    requires Inv(s) && i < |Items(s)| && Items(s)[i].live
    ensures var t := Retire(s, Ref(Active(s), i));
      && Inv(t) && Active(t) == Active(s) && Items(t) == Cleared(Items(s), i) && t.gcTrigger == s.gcTrigger
      && Map(t) == Map(s) - {Items(s)[i].key}
  {
    RetireBooks(s, i);
    DeadRemoves(Items(s), i, Items(s)[i].(live := false));
  }

  /** Retiring the old version after the new one is stored. */
  lemma RetireOld(s: Kv, t: Kv, i: nat, x: Item)
    requires Inv(s) && i < |Items(s)| && Items(s)[i].live && x.live && Items(s)[i].key == x.key
    requires Active(t) == Active(s) && Books(t, Active(s)) && Items(t) == Items(s) + [x]
    ensures var u := Retire(t, Ref(Active(s), i));
      Active(u) == Active(s) && Inv(u) && Map(u) == Map(s)[x.key := x.val]
  {
    RetireBooks(t, i);
    ReplaceUpdates(Items(s), i, x);
  }

  lemma UpdateReplaces(s: Kv, i: nat, key: Bytes, val: Bytes)
    requires Inv(s) && i < |Items(s)| && Items(s)[i].live && Items(s)[i].key == key
    requires 0 < |val| <= MAX_VAL_LEN && Fits(s, key, val)
    ensures var r := Ref(Active(s), i);
      var (stored, status) := StoreUpdate(s, r, key, val);
      var t := Retire(stored, r);
      status == Ok && Inv(t) && Map(t) == Map(s)[key := val]
  {
    var origin := s.cfg.Pos(Active(s), Items(s), i);
    PosInFlash(s, i);
    StoreBooks(s, key, val, origin);
    RetireOld(s, Store(s, key, val, origin).0, i, NewItem(s.cfg, key, val, origin));
  }

  ghost predicate LegalSet(key: Bytes, val: Bytes) {
    |val| > 0 && |key| <= 128 && |val| <= 512
  }

  ghost predicate AlreadyBound(s: Kv, key: Bytes, val: Bytes)
    requires Inv(s)
  {
    key in Map(s) && Map(s)[key] == val
  }

  /** A set changes exactly its key or nothing, and fails for space exactly when a different value does not fit. */
  ghost predicate SetMeets(s: Kv, key: Bytes, val: Bytes, t: Kv, status: Status)
    requires Inv(s)
  {
    && Inv(t)
    && status == (if !LegalSet(key, val) then InvalidParam
                  else if AlreadyBound(s, key, val) || Fits(s, key, val) then Ok
                  else NoSpace)
    && Map(t) == (if status == Ok then Map(s)[key := val] else Map(s))
    && (status != Ok ==> t == s.(gcTrigger := t.gcTrigger))
  }

  lemma SetUpdatesMap(s: Kv, key: Bytes, val: Bytes)
    requires Inv(s) && key != []
    ensures SetMeets(s, key, val, SetItem(s, key, val).0, SetItem(s, key, val).1)
  {
    if LegalSet(key, val) {
      if Search(s, key).None? {
        SetFresh(s, key, val);
      } else if AlreadyBound(s, key, val) {
        SetAgain(s, key, val);
      } else {
        SetBound(s, key, val);
      }
    }
  }

  /** When a set asks for a collection: when there is no room for its record, and when less than the largest record
      needs, 648 bytes, is left behind the one it has written. */
  lemma SetAsks(s: Kv, key: Bytes, val: Bytes)
    requires Inv(s) && key != []
    ensures var (t, status) := SetItem(s, key, val); var stored := status == Ok && !AlreadyBound(s, key, val);
      && t.gcTrigger == (s.gcTrigger || status == NoSpace || (stored && t.info[Active(t)].space < 648))
      && (stored ==> t.info[Active(s)].space == s.info[Active(s)].space - s.cfg.Size(NewItem(s.cfg, key, val, 0)))
  {
    hide UniqueLive, AllSane, Sane, AllLive, Contents;
    SearchFinds(s, key);
    if LegalSet(key, val) && !AlreadyBound(s, key, val) {
      SetUpdatesMap(s, key, val);
      StoreAsks(s, key, val, OriginOf(s, key));
    }
  }

  function OriginOf(s: Kv, key: Bytes): nat
    requires Inv(s)
  {
    var r := Search(s, key);
    if r.None? then 0 else s.cfg.Pos(r.value.block, s.flash[r.value.block].items, r.value.index)
  }

  lemma StoreAsks(s: Kv, key: Bytes, val: Bytes, origin: nat)
    requires Inv(s)
    ensures var (t, status) := Store(s, key, val, origin); var len := s.cfg.Size(NewItem(s.cfg, key, val, 0));
      && Shaped(t) && t.info[Active(s)].space == (if status == Ok then s.info[Active(s)].space - len else s.info[Active(s)].space)
      && t.gcTrigger == (s.gcTrigger || status == NoSpace || t.info[Active(s)].space < 648)
      && (status == Ok ==> Active(t) == Active(s))
  {
  }

  lemma SetAgain(s: Kv, key: Bytes, val: Bytes)
    requires Inv(s) && LegalSet(key, val) && AlreadyBound(s, key, val)
    ensures SetItem(s, key, val) == (s, Ok) && Map(s) == Map(s)[key := val]
  {
    SearchFinds(s, key);
  }

  lemma SetFresh(s: Kv, key: Bytes, val: Bytes)
    requires Inv(s) && key != [] && LegalSet(key, val) && Search(s, key).None?
    ensures key !in Map(s)
    ensures SetMeets(s, key, val, SetItem(s, key, val).0, SetItem(s, key, val).1)
  {
    SearchFinds(s, key);
    if Fits(s, key, val) {
      StoreFresh(s, key, val);
    } else {
      StoreBooks(s, key, val, 0);
    }
  }

  lemma SetBound(s: Kv, key: Bytes, val: Bytes)
    requires Inv(s) && key != [] && LegalSet(key, val) && Search(s, key).Some? && !AlreadyBound(s, key, val)
    ensures SetMeets(s, key, val, SetItem(s, key, val).0, SetItem(s, key, val).1)
  {
    hide Sane, Contents, AllLive, AllSane, WithBlockState, Store, UniqueLive, ItemAt;
    SearchFinds(s, key);
    var r := Search(s, key).value;
    var (stored, status) := StoreUpdate(s, r, key, val);
    if Fits(s, key, val) {
      UpdateReplaces(s, r.index, key, val);
      assert SetItem(s, key, val) == (Retire(stored, r), Ok);
    } else {
      SetFull(s, key, val);
    }
  }

  lemma SetFull(s: Kv, key: Bytes, val: Bytes)
    requires Inv(s) && key != [] && LegalSet(key, val) && Search(s, key).Some? && !AlreadyBound(s, key, val)
    requires !Fits(s, key, val)
    ensures SetMeets(s, key, val, SetItem(s, key, val).0, SetItem(s, key, val).1)
  {
    hide Sane, Contents, AllLive, AllSane, WithBlockState, Store, UniqueLive, ItemAt;
    SearchFinds(s, key);
    var r := Search(s, key).value;
    PosInFlash(s, r.index);
    StoreBooks(s, key, val, s.cfg.Pos(r.block, Items(s), r.index));
    assert SetItem(s, key, val).1 == NoSpace;
  }

  // ---------------------------------------------------------------------------------------------
  // Delete

  lemma DeleteRemovesKey(s: Kv, key: Bytes)
    requires Inv(s)
    ensures var (t, status) := DeleteItem(s, key);
      && Inv(t)
      && status == (if key in Map(s) then Ok else NotFound)
      && Map(t) == Map(s) - {key}
      && (status == NotFound ==> t == s)
  {
    SearchFinds(s, key);
    var found := Search(s, key);
    if found.Some? {
      RetireRemoves(s, found.value.index);
    } else {
      assert Map(s) - {key} == Map(s);
    }
  }

  ghost function WithoutPrefix(m: map<Bytes, Bytes>, prefix: Bytes): map<Bytes, Bytes> {
    map k | k in m && !(prefix <= k) :: m[k]
  }

  ghost predicate NonePrefixed(items: seq<Item>, prefix: Bytes, upTo: nat)
    requires upTo <= |items|
  {
    forall i :: 0 <= i < upTo && items[i].live ==> !(prefix <= items[i].key)
  }

  lemma NoneLeft(s: Kv, prefix: Bytes)
    requires Inv(s) && NonePrefixed(Items(s), prefix, |Items(s)|)
    ensures WithoutPrefix(Map(s), prefix) == Map(s)
  {
    forall k | k in Map(s) ensures !(prefix <= k) {
      var i := BindingLive(Items(s), k);
    }
  }

  lemma PrefixRetired(s: Kv, prefix: Bytes, from: nat)
    requires Inv(s) && from < |Items(s)| && NonePrefixed(Items(s), prefix, from)
    requires Items(s)[from].live && prefix <= Items(s)[from].key
    ensures var t := Retire(s, Ref(Active(s), from));
      && Inv(t) && Active(t) == Active(s) && t.gcTrigger == s.gcTrigger && |Items(t)| == |Items(s)|
      && NonePrefixed(Items(t), prefix, from + 1)
      && WithoutPrefix(Map(t), prefix) == WithoutPrefix(Map(s), prefix)
  {
    RetireRemoves(s, from);
  }

  /** From record `from` on, the loop retires exactly the live records with the prefix. */
  lemma {:induction false} DeletePrefixFrom(s: Kv, prefix: Bytes, from: nat)
    requires Inv(s) && from <= |Items(s)| && NonePrefixed(Items(s), prefix, from)
    ensures var t := DeletePrefixIn(s, Active(s), prefix, from);
      && Inv(t) && Active(t) == Active(s) && t.gcTrigger == s.gcTrigger
      && Map(t) == WithoutPrefix(Map(s), prefix)
    decreases |Items(s)| - from
  {
    hide UniqueLive, Active, Retire;
    if from == |Items(s)| {
      NoneLeft(s, prefix);
    } else if Items(s)[from].live && prefix <= Items(s)[from].key {
      PrefixRetired(s, prefix, from);
      DeletePrefixFrom(Retire(s, Ref(Active(s), from)), prefix, from + 1);
    } else {
      assert !Items(s)[from].live ==> MarkDirty(s, Active(s)) == s;
      DeletePrefixFrom(s, prefix, from + 1);
    }
  }

  /** Delete-by-prefix removes exactly the keys that start with the prefix. */
  lemma DeleteByPrefixRemoves(s: Kv, prefix: Bytes)
    requires Inv(s)
    ensures var t := DeleteByPrefix(s, prefix);
      Inv(t) && Map(t) == WithoutPrefix(Map(s), prefix) && t.gcTrigger == s.gcTrigger
  {
    DeletePrefixFrom(s, prefix, 0);
    if Active(s) == 0 {
      assert DeleteByPrefix(s, prefix) == DeletePrefixIn(s, 0, prefix, 0);
    } else {
      assert DeletePrefixIn(s, 0, prefix, 0) == s;
    }
  }

  // ---------------------------------------------------------------------------------------------
  // Garbage collection

  /** The state a collection of the dirty active block leaves. */
  lemma CollectMoves(s: Kv)
    requires Inv(s) && s.flash[Active(s)].state == Dirty
    ensures var t, a, kept := Collect(s), Active(s), LiveOnly(Items(s));
      && Active(t) == 1 - a && Books(t, 1 - a) && !t.gcTrigger
      && t.flash[1 - a] == Block(Used, kept) && t.flash[a] == Block(Clean, [])
      && t.info[1 - a].space == s.cfg.blockSize - BLOCK_HDR_SIZE - s.cfg.Off(kept, |kept|)
  {
    LiveOnlyFits(s, |Items(s)|);
    LiveOnlyKeepsContents(s.cfg, Items(s));
  }

  /** Collection keeps the map. A dirty block moves to the clean one, which ends up used and exactly full of
      its live records; the old block ends up clean. With nothing dirty only the trigger flag changes. */
  lemma CollectKeepsMap(s: Kv)
    requires Inv(s)
    ensures var t := Collect(s);
      var a, kept := Active(s), LiveOnly(Items(s));
      && Inv(t) && Map(t) == Map(s) && !t.gcTrigger
      && t.cleanNums == |set b | 0 <= b < BLOCK_NUMS && t.info[b].state == Clean|
      && (s.flash[a].state == Dirty ==>
           && Active(t) == 1 - a && t.flash[1 - a] == Block(Used, kept) && t.flash[a] == Block(Clean, [])
           && t.info[1 - a].space == s.cfg.blockSize - BLOCK_HDR_SIZE - s.cfg.Off(kept, |kept|))
      && (s.flash[a].state == Used ==> t == s.(gcTrigger := false))
  {
    hide Sane, CopyInto, FirstClean, AllLive, LiveOnly;
    var t := Collect(s);
    if s.flash[Active(s)].state == Dirty {
      CollectMoves(s);
      LiveOnlyKeepsContents(s.cfg, Items(s));
    } else {
      LiveOnlyFits(s, |Items(s)|);
    }
    CleanCount(t);
  }

  /** `clean_blk_nums` counts the clean blocks. */
  lemma CleanCount(t: Kv)
    requires Inv(t)
    ensures t.cleanNums == |set b | 0 <= b < BLOCK_NUMS && t.info[b].state == Clean|
  {
    assert (set b | 0 <= b < BLOCK_NUMS && t.info[b].state == Clean) == {1 - Active(t)};
  }
}
