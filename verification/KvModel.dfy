/** The key-value store as functions on its whole state: RAM record plus flash contents
    (components/kv/kv.c, two blocks). The class in KvManager.dfy runs the same operations in place. */
module KvModel {
  import opened KvTypes

  datatype Kv = Kv(cfg: Config, flash: seq<Block>, info: seq<Info>, writePos: nat, cleanNums: nat, gcTrigger: bool)

  /** Arrays of the right size; all that the low-level operations need. */
  ghost predicate Shaped(s: Kv) {
    s.cfg.Valid() && |s.flash| == BLOCK_NUMS && |s.info| == BLOCK_NUMS
  }

  // ---------------------------------------------------------------------------------------------
  // Reading

  predicate Live(s: Kv, r: Ref) {
    && r.block < |s.flash|
    && r.index < |s.flash[r.block].items|
    && s.flash[r.block].items[r.index].live
  }

  /** First live record with this key, scanning from `from`. */
  function FindKey(items: seq<Item>, key: Bytes, from: nat): (r: Option<nat>)
    requires from <= |items|
    ensures r.Some? ==> from <= r.value < |items| && items[r.value].live && items[r.value].key == key
    ensures r.None? ==> forall i :: from <= i < |items| && items[i].live ==> items[i].key != key
    decreases |items| - from
  {
    if from == |items| then None
    else if items[from].live && items[from].key == key then Some(from)
    else FindKey(items, key, from + 1)
  }

  /** The search over the blocks that are not clean, block 0 first. */
  function Search(s: Kv, key: Bytes): (r: Option<Ref>)
    requires |s.flash| == BLOCK_NUMS && |s.info| == BLOCK_NUMS
    ensures r.Some? ==> Live(s, r.value) && s.flash[r.value.block].items[r.value.index].key == key
  {
    var first := if s.info[0].state == Clean then None else FindKey(s.flash[0].items, key, 0);
    if first.Some? then Some(Ref(0, first.value))
    else if s.info[1].state == Clean then None
    else
      var second := FindKey(s.flash[1].items, key, 0);
      if second.Some? then Some(Ref(1, second.value)) else None
  }

  function ItemAt(s: Kv, r: Ref): Item
    requires r.block < |s.flash| && r.index < |s.flash[r.block].items|
  {
    s.flash[r.block].items[r.index]
  }

  /** The record that starts at a flash position. */
  function RefAt(s: Kv, pos: nat): (r: Option<Ref>)
    requires Shaped(s)
    ensures r.Some? ==> r.value.block < BLOCK_NUMS && r.value.index < |s.flash[r.value.block].items|
    ensures r.Some? ==> s.cfg.Pos(r.value.block, s.flash[r.value.block].items, r.value.index) == pos
  {
    var b := s.cfg.BlockOf(pos);
    if b >= BLOCK_NUMS then None
    else
      var i := s.cfg.FindAt(b, s.flash[b].items, pos, 0);
      if i.Some? then Some(Ref(b, i.value)) else None
  }

  // ---------------------------------------------------------------------------------------------
  // Writing

  function WithBlockState(s: Kv, b: nat, state: BlockState): Kv
    requires b < |s.flash| && b < |s.info|
  {
    s.(flash := s.flash[b := s.flash[b].(state := state)],
       info := s.info[b := s.info[b].(state := state)])
  }

  /** A block stays `Used` only while nothing in it has been retired. */
  function MarkDirty(s: Kv, b: nat): Kv
    requires b < |s.flash| && b < |s.info|
  {
    if s.info[b].state == Used then WithBlockState(s, b, Dirty) else s
  }

  /** Clear the state byte of one record, then let its block go dirty. */
  function Retire(s: Kv, r: Ref): Kv
    requires r.block < |s.flash| && r.block < |s.info| && r.index < |s.flash[r.block].items|
  {
    var items := s.flash[r.block].items;
    var cleared := items[r.index := items[r.index].(live := false)];
    MarkDirty(s.(flash := s.flash[r.block := s.flash[r.block].(items := cleared)]), r.block)
  }

  function Format(s: Kv, b: nat): Kv
    requires b < |s.flash| && b < |s.info| && BLOCK_HDR_SIZE <= s.cfg.blockSize
  {
    s.(flash := s.flash[b := Block(Clean, [])],
       info := s.info[b := Info(Clean, s.cfg.blockSize - BLOCK_HDR_SIZE)],
       cleanNums := s.cleanNums + 1)
  }

  function NewItem(c: Config, key: Bytes, val: Bytes, origin: nat): Item {
    Item(true, c.crc(key + val), key, val, origin)
  }

  // ---------------------------------------------------------------------------------------------
  // The invariant of a quiescent store

  function Active(s: Kv): nat {
    if s.writePos < s.cfg.blockSize then 0 else 1
  }

  function Items(s: Kv): seq<Item>
    requires |s.flash| == BLOCK_NUMS
  {
    s.flash[Active(s)].items
  }

  ghost predicate Sane(c: Config, item: Item) {
    && 0 < |item.key| <= MAX_KEY_LEN
    && 0 < |item.val| <= MAX_VAL_LEN
    && (item.live ==> item.crc == c.crc(item.key + item.val))
    && item.origin < BLOCK_NUMS * c.blockSize
  }

  ghost predicate AllSane(c: Config, items: seq<Item>) {
    forall i :: 0 <= i < |items| ==> Sane(c, items[i])
  }

  /** The finite map that a sequence of records stands for. */
  ghost function Contents(items: seq<Item>): map<Bytes, Bytes> {
    if items == [] then map[]
    else
      var n := |items| - 1;
      if items[n].live then Contents(items[..n])[items[n].key := items[n].val] else Contents(items[..n])
  }

  /** No key has two live records. */
  ghost predicate UniqueLive(items: seq<Item>) {
    items != [] ==>
      var n := |items| - 1;
      UniqueLive(items[..n]) && (items[n].live ==> items[n].key !in Contents(items[..n]))
  }

  ghost predicate AllLive(items: seq<Item>) {
    forall i :: 0 <= i < |items| ==> items[i].live
  }

  /** Block `a` holds the records and `1 - a` is the reserved clean block; RAM agrees with flash. */
  ghost predicate Books(s: Kv, a: nat) {
    && Shaped(s) && a < BLOCK_NUMS
    && var items := s.flash[a].items;
    && s.cfg.Off(items, |items|) < s.cfg.blockSize - BLOCK_HDR_SIZE
    && s.writePos == s.cfg.Pos(a, items, |items|)
    && s.info[a] == Info(s.flash[a].state, s.cfg.blockSize - BLOCK_HDR_SIZE - s.cfg.Off(items, |items|))
    && (s.flash[a].state == Used || s.flash[a].state == Dirty)
    && (s.flash[a].state == Used ==> AllLive(items))
    && s.flash[1 - a] == Block(Clean, [])
    && s.info[1 - a] == Info(Clean, s.cfg.blockSize - BLOCK_HDR_SIZE)
    && s.cleanNums == RESERVED_BLOCKS
    && AllSane(s.cfg, items)
  }

  ghost predicate Inv(s: Kv) {
    && |s.flash| == BLOCK_NUMS
    && Books(s, Active(s))
    && UniqueLive(Items(s))
  }

  ghost function Map(s: Kv): map<Bytes, Bytes>
    requires Inv(s)
  {
    Contents(Items(s))
  }

  // ---------------------------------------------------------------------------------------------
  // Set, get, delete

  /** Append a record at the write position, or report that it does not fit. */
  function Store(s: Kv, key: Bytes, val: Bytes, origin: nat): (r: (Kv, Status))
    requires Books(s, Active(s))
  {
    var item := NewItem(s.cfg, key, val, origin);
    var len := s.cfg.Size(item);
    var b := Active(s);
    StoreStaysInBlock(s, len);
    if s.info[b].space > len then
      (s.(flash := s.flash[b := s.flash[b].(items := s.flash[b].items + [item])],
          info := s.info[b := s.info[b].(space := s.info[b].space - len)],
          writePos := s.writePos + len,
          gcTrigger := s.gcTrigger || (s.info[b].space - len < ITEM_MAX_LEN && s.cleanNums <= RESERVED_BLOCKS)),
       Ok)
    else
      (s.(gcTrigger := true), NoSpace)
  }

  /** The strict comparison keeps the write position, before and after, inside one block. */
  lemma StoreStaysInBlock(s: Kv, len: nat)
    requires Books(s, Active(s))
    ensures s.cfg.BlockOf(s.writePos) == Active(s)
    ensures s.info[Active(s)].space > len ==> s.cfg.BlockOf(s.writePos + len) == Active(s)
  {
    var a := Active(s);
    var off := s.cfg.Off(s.flash[a].items, |s.flash[a].items|);
    BlockOfPos(s.cfg, a, BLOCK_HDR_SIZE + off);
    if s.info[a].space > len {
      BlockOfPos(s.cfg, a, BLOCK_HDR_SIZE + off + len);
    }
  }

  function SetItem(s: Kv, key: Bytes, val: Bytes): (Kv, Status)
    requires Inv(s)
  {
    if |val| == 0 || |key| > MAX_KEY_LEN || |val| > MAX_VAL_LEN then (s, InvalidParam)
    else
      var found := Search(s, key);
      if found.None? then Store(s, key, val, 0)
      else if ItemAt(s, found.value).val == val then (s, Ok)
      else
        var (stored, status) := StoreUpdate(s, found.value, key, val);
        if status != Ok then (stored, status) else (Retire(stored, found.value), Ok)
  }

  /** First half of an update: the new version is on flash and the old one is not yet retired. */
  function StoreUpdate(s: Kv, old_: Ref, key: Bytes, val: Bytes): (r: (Kv, Status))
    requires Inv(s) && Live(s, old_)
    ensures |r.0.info| == BLOCK_NUMS == |r.0.flash| && old_.index < |r.0.flash[old_.block].items|
  {
    Store(s, key, val, s.cfg.Pos(old_.block, s.flash[old_.block].items, old_.index))
  }

  datatype GetResult = GetResult(status: Status, val: Bytes, len: nat)

  /** `room` is the caller's buffer size; on `NoSpace` the needed length is reported. */
  function GetItem(s: Kv, key: Bytes, room: int): GetResult
    requires Inv(s)
  {
    if room <= 0 then GetResult(InvalidParam, [], 0)
    else
      var found := Search(s, key);
      if found.None? then GetResult(NotFound, [], 0)
      else
        var val := ItemAt(s, found.value).val;
        if room < |val| then GetResult(NoSpace, [], |val|) else GetResult(Ok, val, |val|)
  }

  function DeleteItem(s: Kv, key: Bytes): (Kv, Status)
    requires Inv(s)
  {
    var found := Search(s, key);
    if found.None? then (s, NotFound) else (Retire(s, found.value), Ok)
  }

  /** One record under a delete by prefix. */
  function PrefixVisit(s: Kv, b: nat, prefix: Bytes, i: nat): (r: Kv)
    requires b < |s.flash| && b < |s.info| && i < |s.flash[b].items|
    ensures |r.flash| == |s.flash| && |r.info| == |s.info| && r.cfg == s.cfg
    ensures |r.flash[b].items| == |s.flash[b].items|
  {
    if !s.flash[b].items[i].live then MarkDirty(s, b)
    else if prefix <= s.flash[b].items[i].key then Retire(s, Ref(b, i))
    else s
  }

  /** Retire every live record of block `b`, from `from` on, whose key starts with `prefix`. */
  function DeletePrefixIn(s: Kv, b: nat, prefix: Bytes, from: nat): (r: Kv)
    requires b < |s.flash| && b < |s.info| && from <= |s.flash[b].items|
    ensures |r.flash| == |s.flash| && |r.info| == |s.info| && r.cfg == s.cfg
    decreases |s.flash[b].items| - from
  {
    if from == |s.flash[b].items| then s
    else DeletePrefixIn(PrefixVisit(s, b, prefix, from), b, prefix, from + 1)
  }

  function DeleteByPrefix(s: Kv, prefix: Bytes): Kv
    requires |s.flash| == BLOCK_NUMS == |s.info|
  {
    DeletePrefixIn(DeletePrefixIn(s, 0, prefix, 0), 1, prefix, 0)
  }

  // ---------------------------------------------------------------------------------------------
  // Garbage collection

  function LiveOnly(items: seq<Item>): seq<Item> {
    if items == [] then []
    else
      var n := |items| - 1;
      if items[n].live then LiveOnly(items[..n]) + [items[n]] else LiveOnly(items[..n])
  }

  /** First clean block, or `BLOCK_NUMS`. */
  function FirstClean(s: Kv): nat
    requires |s.info| == BLOCK_NUMS
  {
    if s.info[0].state == Clean then 0 else if s.info[1].state == Clean then 1 else BLOCK_NUMS
  }

  /** The block to collect: the one after the active block is looked at before the active block. */
  function Victim(s: Kv): Option<nat>
    requires |s.info| == BLOCK_NUMS
  {
    var a := Active(s);
    if s.info[1 - a].state == Dirty then Some(1 - a) else if s.info[a].state == Dirty then Some(a) else None
  }

  /** The clean block `c` after the first `n` records of block `v` have been looked at. */
  function CopyInto(s: Kv, c: nat, v: nat, n: nat): Kv
    requires Shaped(s) && c < BLOCK_NUMS && v < BLOCK_NUMS && n <= |s.flash[v].items|
    requires s.flash[c].items == []
    requires s.cfg.Off(LiveOnly(s.flash[v].items[..n]), |LiveOnly(s.flash[v].items[..n])|) <= s.info[c].space
  {
    var kept := LiveOnly(s.flash[v].items[..n]);
    var used := s.cfg.Off(kept, |kept|);
    s.(flash := s.flash[c := s.flash[c].(items := kept)],
       info := s.info[c := s.info[c].(space := s.info[c].space - used)],
       writePos := s.cfg.Pos(c, kept, |kept|))
  }

  function Collect(s: Kv): Kv
    requires Inv(s)
  {
    var done := s.(gcTrigger := false);
    var v := Victim(s);
    if v.None? then done
    else
      var c := FirstClean(s);
      LiveOnlyFits(s, |Items(s)|);
      WithBlockState(Format(CopyInto(done, c, v.value, |s.flash[v.value].items|), v.value), c, Used)
        .(cleanNums := s.cleanNums)
  }

  /** Copies never need more room than the records they come from. */
  lemma LiveOnlyFits(s: Kv, n: nat)
    requires Inv(s) && n <= |Items(s)|
    ensures var kept := LiveOnly(Items(s)[..n]);
      s.cfg.Off(kept, |kept|) <= s.cfg.Off(Items(s), n) < s.cfg.blockSize - BLOCK_HDR_SIZE
    ensures Items(s)[..|Items(s)|] == Items(s)
    ensures s.info[FirstClean(s)] == Info(Clean, s.cfg.blockSize - BLOCK_HDR_SIZE) && FirstClean(s) == 1 - Active(s)
    ensures Victim(s) == if s.info[Active(s)].state == Dirty then Some(Active(s)) else None
  {
    LiveOnlyShrinks(s.cfg, Items(s), n);
    OffIncreases(s.cfg, Items(s), n, |Items(s)|);
  }

  lemma {:induction false} LiveOnlyShrinks(c: Config, items: seq<Item>, n: nat)
    requires c.align > 0 && n <= |items|
    ensures var kept := LiveOnly(items[..n]); c.Off(kept, |kept|) <= c.Off(items, n)
  {
    if n > 0 {
      LiveOnlyShrinks(c, items, n - 1);
      assert items[..n][..n - 1] == items[..n - 1];
      var kept := LiveOnly(items[..n - 1]);
      if items[n - 1].live {
        OffAgree(c, kept, kept + [items[n - 1]], |kept|);
      }
    }
  }
}
