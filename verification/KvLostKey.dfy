/** The guard of `KvGcCut.CutKeepsMapIff` fails in ordinary runs: two collections bring a record back to the position
    its header still names, and a power cut during the third loses its key. */
module KvLostKey {
  import opened Runs
  import opened KvTypes
  import opened KvModel
  import opened KvRefinement
  import opened KvRecovery
  import opened KvPowerCut
  import opened KvGcCut
  import opened KvRuns

  const K: Bytes := [0x6B]
  const J: Bytes := [0x6A]
  const V1: Bytes := [0x31]
  const V2: Bytes := [0x32]

  /** A set waits for a collection that has been asked for, and a collection runs only when it has. */
  ghost predicate Patient(s: Kv, op: Op) {
    (op.Set? ==> !s.gcTrigger) && (op == Gc ==> s.gcTrigger)
  }

  ghost predicate PatientRun(s: Kv, ops: seq<Op>) {
    forall i :: 0 <= i < |ops| ==> Patient(States(Next, s, ops)[i], ops[i])
  }

  // ---------------------------------------------------------------------------------------------
  // Stores with little room

  /** The size of a record with a key and a value of one byte each. */
  function Small(c: Config): (n: nat)
    requires c.align > 0
    ensures n >= ITEM_HDR_SIZE + 2
  {
    c.Align(ITEM_HDR_SIZE + 2)
  }

  function Left(c: Config, fill: seq<Item>): int
    requires c.align > 0
  {
    c.blockSize - BLOCK_HDR_SIZE - c.Off(fill, |fill|)
  }

  /** Live records none of which is for `K` or `J`, behind which there is room for two small records and so little of
      it that storing one asks for a collection. */
  ghost predicate Crowded(c: Config, fill: seq<Item>) {
    && c.Valid() && Left(c, fill) > 2 * Small(c) && Left(c, fill) - Small(c) < ITEM_MAX_LEN
    && AllLive(fill) && forall j :: 0 <= j < |fill| ==> fill[j].key != K && fill[j].key != J
  }

  /** A quiescent store whose records are `fill` and then `items`; everything else follows from the invariant. */
  ghost predicate Is(s: Kv, c: Config, fill: seq<Item>, a: nat, state: BlockState, items: seq<Item>) {
    && Crowded(c, fill) && Inv(s) && s.cfg == c && Active(s) == a && s.flash[a] == Block(state, fill + items)
    && |items| <= 2 && OneByteEach(items)
  }

  ghost predicate OneByteEach(items: seq<Item>) {
    forall j :: 0 <= j < |items| ==> |items[j].key| == 1 && |items[j].val| == 1 && (items[j].key == K || items[j].key == J)
  }

  function Version(c: Config, live: bool, key: Bytes, val: Bytes, origin: nat): Item {
    NewItem(c, key, val, origin).(live := live)
  }

  lemma OffMore(c: Config, fill: seq<Item>, items: seq<Item>, i: nat)
    requires c.align > 0 && i <= |items| && OneByteEach(items)
    requires i <= 2
    ensures c.Off(fill + items, |fill| + i)
         == c.Off(fill, |fill|) + if i == 0 then 0 else if i == 1 then Small(c) else 2 * Small(c)
    decreases i
  {
    if i == 0 {
      OffAgree(c, fill, fill + items, |fill|);
    } else {
      OffMore(c, fill, items, i - 1);
      assert (fill + items)[|fill| + i - 1] == items[i - 1];
      assert c.Size(items[i - 1]) == Small(c);
    }
  }

  lemma SpaceIs(s: Kv, c: Config, fill: seq<Item>, a: nat, state: BlockState, items: seq<Item>)
    requires Is(s, c, fill, a, state, items) && |items| <= 1
    ensures |s.info| == BLOCK_NUMS && a < BLOCK_NUMS
    ensures s.info[a].space == Left(c, fill) - if items == [] then 0 else Small(c)
  {
    hide UniqueLive, AllLive, AllSane, Small;
    OffMore(c, fill, items, |items|);
  }

  lemma SmallSize(c: Config, key: Bytes, val: Bytes, origin: nat)
    requires c.align > 0 && |key| == 1 == |val|
    ensures c.Size(NewItem(c, key, val, origin)) == Small(c)
  {
  }

  /** There is room, and so little of it that every store asks for a collection. */
  lemma Room(s: Kv, c: Config, fill: seq<Item>, a: nat, state: BlockState, items: seq<Item>, key: Bytes, val: Bytes, origin: nat)
    requires Is(s, c, fill, a, state, items) && |items| <= 1 && |key| == 1 == |val|
    ensures var x := NewItem(c, key, val, origin);
      |s.info| == BLOCK_NUMS && a < BLOCK_NUMS && s.info[a].space > c.Size(x) && s.info[a].space - c.Size(x) < ITEM_MAX_LEN
    ensures Fits(s, key, val)
    ensures c.Pos(a, fill + items, |fill|) == c.Base(a) + BLOCK_HDR_SIZE + c.Off(fill, |fill|) < BLOCK_NUMS * c.blockSize
  {
    hide Books, UniqueLive, AllLive, Small, NewItem;
    SpaceIs(s, c, fill, a, state, items);
    SmallSize(c, key, val, origin);
    SmallSize(c, key, val, 0);
    OffMore(c, fill, items, 0);
    PosInFlash(s, |fill|);
  }

  /** Where a key is found. */
  lemma FoundAt(s: Kv, c: Config, fill: seq<Item>, a: nat, state: BlockState, items: seq<Item>, i: nat)
    requires Is(s, c, fill, a, state, items) && i < |items| && items[i].live
    ensures Search(s, items[i].key) == Some(Ref(a, |fill| + i))
    ensures items[i].key in Map(s) && Map(s)[items[i].key] == items[i].val
  {
    var key := items[i].key;
    assert Items(s)[|fill| + i] == items[i];
    LiveBinds(Items(s), |fill| + i);
    SearchFinds(s, key);
    UniqueAlone(Items(s), |fill| + i);
    var r := Search(s, key).value;
    assert Items(s)[r.index].live && Items(s)[r.index].key == key;
  }

  lemma NotFoundIn(s: Kv, c: Config, fill: seq<Item>, a: nat, state: BlockState, items: seq<Item>, key: Bytes)
    requires Is(s, c, fill, a, state, items) && (key == K || key == J)
    requires forall j :: 0 <= j < |items| ==> items[j].key != key
    ensures Search(s, key).None? && key !in Map(s)
  {
    SearchFinds(s, key);
    forall j | 0 <= j < |Items(s)| ensures Items(s)[j].key != key {
      assert Items(s)[j] == if j < |fill| then fill[j] else items[j - |fill|];
    }
    NoSuchKey(s, key);
  }

  lemma NoSuchKey(s: Kv, key: Bytes)
    requires Inv(s) && forall j :: 0 <= j < |Items(s)| ==> Items(s)[j].key != key
    ensures Search(s, key).None?
  {
    assert s.flash[1 - Active(s)].items == [];
  }

  // ---------------------------------------------------------------------------------------------
  // The steps of the run

  lemma SetFreshIs(s: Kv, c: Config, fill: seq<Item>, a: nat, items: seq<Item>, key: Bytes, val: Bytes)
    requires Is(s, c, fill, a, Used, items) && |items| <= 1 && |val| == 1 && (key == K || key == J)
    requires forall j :: 0 <= j < |items| ==> items[j].key != key
    ensures var t := Next(s, Set(key, val));
      Is(t, c, fill, a, Used, items + [Version(c, true, key, val, 0)]) && t.gcTrigger
  {
    hide Crowded, Books, UniqueLive, Contents, Search;
    NotFoundIn(s, c, fill, a, Used, items, key);
    Room(s, c, fill, a, Used, items, key, val, 0);
    SetUpdatesMap(s, key, val);
    StoredIs(s, c, fill, a, items, NewItem(c, key, val, 0));
    assert SetItem(s, key, val) == Store(s, key, val, 0);
    assert fill + (items + [Version(c, true, key, val, 0)]) == fill + items + [NewItem(c, key, val, 0)];
  }

  lemma StoredIs(s: Kv, c: Config, fill: seq<Item>, a: nat, items: seq<Item>, x: Item)
    requires Is(s, c, fill, a, Used, items) && x == NewItem(c, x.key, x.val, x.origin)
    requires s.info[a].space > c.Size(x) && s.info[a].space - c.Size(x) < ITEM_MAX_LEN
    ensures var t := Store(s, x.key, x.val, x.origin).0;
      && Active(t) == a && t.flash[a] == Block(Used, fill + items + [x]) && t.gcTrigger && t.cfg == c
      && Store(s, x.key, x.val, x.origin).1 == Ok && t.info[a].state == Used && t.info[a].space == s.info[a].space - c.Size(x) && t.cleanNums == s.cleanNums
  {
    StoreStaysInBlock(s, c.Size(x));
  }

  lemma ReplaceIs(s: Kv, c: Config, fill: seq<Item>, a: nat, item: Item, val: Bytes)
    requires c.align > 0 && Is(s, c, fill, a, Used, [item]) && item.live && |val| == 1 && val != item.val
    ensures var t := Next(s, Set(item.key, val));
      && Is(t, c, fill, a, Dirty, [item.(live := false), Version(c, true, item.key, val, Spot(c, fill, a))])
      && t.gcTrigger
  {
    hide Crowded, Books, UniqueLive, Contents, Search, SetItem;
    var x := NewItem(c, item.key, val, Spot(c, fill, a));
    assert [item][0] == item;
    Room(s, c, fill, a, Used, [item], item.key, val, x.origin);
    FoundAt(s, c, fill, a, Used, [item], 0);
    SetUpdatesMap(s, item.key, val);
    ReplaceShape(s, c, fill, a, item, x);
    assert OneByteEach([item.(live := false), x]);
  }

  /** The position right behind `fill`. */
  function Spot(c: Config, fill: seq<Item>, a: nat): nat
    requires c.align > 0
  {
    c.Base(a) + BLOCK_HDR_SIZE + c.Off(fill, |fill|)
  }

  lemma ReplaceShape(s: Kv, c: Config, fill: seq<Item>, a: nat, item: Item, x: Item)
    requires Is(s, c, fill, a, Used, [item]) && item.live && |x.val| == 1 && x.val != item.val && x.key == item.key
    requires x == NewItem(c, x.key, x.val, Spot(c, fill, a)) && Spot(c, fill, a) == c.Pos(a, fill + [item], |fill|)
    requires s.info[a].space > c.Size(x) && s.info[a].space - c.Size(x) < ITEM_MAX_LEN
    requires Search(s, item.key) == Some(Ref(a, |fill|))
    ensures var t := SetItem(s, item.key, x.val).0;
      Active(t) == a && t.flash[a] == Block(Dirty, fill + [item.(live := false), x]) && t.gcTrigger && t.cfg == c
  {
    hide Crowded, UniqueLive, Contents, Search, Store;
    StoredIs(s, c, fill, a, [item], x);
    var stored := Store(s, x.key, x.val, x.origin).0;
    assert Cleared(fill + [item] + [x], |fill|) == fill + [item.(live := false), x];
    assert (fill + [item])[|fill|] == item == (fill + [item] + [x])[|fill|];
  }

  lemma DeleteLastIs(s: Kv, c: Config, fill: seq<Item>, a: nat, first: Item, last: Item)
    requires Is(s, c, fill, a, Used, [first, last]) && first.live && last.live && first.key != last.key
    ensures var t := Next(s, Delete(last.key));
      Is(t, c, fill, a, Dirty, [first, last.(live := false)]) && t.gcTrigger == s.gcTrigger
  {
    hide Crowded, UniqueLive, Contents, Search;
    FoundAt(s, c, fill, a, Used, [first, last], 1);
    RetireRemoves(s, |fill| + 1);
    RetireBooks(s, |fill| + 1);
    assert (fill + [first, last])[|fill| + 1] == last;
    assert Cleared(fill + [first, last], |fill| + 1) == fill + [first, last.(live := false)];
    assert [first, last][0] == first && [first, last][1] == last;
    assert OneByteEach([first, last.(live := false)]);
  }

  lemma {:induction false} LiveOnlyAll(fill: seq<Item>, items: seq<Item>)
    requires AllLive(fill)
    ensures LiveOnly(fill + items) == fill + LiveOnly(items)
    decreases |fill| + |items|
  {
    if items != [] {
      var n := |items| - 1;
      LiveOnlyAll(fill, items[..n]);
      assert (fill + items)[..|fill| + n] == fill + items[..n];
    } else if fill != [] {
      var n := |fill| - 1;
      LiveOnlyAll(fill[..n], []);
      assert fill[..n] + [] == fill[..n] && fill + [] == fill && LiveOnly([]) == [];
      assert fill == fill[..n] + [fill[n]];
    }
  }

  lemma GcIs(s: Kv, c: Config, fill: seq<Item>, a: nat, items: seq<Item>, kept: Item)
    requires Is(s, c, fill, a, Dirty, items) && LiveOnly(items) == [kept] && OneByteEach([kept])
    ensures Is(Next(s, Gc), c, fill, 1 - a, Used, [kept]) && !Next(s, Gc).gcTrigger
  {
    hide UniqueLive, Contents, Collect, LiveOnly;
    CollectKeepsMap(s);
    CollectConfig(s);
    LiveOnlyAll(fill, items);
  }

  lemma CollectConfig(s: Kv)
    requires Inv(s)
    ensures Collect(s).cfg == s.cfg
  {
  }

  /** With nothing dirty a collection only takes back the request. */
  lemma GcIdle(s: Kv)
    requires Inv(s) && s.flash[Active(s)].state == Used
    ensures Next(s, Gc) == s.(gcTrigger := false) && Inv(Next(s, Gc)) && Active(Next(s, Gc)) == Active(s)
  {
    hide Collect;
    CollectKeepsMap(s);
  }

  lemma LiveOnlyPair(x: Item, y: Item)
    ensures LiveOnly([x, y]) == (if x.live then [x] else []) + (if y.live then [y] else [])
  {
    assert [x, y][..1] == [x] && [x][..0] == [];
    assert LiveOnly([x]) == if x.live then [x] else [];
  }

  // ---------------------------------------------------------------------------------------------
  // The run

  /** The store is crowded with live records, and nothing has asked for a collection. */
  ghost predicate Tight(s: Kv) {
    && Inv(s) && s.flash[Active(s)].state == Used && !s.gcTrigger && Crowded(s.cfg, Items(s))
  }

  function Moves(): seq<Op> {
    [Set(K, V1), Gc, Set(K, V2), Gc, Set(J, V1), Delete(J), Gc, Set(J, V1), Delete(J)]
  }

  /** `K` is set twice, which leaves its second version with the position of the first one as origin. Two
      collections, for which `J` is set and deleted, bring it to the other block and back, to that very position. The
      third is pending, and a power cut after it has copied the record loses `K`. */
  lemma CollectionCutLosesKey(s0: Kv) returns (s: Kv)
    requires Tight(s0)
    ensures s == Last(Next, s0, Moves()) && PatientRun(s0, Moves())
    ensures Inv(s) && s.gcTrigger && K in Map(s) && Map(s)[K] == V2
    ensures var t := Next(s, CutGc(|Items(s0)| + 1)); Inv(t) && K !in Map(t)
  {
    hide Next, Inv, Is, Tight, Crowded;
    var r := States(Next, s0, Moves());
    StatesChain(Next, s0, Moves());
    Start(s0);
    s := r[9];
    Journey(s0.cfg, Items(s0), Active(s0), r);
    LoseMoved(s, s0.cfg, Items(s0), Active(s0), Version(s0.cfg, false, J, V1, 0));
  }

  lemma Journey(c: Config, fill: seq<Item>, a: nat, r: seq<Kv>)
    requires c.align > 0 && a < BLOCK_NUMS && |r| == 10 && Is(r[0], c, fill, a, Used, []) && !r[0].gcTrigger
    requires forall i :: 0 <= i < 9 ==> r[i + 1] == Next(r[i], Moves()[i])
    ensures Is(r[9], c, fill, a, Dirty, [Moved(c, fill, a), Version(c, false, J, V1, 0)]) && r[9].gcTrigger
    ensures forall i :: 0 <= i < 9 ==> Patient(r[i], Moves()[i])
  {
    hide Next, Is, Moved, Version;
    assert r[0 + 1] == Next(r[0], Set(K, V1)) && r[1 + 1] == Next(r[1], Gc) && r[2 + 1] == Next(r[2], Set(K, V2));
    assert r[3 + 1] == Next(r[3], Gc);
    FirstCollection(c, fill, a, r[0], r[1], r[2], r[3], r[4]);
    assert r[4 + 1] == Next(r[4], Set(J, V1)) && r[5 + 1] == Next(r[5], Delete(J)) && r[6 + 1] == Next(r[6], Gc);
    Churn(r[4], r[5], r[6], c, fill, a, 1 - a);
    SecondCollection(c, fill, a, r[6], r[7]);
    assert r[7 + 1] == Next(r[7], Set(J, V1)) && r[8 + 1] == Next(r[8], Delete(J));
    Churn(r[7], r[8], r[9], c, fill, a, a);
  }

  lemma Start(s: Kv)
    requires Tight(s)
    ensures |s.flash| == BLOCK_NUMS && Active(s) < BLOCK_NUMS && s.cfg.align > 0 && !s.gcTrigger
    ensures Is(s, s.cfg, Items(s), Active(s), Used, [])
  {
    assert Items(s) + [] == Items(s);
  }

  /** The second version of `K`, whose first version was behind `fill` in block `a`. */
  function Moved(c: Config, fill: seq<Item>, a: nat): Item
    requires c.align > 0
  {
    Version(c, true, K, V2, Spot(c, fill, a))
  }

  lemma FirstCollection(c: Config, fill: seq<Item>, a: nat, r0: Kv, r1: Kv, r2: Kv, r3: Kv, r4: Kv)
    requires c.align > 0 && a < BLOCK_NUMS && Is(r0, c, fill, a, Used, []) && !r0.gcTrigger
    requires r1 == Next(r0, Set(K, V1)) && r2 == Next(r1, Gc) && r3 == Next(r2, Set(K, V2)) && r4 == Next(r3, Gc)
    ensures r1.gcTrigger && !r2.gcTrigger && r3.gcTrigger && !r4.gcTrigger
    ensures Is(r4, c, fill, 1 - a, Used, [Moved(c, fill, a)])
  {
    hide Step, Next, Books, UniqueLive, Crowded;
    var first := Version(c, true, K, V1, 0);
    assert [] + [first] == [first];
    SetFreshIs(r0, c, fill, a, [], K, V1);
    GcIdle(r1);
    assert Is(r2, c, fill, a, Used, [first]);
    ReplaceIs(r2, c, fill, a, first, V2);
    LiveOnlyPair(first.(live := false), Moved(c, fill, a));
    GcIs(r3, c, fill, a, [first.(live := false), Moved(c, fill, a)], Moved(c, fill, a));
  }

  lemma SecondCollection(c: Config, fill: seq<Item>, a: nat, s: Kv, t: Kv)
    requires c.align > 0 && a < BLOCK_NUMS && t == Next(s, Gc)
    requires Is(s, c, fill, 1 - a, Dirty, [Moved(c, fill, a), Version(c, false, J, V1, 0)])
    ensures Is(t, c, fill, a, Used, [Moved(c, fill, a)]) && !t.gcTrigger
  {
    hide Next, Is, Crowded;
    var items := [Moved(c, fill, a), Version(c, false, J, V1, 0)];
    LiveOnlyPair(items[0], items[1]);
    GcIs(s, c, fill, 1 - a, items, Moved(c, fill, a));
  }

  lemma Churn(s: Kv, t: Kv, u: Kv, c: Config, fill: seq<Item>, a: nat, b: nat)
    requires c.align > 0 && Is(s, c, fill, b, Used, [Moved(c, fill, a)])
    requires t == Next(s, Set(J, V1)) && u == Next(t, Delete(J))
    ensures Is(u, c, fill, b, Dirty, [Moved(c, fill, a), Version(c, false, J, V1, 0)]) && u.gcTrigger
  {
    hide Next, Is, Crowded;
    var item, other := Moved(c, fill, a), Version(c, true, J, V1, 0);
    SetFreshIs(s, c, fill, b, [item], J, V1);
    assert [item] + [other] == [item, other];
    DeleteLastIs(t, c, fill, b, item, other);
  }

  lemma LoseMoved(s: Kv, c: Config, fill: seq<Item>, a: nat, gone: Item)
    requires c.align > 0 && Is(s, c, fill, a, Dirty, [Moved(c, fill, a), gone])
    ensures Inv(s) && K in Map(s) && Map(s)[K] == V2
    ensures var t := Next(s, CutGc(|fill| + 1)); Inv(t) && K !in Map(t)
  {
    hide Next, Crowded, Books, UniqueLive, Contents, LostKeys;
    var n, items := |fill|, [Moved(c, fill, a), gone];
    FoundAt(s, c, fill, a, Dirty, items, 0);
    OffMore(c, fill, items, 0);
    assert Items(s)[n] == Moved(c, fill, a);
    LosesOne(s, n);
  }

  /** A cut behind a live record whose origin is its own position loses its key. */
  lemma LosesOne(s: Kv, n: nat)
    requires Inv(s) && s.flash[Active(s)].state == Dirty && n < |Items(s)| && Items(s)[n].live
    requires Items(s)[n].origin == s.cfg.Pos(Active(s), Items(s), n)
    ensures var t := Next(s, CutGc(n + 1)); Inv(t) && Items(s)[n].key !in Map(t)
  {
    hide Recover, Books, UniqueLive, Contents, CutFlash, Survivors, LiveOnly, AllSane;
    CutLoses(s, n + 1);
    assert Lost(CutOf(s, n + 1), n);
    assert Items(s)[n].key in LostKeys(CutOf(s, n + 1));
  }

  // ---------------------------------------------------------------------------------------------
  // From a blank flash

  ghost function FirstStore(c: Config): Kv
    requires c.Valid()
  {
    Recover(c, [Block(Blank, []), Block(Blank, [])])
  }

  lemma FirstIs(c: Config)
    requires c.Valid()
    ensures var s := FirstStore(c);
      && Inv(s) && s.cfg == c && Active(s) == 0 && s.flash[0] == Block(Used, [])
      && (s.gcTrigger <==> c.blockSize - BLOCK_HDR_SIZE < ITEM_MAX_LEN)
  {
    FirstStart(c);
    var s := FirstStore(c);
    assert s.flash == [Block(Used, []), Block(Clean, [])];
    assert s.info == [Info(Used, c.blockSize - BLOCK_HDR_SIZE), Info(Clean, c.blockSize - BLOCK_HDR_SIZE)];
  }

  /** Keys of one, two, three bytes and so on, each with a value of the greatest length. */
  function FillerKey(i: nat): (r: Bytes)
    ensures |r| == i + 1 && r[0] == 1
  {
    seq(i + 1, _ => 1)
  }

  function FillerVal(): (r: Bytes)
    ensures |r| == MAX_VAL_LEN
  {
    seq(MAX_VAL_LEN, _ => 0)
  }

  function Filler(c: Config, i: nat): Item {
    NewItem(c, FillerKey(i), FillerVal(), 0)
  }

  function Fillers(c: Config, n: nat): (r: seq<Item>)
    ensures |r| == n && forall i :: 0 <= i < n ==> r[i] == Filler(c, i)
  {
    if n == 0 then [] else Fillers(c, n - 1) + [Filler(c, n - 1)]
  }

  const FILL: nat := 7

  lemma {:induction false} FillersOff(c: Config, n: nat)
    requires c.align == 4 && n <= FILL
    ensures 521 * n <= c.Off(Fillers(c, n), n) <= 530 * n
  {
    if n > 0 {
      FillersOff(c, n - 1);
      OffAgree(c, Fillers(c, n - 1), Fillers(c, n), n - 1);
      assert Fillers(c, n)[n - 1] == Filler(c, n - 1);
    }
  }

  ghost predicate Default(c: Config) {
    c.Valid() && c.blockSize == 4096 && c.align == 4
  }

  ghost predicate Filled(s: Kv, c: Config, n: nat) {
    && Default(c) && n <= FILL && Inv(s) && s.cfg == c && Active(s) == 0 && s.flash[0] == Block(Used, Fillers(c, n))
    && (s.gcTrigger <==> n == FILL)
  }

  /** The room the first `n` fillers leave. */
  lemma FillRoom(s: Kv, c: Config, n: nat)
    requires Filled(s, c, n) && n < FILL
    ensures var x := Filler(c, n);
      && |s.info| == BLOCK_NUMS && s.info[0].space > c.Size(x)
      && (s.info[0].space - c.Size(x) < ITEM_MAX_LEN <==> n + 1 == FILL) && s.cleanNums == RESERVED_BLOCKS
  {
    hide UniqueLive, AllLive, AllSane, Filler, FillerVal;
    FillersOff(c, n);
    FillersOff(c, n + 1);
    OffAgree(c, Fillers(c, n), Fillers(c, n + 1), n);
    assert Fillers(c, n + 1) == Fillers(c, n) + [Filler(c, n)];
  }

  lemma FillerNew(s: Kv, c: Config, n: nat)
    requires Filled(s, c, n) && n < FILL
    ensures Search(s, FillerKey(n)).None?
  {
    hide Books, UniqueLive, Search;
    forall j | 0 <= j < |Items(s)| ensures Items(s)[j].key != FillerKey(n) {
      assert Items(s)[j] == Filler(c, j);
    }
    NoSuchKey(s, FillerKey(n));
  }

  /** Only the last of the seven sets finds so little room left that it asks for a collection. */
  lemma FillStep(s: Kv, c: Config, n: nat)
    requires Filled(s, c, n) && n < FILL
    ensures Filled(Next(s, Set(FillerKey(n), FillerVal())), c, n + 1)
  {
    hide UniqueLive, Contents, AllLive, Search, Books, SetMeets, FillerVal;
    var x := Filler(c, n);
    FillRoom(s, c, n);
    FillerNew(s, c, n);
    SetUpdatesMap(s, x.key, x.val);
    FillStored(s, c, n);
  }

  lemma FillStored(s: Kv, c: Config, n: nat)
    requires Filled(s, c, n) && n < FILL && |s.info| == BLOCK_NUMS && Search(s, FillerKey(n)).None?
    requires var x := Filler(c, n);
      && s.info[0].space > c.Size(x) && s.cleanNums == RESERVED_BLOCKS
      && (s.info[0].space - c.Size(x) < ITEM_MAX_LEN <==> n + 1 == FILL)
    ensures var t := SetItem(s, FillerKey(n), FillerVal()).0;
      && Inv(t) && t.cfg == c && Active(t) == 0 && t.flash[0] == Block(Used, Fillers(c, n + 1))
      && (t.gcTrigger <==> n + 1 == FILL)
  {
    hide Contents, Search, FillerVal, AllLive, AllSane;
    var x := Filler(c, n);
    StoreStaysInBlock(s, c.Size(x));
    assert Fillers(c, n + 1) == Fillers(c, n) + [x];
    SetUpdatesMap(s, x.key, x.val);
  }

  function FillOps(n: nat): (r: seq<Op>)
    ensures |r| == n
  {
    if n == 0 then [] else FillOps(n - 1) + [Set(FillerKey(n - 1), FillerVal())]
  }

  lemma PatientJoin(s: Kv, a: seq<Op>, b: seq<Op>)
    requires PatientRun(s, a) && PatientRun(Last(Next, s, a), b)
    ensures PatientRun(s, a + b)
  {
    hide Next, Patient;
    StatesJoin(Next, s, a, b);
    forall i | 0 <= i < |a + b| ensures Patient(States(Next, s, a + b)[i], (a + b)[i]) {
      if i >= |a| {
        assert (a + b)[i] == b[i - |a|] && States(Next, s, a + b)[i] == States(Next, Last(Next, s, a), b)[i - |a|];
      }
    }
  }

  lemma PatientOne(s: Kv, op: Op)
    requires Patient(s, op)
    ensures PatientRun(s, [op]) && Last(Next, s, [op]) == Next(s, op)
  {
    hide Next, Patient;
    LastStep(Next, s, [], op);
    assert [] + [op] == [op];
  }

  lemma {:induction false} FillRun(c: Config, n: nat)
    requires Default(c) && n <= FILL
    ensures PatientRun(FirstStore(c), FillOps(n)) && Filled(Last(Next, FirstStore(c), FillOps(n)), c, n)
    decreases n
  {
    hide Next, PatientRun, Inv;
    FirstIs(c);
    if n == 0 {
      PatientNone(FirstStore(c));
      DefaultSize(c);
    } else {
      FillRun(c, n - 1);
      var op := Set(FillerKey(n - 1), FillerVal());
      var t := Last(Next, FirstStore(c), FillOps(n - 1));
      PatientOne(t, op);
      PatientJoin(FirstStore(c), FillOps(n - 1), [op]);
      LastStep(Next, FirstStore(c), FillOps(n - 1), op);
      FillStep(t, c, n - 1);
    }
  }

  lemma PatientNone(s: Kv)
    ensures PatientRun(s, []) && Last(Next, s, []) == s
  {
  }

  lemma DefaultSize(c: Config)
    requires Default(c)
    ensures c.blockSize - BLOCK_HDR_SIZE >= ITEM_MAX_LEN
  {
  }

  lemma FilledTight(s: Kv, c: Config)
    requires Filled(s, c, FILL)
    ensures Patient(s, Gc) && Tight(Next(s, Gc))
  {
    hide Books, UniqueLive, Next;
    GcIdle(s);
    FillersOff(c, FILL);
    AllFillersLive(s, c);
  }

  lemma AllFillersLive(s: Kv, c: Config)
    requires Filled(s, c, FILL)
    ensures AllLive(Fillers(c, FILL)) && forall j :: 0 <= j < FILL ==> Fillers(c, FILL)[j].key != K && Fillers(c, FILL)[j].key != J
  {
  }

  /** With the block size the program ships with, and with one so small that every record is nearly too much: a
      patient run from a blank flash reaches a state whose pending collection, cut short, loses a bound key. */
  lemma LostFromBlank(c: Config) returns (ops: seq<Op>, s: Kv, n: nat)
    requires c.Valid() && c.align == 4 && (c.blockSize == 4096 || c.blockSize == 512)
    ensures s == Last(Next, FirstStore(c), ops) && PatientRun(FirstStore(c), ops)
    ensures Inv(s) && s.gcTrigger && K in Map(s) && Inv(Next(s, CutGc(n))) && K !in Map(Next(s, CutGc(n)))
  {
    hide Next, PatientRun, Inv, Tight, FirstStore;
    var fill, t := TightFromBlank(c);
    s := CollectionCutLosesKey(t);
    PatientJoin(FirstStore(c), fill, Moves());
    LastJoin(Next, FirstStore(c), fill, Moves());
    ops, n := fill + Moves(), |Items(t)| + 1;
  }

  lemma TightFromBlank(c: Config) returns (ops: seq<Op>, t: Kv)
    requires c.Valid() && c.align == 4 && (c.blockSize == 4096 || c.blockSize == 512)
    ensures t == Last(Next, FirstStore(c), ops) && PatientRun(FirstStore(c), ops) && Tight(t) && |t.flash| == BLOCK_NUMS
  {
    hide Next, PatientRun, FirstStore, Patient, Books, UniqueLive, Crowded;
    var fill := if c.blockSize == 4096 then FillOps(FILL) else [];
    var s := Last(Next, FirstStore(c), fill);
    if c.blockSize == 4096 {
      FillRun(c, FILL);
      FilledTight(s, c);
    } else {
      PatientNone(FirstStore(c));
      SmallTight(c);
    }
    PatientOne(s, Gc);
    PatientJoin(FirstStore(c), fill, [Gc]);
    LastJoin(Next, FirstStore(c), fill, [Gc]);
    ops, t := fill + [Gc], Next(s, Gc);
  }

  lemma SmallTight(c: Config)
    requires c.Valid() && c.align == 4 && c.blockSize == 512
    ensures Patient(FirstStore(c), Gc) && Tight(Next(FirstStore(c), Gc))
  {
    hide Books, UniqueLive, Next, Recover;
    FirstIs(c);
    GcIdle(FirstStore(c));
  }
}
