/** The reference allocator: values kept alive in an array whose unused slots form a list (engine/duktape_engine/be_refs.c). */
module BeRefs {
  /** What an array slot holds: a number or any other value of the engine. */
  datatype JsValue = Undefined | Number(n: int) | Other(id: nat)

  /** `free` is the list of unused slots: its head is in slot 0, each slot holds the next one, and the last holds 0. */
  ghost predicate FreeList(refs: seq<JsValue>, free: seq<nat>) {
    && |refs| >= 1 && refs[0] == Link(free, 0)
    && (forall i :: 0 <= i < |free| ==> 0 < free[i] < |refs| && refs[free[i]] == Link(free, i + 1))
    && Distinct(free)
  }

  ghost predicate Distinct(free: seq<nat>) {
    forall i, j :: 0 <= i < j < |free| ==> free[i] != free[j]
  }

  function Link(free: seq<nat>, i: nat): JsValue {
    Number(if i < |free| then free[i] else 0)
  }

  /** The array determines the list. */
  lemma {:induction false} FreeListUnique(refs: seq<JsValue>, a: seq<nat>, b: seq<nat>, i: nat)
    requires FreeList(refs, a) && FreeList(refs, b) && i < |a|
    ensures i < |b| && b[i] == a[i]
  {
    hide Distinct;
    if i == 0 {
      assert Link(a, 0) == Link(b, 0);
    } else {
      FreeListUnique(refs, a, b, i - 1);
      assert refs[a[i - 1]] == Link(a, i) && refs[b[i - 1]] == Link(b, i);
    }
  }

  /** The slots in use. */
  function LiveSlots(refs: seq<JsValue>, free: seq<nat>): map<nat, JsValue> {
    map i: nat | 0 < i < |refs| && i !in free :: refs[i]
  }

  // ---------------------------------------------------------------------------------------------
  // The operations on the array

  /** The slot `be_ref` takes: the head of the list, or the end of the array. */
  function Slot(refs: seq<JsValue>): int
    requires |refs| >= 1 && refs[0].Number?
  {
    if refs[0].n != 0 then refs[0].n else |refs|
  }

  function Taken(refs: seq<JsValue>, v: JsValue): seq<JsValue>
    requires |refs| >= 1 && refs[0].Number? && 0 <= refs[0].n < |refs|
  {
    if refs[0].n != 0 then refs[0 := refs[refs[0].n]][refs[0].n := v] else refs + [v]
  }

  function Released(refs: seq<JsValue>, r: nat): seq<JsValue>
    requires 0 < r < |refs|
  {
    refs[r := refs[0]][0 := Number(r)]
  }

  function Rest(free: seq<nat>): seq<nat> {
    if free == [] then [] else free[1..]
  }

  /** A taken slot is not a live one; it becomes live with the value, the other live values stay, and the array grows
      only when no slot is free. */
  lemma TakeKeeps(refs: seq<JsValue>, free: seq<nat>, v: JsValue)
    requires FreeList(refs, free)
    ensures var r := Slot(refs);
      && 0 < r <= |refs| && 0 <= refs[0].n < |refs| && r !in LiveSlots(refs, free)
      && FreeList(Taken(refs, v), Rest(free))
      && LiveSlots(Taken(refs, v), Rest(free)) == LiveSlots(refs, free)[r := v]
      && |Taken(refs, v)| == if free == [] then |refs| + 1 else |refs|
  {
    if free == [] {
      assert LiveSlots(refs + [v], []) == LiveSlots(refs, [])[|refs| := v];
    } else {
      assert refs[free[0]] == Link(free, 1);
      TakeFirst(refs, free, v);
      FirstLive(refs, free, v);
    }
  }

  lemma TakeFirst(refs: seq<JsValue>, free: seq<nat>, v: JsValue)
    requires FreeList(refs, free) && free != []
    ensures FreeList(refs[0 := Link(free, 1)][free[0] := v], free[1..])
  {
    var after, rest := refs[0 := Link(free, 1)][free[0] := v], free[1..];
    forall i | 0 <= i < |rest| ensures 0 < rest[i] < |after| && after[rest[i]] == Link(rest, i + 1) {
      assert rest[i] == free[i + 1] && free[0] != free[i + 1];
    }
  }

  lemma FirstLive(refs: seq<JsValue>, free: seq<nat>, v: JsValue)
    requires FreeList(refs, free) && free != []
    ensures LiveSlots(refs[0 := Link(free, 1)][free[0] := v], free[1..]) == LiveSlots(refs, free)[free[0] := v]
  {
    hide Link;
    assert free == [free[0]] + free[1..];
    assert free[0] !in free[1..];
    var got, want := LiveSlots(refs[0 := Link(free, 1)][free[0] := v], free[1..]), LiveSlots(refs, free)[free[0] := v];
    assert got.Keys == want.Keys;
    assert forall i :: i in got ==> got[i] == want[i];
  }

  /** Releasing a live slot takes exactly it away. */
  lemma ReleaseKeeps(refs: seq<JsValue>, free: seq<nat>, r: nat)
    requires FreeList(refs, free) && r in LiveSlots(refs, free)
    ensures FreeList(Released(refs, r), [r] + free)
    ensures LiveSlots(Released(refs, r), [r] + free) == LiveSlots(refs, free) - {r}
  {
    ReleaseLinks(refs, free, r);
    ReleaseLive(refs, free, r);
  }

  lemma ReleaseLinks(refs: seq<JsValue>, free: seq<nat>, r: nat)
    requires FreeList(refs, free) && 0 < r < |refs| && r !in free
    ensures FreeList(Released(refs, r), [r] + free)
  {
    hide Distinct, Link;
    var after, list := Released(refs, r), [r] + free;
    LinkShift(r, free, 0);
    forall i | 1 <= i < |list| ensures 0 < list[i] < |after| && after[list[i]] == Link(list, i + 1) {
      LinkShift(r, free, i);
      assert list[i] == free[i - 1] && free[i - 1] in free && refs[free[i - 1]] == Link(free, i);
    }
    DistinctCons(r, free);
  }

  lemma LinkShift(r: nat, free: seq<nat>, i: nat)
    ensures Link([r] + free, i + 1) == Link(free, i) && Link([r] + free, 0) == Number(r)
  {
  }

  lemma DistinctCons(r: nat, free: seq<nat>)
    requires r !in free && Distinct(free)
    ensures Distinct([r] + free)
  {
    var list := [r] + free;
    forall i, j | 0 <= i < j < |list| ensures list[i] != list[j] {
      assert list[j] == free[j - 1] && free[j - 1] in free;
    }
  }

  lemma ReleaseLive(refs: seq<JsValue>, free: seq<nat>, r: nat)
    requires 0 < r < |refs| && r !in free
    ensures LiveSlots(Released(refs, r), [r] + free) == LiveSlots(refs, free) - {r}
  {
    var got, want := LiveSlots(Released(refs, r), [r] + free), LiveSlots(refs, free) - {r};
    assert got.Keys == want.Keys;
  }

  /** Releasing a slot leaves a list of free slots if and only if the slot was not free already. */
  lemma ReleaseIff(refs: seq<JsValue>, free: seq<nat>, r: nat)
    requires FreeList(refs, free) && 0 < r < |refs|
    ensures (exists list :: FreeList(Released(refs, r), list)) <==> r !in free
  {
    if r !in free {
      assert r in LiveSlots(refs, free);
      ReleaseKeeps(refs, free, r);
    } else {
      var j :| 0 <= j < |free| && free[j] == r;
      forall list ensures !FreeList(Released(refs, r), list) {
        if FreeList(Released(refs, r), list) {
          ReleasedTwice(refs, free, r, j, list, j);
          assert false;
        }
      }
    }
  }

  /** After a second release the list leads from the slot back to it. */
  lemma {:induction false} ReleasedTwice(refs: seq<JsValue>, free: seq<nat>, r: nat, j: nat, list: seq<nat>, k: nat)
    requires FreeList(refs, free) && 0 < r < |refs| && j < |free| && free[j] == r && k <= j
    requires FreeList(Released(refs, r), list)
    ensures |list| > k + 1 && list[0] == r && list[k + 1] == free[k]
  {
    hide FreeList, Distinct, Released, Link;
    var after := Released(refs, r);
    FreeAt(refs, free, k);
    if k == 0 {
      ListHead(after, list);
      ReleasedAt(refs, r, r);
      LinkIs(list, 0, r);
      FreeAt(after, list, 0);
      ListHead(refs, free);
      SameLink(free, 0, list, 1);
    } else {
      ReleasedTwice(refs, free, r, j, list, k - 1);
      FreeAt(refs, free, k - 1);
      FreeOnce(refs, free, k - 1, j);
      ReleasedAt(refs, r, free[k - 1]);
      FreeAt(after, list, k);
      SameLink(free, k, list, k + 1);
    }
  }

  lemma ListHead(refs: seq<JsValue>, free: seq<nat>)
    requires FreeList(refs, free)
    ensures |refs| >= 1 && refs[0] == Link(free, 0)
  {
  }

  lemma FreeAt(refs: seq<JsValue>, free: seq<nat>, i: nat)
    requires FreeList(refs, free) && i < |free|
    ensures 0 < free[i] < |refs| && refs[free[i]] == Link(free, i + 1)
  {
  }

  lemma FreeOnce(refs: seq<JsValue>, free: seq<nat>, i: nat, j: nat)
    requires FreeList(refs, free) && i < j < |free|
    ensures free[i] != free[j]
  {
  }

  lemma ReleasedAt(refs: seq<JsValue>, r: nat, i: nat)
    requires 0 < r < |refs| && 0 < i < |refs|
    ensures var after := Released(refs, r);
      |after| == |refs| && after[0] == Number(r) && after[i] == if i == r then refs[0] else refs[i]
  {
  }

  lemma LinkIs(list: seq<nat>, i: nat, x: nat)
    requires Link(list, i) == Number(x) && x > 0
    ensures i < |list| && list[i] == x
  {
  }

  lemma SameLink(free: seq<nat>, i: nat, list: seq<nat>, j: nat)
    requires Link(list, j) == Link(free, i) && i < |free| && free[i] > 0
    ensures j < |list| && list[j] == free[i]
  {
  }

  // ---------------------------------------------------------------------------------------------

  class Refs {
    var refs: seq<JsValue>
    ghost var free: seq<nat>

    ghost predicate Valid()
      reads this
    {
      FreeList(refs, free)
    }

    ghost function Live(): map<nat, JsValue>
      reads this
    {
      LiveSlots(refs, free)
    }

    /** `be_ref_setup`. */
    constructor ()
      ensures Valid() && Live() == map[] && free == []
    {
      refs := [Number(0)];
      free := [];
    }

    /** `be_ref`. */
    method Ref(v: JsValue) returns (r: nat)
      requires Valid()
      modifies this
      ensures Valid()
      ensures v == Undefined ==> r == 0 && refs == old(refs) && free == old(free)
      ensures v != Undefined ==> r != 0 && r !in old(Live()) && Live() == old(Live())[r := v] && free == Rest(old(free))
      ensures |refs| > old(|refs|) <==> v != Undefined && old(free) == []
    {
      if v == Undefined {
        return 0;
      }
      TakeKeeps(refs, free, v);
      ghost var after := Taken(refs, v);
      var n := refs[0].n;
      if n != 0 {
        refs := refs[0 := refs[n]];
        refs := refs[n := v];
        r := n;
      } else {
        r := |refs|;
        refs := refs + [v];
      }
      assert refs == after;
      free := Rest(free);
    }

    /** `be_push_ref`. */
    method PushRef(r: nat) returns (v: JsValue)
      requires Valid() && (r == 0 || r in Live())
      ensures v == if r == 0 then Undefined else Live()[r]
    {
      if r == 0 {
        return Undefined;
      }
      v := refs[r];
    }

    /** `be_unref`. */
    method Unref(r: nat)
      requires Valid() && (r == 0 || r in Live())
      modifies this
      ensures Valid() && |refs| == old(|refs|)
      ensures r == 0 ==> refs == old(refs) && free == old(free)
      ensures r != 0 ==> Live() == old(Live()) - {r} && free == [r] + old(free)
    {
      if r == 0 {
        return;
      }
      ReleaseKeeps(refs, free, r);
      refs := refs[r := refs[0]];
      refs := refs[0 := Number(r)];
      free := [r] + free;
    }
  }

  // ---------------------------------------------------------------------------------------------
  // Runs

  datatype Op = Take(v: JsValue) | Release(r: nat)

  datatype State = State(refs: seq<JsValue>, free: seq<nat>)

  ghost predicate Allowed(s: State, op: Op) {
    op.Release? ==> op.r == 0 || op.r in LiveSlots(s.refs, s.free)
  }

  /** One operation; the list of free slots goes along. */
  ghost function Next(s: State, op: Op): State {
    if !FreeList(s.refs, s.free) || !Allowed(s, op) then s
    else
      match op
      case Take(v) => if v == Undefined then s else (TakeKeeps(s.refs, s.free, v); State(Taken(s.refs, v), Rest(s.free)))
      case Release(r) => if r == 0 then s else State(Released(s.refs, r), [r] + s.free)
  }

  /** What the operation means for the live values. */
  ghost function Meaning(s: State, live: map<nat, JsValue>, op: Op): map<nat, JsValue>
    requires FreeList(s.refs, s.free)
  {
    match op
    case Take(v) => if v == Undefined then live else live[Slot(s.refs) as nat := v]
    case Release(r) => live - {r}
  }

  ghost predicate Run(states: seq<State>, ops: seq<Op>) {
    && |states| == |ops| + 1 && states[0] == State([Number(0)], [])
    && forall i :: 0 <= i < |ops| ==> Allowed(states[i], ops[i]) && states[i + 1] == Next(states[i], ops[i])
  }

  /** In every state of every run the slots are split into the free list and the live ones, and each operation does to
      the live values what it means, taking a slot that is not live. */
  lemma {:induction false} RunPartitions(states: seq<State>, ops: seq<Op>, i: nat)
    requires Run(states, ops) && i <= |ops|
    ensures FreeList(states[i].refs, states[i].free)
    ensures i < |ops| ==>
      && LiveSlots(states[i + 1].refs, states[i + 1].free)
         == Meaning(states[i], LiveSlots(states[i].refs, states[i].free), ops[i])
      && (ops[i].Take? && ops[i].v != Undefined ==> Slot(states[i].refs) !in LiveSlots(states[i].refs, states[i].free))
      && |states[i + 1].refs| <= |states[i].refs| + (if states[i].free == [] then 1 else 0)
  {
    if i == 0 {
      assert FreeList([Number(0)], []);
    } else {
      RunPartitions(states, ops, i - 1);
      StepKeeps(states[i - 1], ops[i - 1]);
    }
    if i < |ops| {
      StepKeeps(states[i], ops[i]);
    }
  }

  lemma StepKeeps(s: State, op: Op)
    requires FreeList(s.refs, s.free) && Allowed(s, op)
    ensures var t := Next(s, op);
      && FreeList(t.refs, t.free)
      && LiveSlots(t.refs, t.free) == Meaning(s, LiveSlots(s.refs, s.free), op)
      && (op.Take? && op.v != Undefined ==> Slot(s.refs) !in LiveSlots(s.refs, s.free))
      && |t.refs| <= |s.refs| + (if s.free == [] then 1 else 0)
  {
    match op
    case Take(v) => TakeKeeps(s.refs, s.free, v);
    case Release(r) =>
      if r != 0 {
        ReleaseKeeps(s.refs, s.free, r);
      } else {
        assert LiveSlots(s.refs, s.free) - {0} == LiveSlots(s.refs, s.free);
      }
  }
}
