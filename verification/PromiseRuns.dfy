/** Properties of every run of the promise machine (libjs/init/promise.js). */
module PromiseRuns {
  import opened Promise
  import opened PromiseInv
  import opened PromiseKeeps
  import opened PromiseSteps
  import opened Runs

  // ---------------------------------------------------------------------------------------------
  // Serving

  /** All a subscriber needs is there when it is taken up. */
  lemma TakenServable(s: State, x: Sub)
    requires Inv(s) && JobOk(s, Invoke(x))
    ensures SubOk(s, x) && Servable(s, x)
  {
    hide JobsOk, RanOk, PublishOnce, Ordered, GathersOk;
    assert SubOk(s, s.made[x.id]);
    assert RecordOk(s, x.owner);
  }

  ghost predicate Serving(s: State, x: Sub) {
    && s.work != [] && s.work[0] == Invoke(x) && s.flushing && s.current.None?
  }

  lemma SlotFillable(s: State, x: Sub)
    requires Inv(s) && Serving(s, x) && SubOk(s, x) && x.fulfilled.Slot? && s.proms[x.owner].state == Fulfilled
    ensures Fillable(TakenUp(s), x.fulfilled.all, x.fulfilled.index, s.proms[x.owner].data)
  {
    hide SubsOk, JobsOk, RanOk, RecordsOk, PublishOnce, Ordered;
    var h, t := x.fulfilled, TakenUp(s);
    SlotIsEmpty(s);
    assert GatherOk(s, h.all);
    assert t.ran[|s.ran|].fulfilled == Slot(h.all, h.index);
    assert SlotRan(t, h.all, h.index);
  }

  lemma InternalKeeps(s: State, x: Sub)
    requires Inv(s) && Serving(s, x) && SubOk(s, x) && Servable(s, x)
    requires Inv(TakenUp(s)) && !OfProgram(Chosen(s, x))
    ensures var t := TakenUp(s); var u := RunInternal(t, Chosen(s, x), s.proms[x.owner].data);
      Inv(u) && Extends(t, u)
  {
    hide Inv, Seal, Resolve, FillSlot;
    var t, v := TakenUp(s), s.proms[x.owner].data;
    match Chosen(s, x)
    case AdoptValue(target, source) =>
      if v == Prom(source) {
        FulfillKeeps(t, target, v);
      } else {
        ResolveKeeps(t, target, v);
      }
    case AdoptReason(target) => RejectKeeps(t, target, v);
    case GatherReason(target) => RejectKeeps(t, target, v);
    case Slot(all, index) =>
      SlotFillable(s, x);
      FillSlotKeeps(t, all, index, v);
    case _ =>
  }

  lemma ServeKeeps(s: State, x: Sub)
    requires Inv(s) && Serving(s, x) && SubOk(s, x) && Servable(s, x)
    ensures var t := Serve(s.(work := s.work[1..]), x); Inv(t) && Extends(s, t)
  {
    hide Inv, RunInternal, Settle, SubOk;
    var t, v, h := TakenUp(s), s.proms[x.owner].data, Chosen(s, x);
    TakeKeepsIt(s);
    ChildRole(s, x);
    if h.User? {
      TakenFlags(s, x);
      ExtendsJoin(s, t, t.(current := Some(x)));
    } else if h.NoHandler? {
      SettleKeeps(t, x.child, v, s.proms[x.owner].state != Fulfilled);
      ExtendsJoin(s, t, Settle(t, x.child, v, s.proms[x.owner].state != Fulfilled));
    } else {
      InternalKeeps(s, x);
      var u := RunInternal(t, h, v);
      assert Grows(t.proms[x.child], u.proms[x.child]);
      SettleKeeps(u, x.child, UNDEFINED, false);
      ExtendsJoin(s, t, u);
      ExtendsJoin(s, u, Settle(u, x.child, UNDEFINED, false));
    }
  }

  lemma ChildRole(s: State, x: Sub)
    requires SubOk(s, x)
    ensures x.child < |s.proms| && s.proms[x.child].role == Child
  {
  }

  lemma TakenFlags(s: State, x: Sub)
    requires Serving(s, x) && Inv(TakenUp(s))
    ensures Inv(TakenUp(s).(current := Some(x))) && Extends(TakenUp(s), TakenUp(s).(current := Some(x)))
  {
    hide SubsOk, JobsOk, RanOk, RecordsOk, PublishOnce, Ordered, GathersOk;
    FlagsKeep(TakenUp(s), TakenUp(s).(current := Some(x)));
  }

  /** The subscriber whose function runs. */
  lemma RunningServable(s: State)
    requires Inv(s) && s.current.Some?
    ensures SubOk(s, s.current.value) && Servable(s, s.current.value)
  {
    var k :| 0 <= k < |s.ran| && s.ran[k] == s.current.value;
    assert JobOk(s, Invoke(s.ran[k]));
    TakenServable(s, s.ran[k]);
  }

  lemma Stopped(s: State)
    requires Inv(s)
    ensures Inv(s.(current := None)) && Extends(s, s.(current := None))
  {
    hide SubsOk, JobsOk, RanOk, RecordsOk, PublishOnce, Ordered, GathersOk;
    FlagsKeep(s, s.(current := None));
  }

  lemma ReturnKeeps(s: State, v: Value)
    requires Inv(s) && s.current.Some? && Known(s, v) && s.current.value.child < |s.proms|
    ensures var t := Return(s, s.current.value, v); Inv(t) && Extends(s, t)
  {
    hide Inv, Settle;
    RunningServable(s);
    Stopped(s);
    var t, x := s.(current := None), s.current.value;
    SettleKeeps(t, x.child, v, false);
    ExtendsJoin(s, t, Settle(t, x.child, v, false));
  }

  lemma ThrowKeeps(s: State, e: Value)
    requires Inv(s) && s.current.Some? && Known(s, e) && Servable(s, s.current.value)
    ensures var t := Throw(s, s.current.value, e); Inv(t) && Extends(s, t)
  {
    hide Inv, Settle, Seal;
    RunningServable(s);
    Stopped(s);
    var t, x := s.(current := None), s.current.value;
    RejectKeeps(t, x.child, e);
    var u := Reject(t, x.child, e);
    assert Grows(t.proms[x.child], u.proms[x.child]);
    SettleKeeps(u, x.child, s.proms[x.owner].data, false);
    ExtendsJoin(s, t, u);
    ExtendsJoin(s, u, Settle(u, x.child, s.proms[x.owner].data, false));
  }

  // ---------------------------------------------------------------------------------------------
  // Promise.all

  /** The call recorded with its promise, before it subscribes to anything. */
  function Gathering(s: State, inputs: seq<Value>): State {
    NewPromise(s, Gathers(|s.gathers|)).(
      gathers := s.gathers + [Gather(inputs, Slots(inputs), Empty(Slots(inputs)), |s.proms|)])
  }

  lemma GatheringGathers(s: State, inputs: seq<Value>)
    requires GathersOk(s) && JobsOk(s)
    ensures GathersOk(Gathering(s, inputs))
  {
    var t, n := Gathering(s, inputs), |s.gathers|;
    forall a | 0 <= a < |t.gathers| ensures GatherOk(t, a) {
      if a < n {
        assert GatherOk(s, a);
        GatheringResults(s, inputs, a);
        TargetSame(s, t, a);
      } else {
        forall i | 0 <= i < |s.work| ensures s.work[i] != PublishFulfillment(|s.proms|) {
          assert JobOk(s, s.work[i]);
        }
      }
    }
  }

  lemma GatheringResults(s: State, inputs: seq<Value>, a: nat)
    requires a < |s.gathers| && GatherOk(s, a)
    ensures forall i :: 0 <= i < |s.gathers[a].inputs| ==> ResultOk(Gathering(s, inputs), a, i)
  {
    hide TargetOk, Empty, Slots;
    var t := Gathering(s, inputs);
    forall i | 0 <= i < |s.gathers[a].inputs| ensures ResultOk(t, a, i) {
      assert ResultOk(s, a, i);
      assert SlotRan(s, a, i) ==> SlotRan(t, a, i);
    }
  }

  lemma GatheringKeeps(s: State, inputs: seq<Value>)
    requires Inv(s)
    ensures Inv(Gathering(s, inputs)) && Extends(s, Gathering(s, inputs))
  {
    hide SubsOk, JobsOk, RanOk, RecordsOk, PublishOnce, Ordered, GathersOk, Empty, Slots;
    var t := Gathering(s, inputs);
    SubsStay(s, t);
    NewRecords(s, t, Gathers(|s.gathers|));
    NewJobs(s, t, Gathers(|s.gathers|));
    NewOrder(s, t, Gathers(|s.gathers|));
    GatheringGathers(s, inputs);
  }

  /** No subscriber has a slot of this call from the `n`-th on. */
  ghost predicate SlotsBelow(s: State, all: nat, n: nat) {
    forall i :: 0 <= i < |s.made| && s.made[i].fulfilled.Slot? && s.made[i].fulfilled.all == all ==>
      s.made[i].fulfilled.index < n
  }

  lemma {:induction false} GatherFromKeeps(s: State, inputs: seq<Value>, all: nat, n: nat)
    requires Inv(s) && n <= |inputs| && (forall i :: 0 <= i < n ==> Known(s, inputs[i]))
    requires all < |s.gathers| && s.gathers[all].inputs == inputs && s.gathers[all].target < |s.proms|
    requires SlotsBelow(s, all, 0)
    ensures var t := GatherFrom(s, inputs, all, s.gathers[all].target, n);
      && Inv(t) && Extends(s, t) && t.gathers == s.gathers && SlotsBelow(t, all, n)
    decreases n
  {
    hide Inv, Then;
    if n > 0 {
      var target := s.gathers[all].target;
      GatherFromKeeps(s, inputs, all, n - 1);
      var t := GatherFrom(s, inputs, all, target, n - 1);
      assert Known(s, inputs[n - 1]);
      if inputs[n - 1].Prom? {
        var owner := inputs[n - 1].p;
        SlotNew(t, all, n - 1);
        GatherLengths(t, all);
        ThenKeeps(t, owner, Slot(all, n - 1), GatherReason(target));
        ThenMade(t, owner, Slot(all, n - 1), GatherReason(target));
        ExtendsJoin(s, t, Then(t, owner, Slot(all, n - 1), GatherReason(target)));
      }
    }
  }

  lemma SlotNew(t: State, all: nat, n: nat)
    requires SlotsBelow(t, all, n)
    ensures forall i :: 0 <= i < |t.made| ==> t.made[i].fulfilled != Slot(all, n)
  {
  }

  lemma GatherLengths(t: State, all: nat)
    requires Inv(t) && all < |t.gathers|
    ensures |t.gathers[all].results| == |t.gathers[all].inputs|
  {
    assert GatherOk(t, all);
  }

  lemma ThenMade(t: State, owner: Id, f: Handler, r: Handler)
    requires owner < |t.proms|
    ensures Then(t, owner, f, r).made == t.made + [Sub(|t.made|, owner, |t.proms|, f, r)]
    ensures Then(t, owner, f, r).gathers == t.gathers
  {
  }

  /** A call that does not exist yet has no slots. */
  lemma NoSlotsYet(s: State)
    requires SubsOk(s)
    ensures SlotsBelow(s, |s.gathers|, 0)
  {
    forall i | 0 <= i < |s.made| && s.made[i].fulfilled.Slot? ensures s.made[i].fulfilled.all < |s.gathers| {
      assert SubOk(s, s.made[i]);
    }
  }

  lemma AllKeeps(s: State, inputs: seq<Value>)
    requires Inv(s) && forall i :: 0 <= i < |inputs| ==> Known(s, inputs[i])
    ensures Inv(All(s, inputs)) && Extends(s, All(s, inputs))
  {
    hide Inv, Empty, Slots, GatherFrom, Seal;
    var all, target, t := |s.gathers|, |s.proms|, Gathering(s, inputs);
    GatheringKeeps(s, inputs);
    InvSubs(s);
    NoSlotsYet(s);
    forall i | 0 <= i < |inputs| ensures Known(t, inputs[i]) {
      assert Known(s, inputs[i]);
    }
    GatherFromKeeps(t, inputs, all, |inputs|);
    var u := GatherFrom(t, inputs, all, target, |inputs|);
    assert Grows(t.proms[target], u.proms[target]);
    ExtendsJoin(s, t, u);
    if Empty(Slots(inputs)) == 0 {
      FulfillKeeps(u, target, Results(all));
      ExtendsJoin(s, u, Fulfill(u, target, Results(all)));
    }
  }

  lemma InvSubs(s: State)
    requires Inv(s)
    ensures SubsOk(s)
  {
  }

  // ---------------------------------------------------------------------------------------------
  // Every step

  lemma RunFirstKeeps(s: State)
    requires Inv(s) && s.flushing && s.current.None? && s.work != [] && JobIn(s, s.work[0])
    ensures Inv(RunFirst(s)) && Extends(s, RunFirst(s))
  {
    hide SubsOk, RanOk, RecordsOk, PublishOnce, Ordered, GathersOk, Serve, PublishWith;
    assert JobOk(s, s.work[0]);
    match s.work[0]
    case Invoke(x) =>
      TakenServable(s, x);
      ServeKeeps(s, x);
    case _ =>
      PublishKeeps(s);
  }

  lemma ExtendsSelf(s: State)
    ensures Extends(s, s)
  {
  }

  lemma NextKeeps(s: State, op: Op)
    requires Inv(s)
    ensures Inv(Next(s, op)) && Extends(s, Next(s, op))
  {
    hide SubsOk, JobsOk, RanOk, RecordsOk, PublishOnce, Ordered, GathersOk, RunFirst, Return, Throw, All, Resolve, Seal, Then;
    ExtendsSelf(s);
    if Enabled(s, op) {
      match op
      case New => NewKeeps(s, Owned);
      case Subscribe(p, f, r) => ThenKeeps(s, p, f, r);
      case ResolveOwned(p, v) => ResolveKeeps(s, p, v);
      case RejectOwned(p, v) => RejectKeeps(s, p, v);
      case GatherAll(inputs) => AllKeeps(s, inputs);
      case RunJob => RunFirstKeeps(s);
      case Returned(v) => ReturnKeeps(s, v);
      case Thrown(e) => ThrowKeeps(s, e);
      case BeginFlush => FlagsKeep(s, Next(s, op));
      case EndFlush => FlagsKeep(s, Next(s, op));
    }
  }

  lemma StartInv()
    ensures Inv(Start())
  {
  }

  lemma {:induction false} RunInv(ops: seq<Op>, i: nat)
    requires i <= |ops|
    ensures Inv(States(Next, Start(), ops)[i])
    decreases i
  {
    hide Inv;
    StartInv();
    if i > 0 {
      RunInv(ops, i - 1);
      StatesChain(Next, Start(), ops);
      NextKeeps(States(Next, Start(), ops)[i - 1], ops[i - 1]);
    }
  }

  /** In every run, from any state of it to any later one: promises only move from pending to sealed to fulfilled or
      rejected, and data is fixed once a promise is sealed. */
  lemma {:induction false} RunForward(ops: seq<Op>, i: nat, j: nat)
    requires i <= j <= |ops|
    ensures Extends(States(Next, Start(), ops)[i], States(Next, Start(), ops)[j])
    decreases j
  {
    hide Inv, Extends, Next;
    ExtendsSelf(States(Next, Start(), ops)[i]);
    if i < j {
      RunForward(ops, i, j - 1);
      RunInv(ops, j - 1);
      StatesChain(Next, Start(), ops);
      NextKeeps(States(Next, Start(), ops)[j - 1], ops[j - 1]);
      ExtendsJoin(States(Next, Start(), ops)[i], States(Next, Start(), ops)[j - 1], States(Next, Start(), ops)[j]);
    }
  }

  /** A promise is published exactly when its list of subscribers is gone. */
  lemma PublishedIff(ops: seq<Op>, i: nat, p: Id)
    requires i <= |ops| && p < |States(Next, Start(), ops)[i].proms|
    ensures var r := States(Next, Start(), ops)[i].proms[p]; r.then_.None? <==> Settled(r)
  {
    hide SubsOk, JobsOk, RanOk, PublishOnce, Ordered, GathersOk, Next;
    RunInv(ops, i);
    assert RecordOk(States(Next, Start(), ops)[i], p);
  }

  /** Subscribers of one promise are served in the order they registered, each at most once, and only after it has
      settled: those served are a prefix of those registered. */
  lemma ServedInOrder(ops: seq<Op>, i: nat, o: Id)
    requires i <= |ops| && o < |States(Next, Start(), ops)[i].proms|
    ensures var s := States(Next, Start(), ops)[i];
      && OfOwner(s.ran, o) <= OfOwner(s.made, o)
      && (forall j, k :: 0 <= j < k < |OfOwner(s.ran, o)| ==> OfOwner(s.ran, o)[j].id < OfOwner(s.ran, o)[k].id)
      && (OfOwner(s.ran, o) != [] ==> Settled(s.proms[o]))
  {
    hide JobsOk, RecordsOk, PublishOnce, GathersOk, Next, SubOk, OfOwner;
    RunInv(ops, i);
    var s := States(Next, Start(), ops)[i];
    assert OrderOk(s, o);
    Increasing(s.made, o);
    if OfOwner(s.ran, o) != [] {
      OwnerOf(s.ran, o);
      var k :| 0 <= k < |s.ran| && s.ran[k].owner == o;
      assert JobOk(s, Invoke(s.ran[k]));
    }
  }

  lemma {:induction false} OwnerOf(xs: seq<Sub>, o: Id)
    requires OfOwner(xs, o) != []
    ensures exists k :: 0 <= k < |xs| && xs[k].owner == o
  {
    if xs[|xs| - 1].owner != o {
      OwnerOf(xs[..|xs| - 1], o);
      var k :| 0 <= k < |xs[..|xs| - 1]| && xs[..|xs| - 1][k].owner == o;
      assert xs[k].owner == o;
    }
  }

  /** A drained queue leaves no sealed promise and no unserved subscriber of a settled one. */
  lemma Drained(ops: seq<Op>, i: nat, p: Id)
    requires i <= |ops| && p < |States(Next, Start(), ops)[i].proms| && States(Next, Start(), ops)[i].work == []
    ensures var s := States(Next, Start(), ops)[i];
      s.proms[p].state != Sealed && (Settled(s.proms[p]) ==> OfOwner(s.ran, p) == OfOwner(s.made, p))
  {
    hide SubsOk, JobsOk, RanOk, GathersOk, Next, OfOwner;
    RunInv(ops, i);
    var s := States(Next, Start(), ops)[i];
    assert OrderOk(s, p) && RecordOk(s, p);
    assert Publications(s.work, p) == 0;
    assert Waits(s.work, p) == [];
  }

  /** The flush never gets stuck: a timer is set while there is work, and whatever comes first can be done. */
  lemma WorkGoesOn(ops: seq<Op>, i: nat)
    requires i <= |ops|
    ensures var s := States(Next, Start(), ops)[i];
      && (s.work != [] ==> s.timer)
      && (s.current.Some? ==> Servable(s, s.current.value))
      && (s.flushing && s.current.None? ==> Enabled(s, if s.work == [] then EndFlush else RunJob))
      && (s.timer && !s.flushing ==> Enabled(s, BeginFlush))
  {
    hide Inv, Next, Servable, Enabled;
    RunInv(ops, i);
    StateGoesOn(States(Next, Start(), ops)[i]);
  }

  lemma StateGoesOn(s: State)
    requires Inv(s)
    ensures s.work != [] ==> s.timer
    ensures s.current.Some? ==> Servable(s, s.current.value)
    ensures s.flushing && s.current.None? ==> Enabled(s, if s.work == [] then EndFlush else RunJob)
    ensures s.timer && !s.flushing ==> Enabled(s, BeginFlush)
  {
    hide SubsOk, RanOk, RecordsOk, PublishOnce, Ordered, GathersOk, Servable;
    if s.current.Some? {
      RunningServable(s);
    }
    if s.work != [] {
      assert JobOk(s, s.work[0]);
      if s.work[0].Invoke? {
        TakenServable(s, s.work[0].sub);
      }
    }
  }

  /** `Promise.all` fulfils its promise only when every input promise is fulfilled, with their values in the order of
      the inputs. */
  lemma AllGathers(ops: seq<Op>, i: nat, a: nat)
    requires i <= |ops| && a < |States(Next, Start(), ops)[i].gathers|
    ensures var s := States(Next, Start(), ops)[i]; var g := s.gathers[a];
      && g.target < |s.proms| && |g.results| == |g.inputs|
      && (s.proms[g.target].state == Fulfilled ==>
            && s.proms[g.target].data == Results(a)
            && forall k :: 0 <= k < |g.inputs| ==> g.results[k].Some? && Gathered(s, g.inputs[k], g.results[k].value))
  {
    hide SubsOk, JobsOk, RanOk, RecordsOk, PublishOnce, Ordered, Next, Empty;
    RunInv(ops, i);
    var s := States(Next, Start(), ops)[i];
    var g := s.gathers[a];
    assert GatherOk(s, a);
    if s.proms[g.target].state == Fulfilled {
      forall k | 0 <= k < |g.inputs| ensures g.results[k].Some? && Gathered(s, g.inputs[k], g.results[k].value) {
        assert ResultOk(s, a, k);
        if g.results[k].None? {
          EmptyPositive(g.results, k);
        }
      }
    }
  }

  /** A plain input stands for itself, a promise for the value it was fulfilled with. */
  predicate Gathered(s: State, input: Value, result: Value) {
    if input.Prom? then input.p < |s.proms| && s.proms[input.p].state == Fulfilled && result == s.proms[input.p].data
    else result == input
  }
}
