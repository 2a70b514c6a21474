/** Every step of the promise machine keeps the invariants (libjs/init/promise.js). */
module PromiseSteps {
  import opened Promise
  import opened PromiseInv
  import opened PromiseKeeps

  // ---------------------------------------------------------------------------------------------
  // Sealing

  /** The promise for all is fulfilled only with its full results. */
  ghost predicate SealOk(s: State, p: Id, v: Value, job: Job)
    requires p < |s.proms|
  {
    job == PublishFulfillment(p) && s.proms[p].role.Gathers? ==>
      var a := s.proms[p].role.all; a < |s.gathers| && s.gathers[a].remaining == 0 && v == Results(a)
  }

  lemma SealRecords(s: State, p: Id, v: Value, job: Job)
    requires RecordsOk(s) && p < |s.proms| && Known(s, v)
    ensures RecordsOk(Seal(s, p, v, job))
  {
    var t := Seal(s, p, v, job);
    forall q | 0 <= q < |t.proms| ensures RecordOk(t, q) {
      assert RecordOk(s, q);
      assert Waiting(t, q) == Waiting(s, q);
    }
  }

  lemma SealJobs(s: State, p: Id, v: Value, job: Job)
    requires JobsOk(s) && RanOk(s) && p < |s.proms| && Publishes(job, p)
    ensures JobsOk(Seal(s, p, v, job)) && RanOk(Seal(s, p, v, job))
  {
    var t := Seal(s, p, v, job);
    forall i | 0 <= i < |t.work| ensures JobOk(t, t.work[i]) {
      if i < |s.work| {
        assert JobOk(s, s.work[i]);
      }
    }
    forall i | 0 <= i < |t.ran| ensures JobOk(t, Invoke(t.ran[i])) {
      assert JobOk(s, Invoke(s.ran[i]));
    }
  }

  lemma SealOrder(s: State, p: Id, v: Value, job: Job)
    requires PublishOnce(s) && Ordered(s) && p < |s.proms| && Publishes(job, p)
    ensures PublishOnce(Seal(s, p, v, job)) && Ordered(Seal(s, p, v, job))
  {
    hide OfOwner, Waits, Publications;
    var t := Seal(s, p, v, job);
    forall q | 0 <= q < |t.proms| ensures Publications(t.work, q) == if t.proms[q].state == Sealed then 1 else 0 {
      PublicationsLast(s.work, job, q);
    }
    forall o | 0 <= o < |t.proms| ensures OrderOk(t, o) {
      assert OrderOk(s, o) && Waiting(t, o) == Waiting(s, o);
      WaitsLast(s.work, job, o);
      assert Waits(s.work, o) + [] == Waits(s.work, o);
    }
  }

  lemma SealGathers(s: State, p: Id, v: Value, job: Job)
    requires GathersOk(s) && JobsOk(s) && p < |s.proms| && Publishes(job, p) && SealOk(s, p, v, job)
    requires Extends(s, Seal(s, p, v, job))
    ensures GathersOk(Seal(s, p, v, job))
  {
    var t := Seal(s, p, v, job);
    if s.proms[p].state == Pending {
      forall a | 0 <= a < |s.gathers| && GatherOk(s, a) ensures TargetOk(t, a) {
        SealTarget(s, p, v, job, a);
      }
      GathersKeep(s, t);
    }
  }

  lemma SealTarget(s: State, p: Id, v: Value, job: Job, a: nat)
    requires JobsOk(s) && p < |s.proms| && Publishes(job, p) && SealOk(s, p, v, job) && s.proms[p].state == Pending
    requires a < |s.gathers| && s.gathers[a].target < |s.proms| && TargetOk(s, a)
    requires s.proms[s.gathers[a].target].role == Gathers(a)
    ensures TargetOk(Seal(s, p, v, job), a)
  {
    var t := Seal(s, p, v, job);
    if s.gathers[a].target == p {
      forall i | 0 <= i < |s.work| ensures s.work[i] != PublishFulfillment(p) {
        assert JobOk(s, s.work[i]);
      }
    } else {
      TargetSame(s, t, a);
    }
  }

  lemma SealKeeps(s: State, p: Id, v: Value, job: Job)
    requires Inv(s) && p < |s.proms| && Known(s, v) && Publishes(job, p) && SealOk(s, p, v, job)
    ensures Inv(Seal(s, p, v, job)) && Extends(s, Seal(s, p, v, job))
  {
    hide SubsOk, JobsOk, RanOk, RecordsOk, PublishOnce, Ordered, GathersOk, SealOk;
    SubsStay(s, Seal(s, p, v, job));
    SealRecords(s, p, v, job);
    SealJobs(s, p, v, job);
    SealOrder(s, p, v, job);
    SealGathers(s, p, v, job);
  }

  // ---------------------------------------------------------------------------------------------
  // Publishing

  function StatusOf(job: Job): Status {
    if job.PublishFulfillment? then Fulfilled else Rejected
  }

  /** A publication takes the first job. */
  function Published(s: State): State
    requires s.work != [] && !s.work[0].Invoke? && s.work[0].p < |s.proms|
  {
    PublishWith(s.(work := s.work[1..]), s.work[0].p, StatusOf(s.work[0]))
  }

  ghost predicate Publishing(s: State) {
    s.work != [] && !s.work[0].Invoke? && s.work[0].p < |s.proms| && s.proms[s.work[0].p].state == Sealed
  }

  lemma LastPublication(s: State)
    requires Publishing(s) && PublishOnce(s)
    ensures Publications(s.work[1..], s.work[0].p) == 0
    ensures forall i :: 1 <= i < |s.work| ==> !Publishes(s.work[i], s.work[0].p)
  {
    hide Publications;
    var p := s.work[0].p;
    PublicationsFirst(s.work, p);
    forall i | 1 <= i < |s.work| ensures !Publishes(s.work[i], p) {
      if Publishes(s.work[i], p) {
        assert s.work[1..][i - 1] == s.work[i];
        PublicationsSome(s.work[1..], p, i - 1);
      }
    }
  }

  lemma PublishRecords(s: State)
    requires RecordsOk(s) && Publishing(s)
    ensures RecordsOk(Published(s))
  {
    var t := Published(s);
    forall q | 0 <= q < |t.proms| ensures RecordOk(t, q) {
      assert RecordOk(s, q);
      assert q != s.work[0].p ==> Waiting(t, q) == Waiting(s, q);
    }
  }

  lemma PublishJobs(s: State)
    requires JobsOk(s) && RanOk(s) && RecordsOk(s) && PublishOnce(s) && Publishing(s)
    ensures JobsOk(Published(s)) && RanOk(Published(s))
  {
    hide Publications, PublishOnce;
    var t, p := Published(s), s.work[0].p;
    LastPublication(s);
    var n := |Waiting(s, p)|;
    forall i | 0 <= i < |t.work| ensures JobOk(t, t.work[i]) {
      if i < n {
        WaitingReady(s, i);
      } else {
        OthersReady(s, s.work[i - n + 1]);
        assert t.work[i] == s.work[i - n + 1];
      }
    }
    forall i | 0 <= i < |t.ran| ensures JobOk(t, Invoke(t.ran[i])) {
      OthersReady(s, Invoke(s.ran[i]));
    }
  }

  lemma WaitingReady(s: State, i: nat)
    requires RecordsOk(s) && Publishing(s) && i < |Waiting(s, s.work[0].p)|
    ensures |Published(s).work| > i && JobOk(Published(s), Published(s).work[i])
  {
    assert RecordOk(s, s.work[0].p);
    assert Published(s).work[i] == Invoke(Waiting(s, s.work[0].p)[i]);
  }

  lemma OthersReady(s: State, job: Job)
    requires Publishing(s) && JobOk(s, job) && !Publishes(job, s.work[0].p)
    ensures JobOk(Published(s), job)
  {
  }

  lemma {:induction false} WaitsInvokes(subs: seq<Sub>, p: Id, o: Id)
    requires forall i :: 0 <= i < |subs| ==> subs[i].owner == p
    ensures Waits(Invokes(subs), o) == if o == p then subs else []
    ensures Publications(Invokes(subs), o) == 0
    decreases |subs|
  {
    if subs != [] {
      var n := |subs| - 1;
      WaitsInvokes(subs[..n], p, o);
      assert Invokes(subs)[..n] == Invokes(subs[..n]);
      assert subs == subs[..n] + [subs[n]];
    }
  }

  /** Nobody is served before the owner settles. */
  lemma {:induction false} NobodyYet(s: State, work: seq<Job>, p: Id)
    requires p < |s.proms| && !Settled(s.proms[p]) && forall i :: 0 <= i < |work| ==> JobOk(s, work[i])
    ensures Waits(work, p) == []
    decreases |work|
  {
    if work != [] {
      NobodyYet(s, work[..|work| - 1], p);
      assert JobOk(s, work[|work| - 1]);
    }
  }

  lemma PublishOrder(s: State)
    requires PublishOnce(s) && Ordered(s) && RecordsOk(s) && JobsOk(s) && Publishing(s)
    ensures PublishOnce(Published(s)) && Ordered(Published(s))
  {
    hide OfOwner, Waits, Publications;
    var t, p, rest := Published(s), s.work[0].p, s.work[1..];
    var subs := Waiting(s, p);
    assert RecordOk(s, p);
    LastPublication(s);
    NobodyYet(s, s.work, p);
    forall q | 0 <= q < |t.proms| ensures Publications(t.work, q) == if t.proms[q].state == Sealed then 1 else 0 {
      WaitsInvokes(subs, p, q);
      PublicationsJoin(Invokes(subs), rest, q);
      PublicationsFirst(s.work, q);
    }
    forall o | 0 <= o < |t.proms| ensures OrderOk(t, o) {
      assert OrderOk(s, o);
      WaitsInvokes(subs, p, o);
      WaitsJoin(Invokes(subs), rest, o);
      WaitsFirst(s.work, o);
      assert [] + Waits(rest, o) == Waits(rest, o);
      assert o == p ==> Waits(rest, o) == [] && subs + [] == subs && Waiting(t, o) == [];
      assert o != p ==> Waiting(t, o) == Waiting(s, o);
      Shuffle(OfOwner(s.ran, o), subs);
    }
  }

  lemma Shuffle(a: seq<Sub>, b: seq<Sub>)
    ensures a + [] + b == a + b + []
  {
  }

  lemma PublishTarget(s: State, a: nat)
    requires PublishOnce(s) && Publishing(s)
    requires a < |s.gathers| && s.gathers[a].target < |s.proms| && TargetOk(s, a)
    ensures TargetOk(Published(s), a)
  {
    hide Publications, PublishOnce;
    LastPublication(s);
    var t, target := Published(s), s.gathers[a].target;
    assert PublishFulfillment(target) in t.work ==> PublishFulfillment(target) in s.work[1..];
    if target == s.work[0].p {
      var rest := s.work[1..];
      forall i | 0 <= i < |rest| ensures rest[i] != PublishFulfillment(target) {
        assert rest[i] == s.work[i + 1];
      }
    } else {
      TargetSame(s, t, a);
    }
  }

  lemma PublishKeeps(s: State)
    requires Inv(s) && Publishing(s)
    ensures Inv(Published(s)) && Extends(s, Published(s))
  {
    hide SubsOk, JobsOk, RanOk, RecordsOk, PublishOnce, Ordered, TargetOk;
    var t := Published(s);
    SubsStay(s, t);
    PublishRecords(s);
    PublishJobs(s);
    PublishOrder(s);
    forall a | 0 <= a < |s.gathers| && GatherOk(s, a) ensures TargetOk(t, a) {
      PublishTarget(s, a);
    }
    GathersKeep(s, t);
  }

  // ---------------------------------------------------------------------------------------------
  // Taking a subscriber from the work

  function TakenUp(s: State): State
    requires s.work != [] && s.work[0].Invoke?
  {
    s.(work := s.work[1..], ran := s.ran + [s.work[0].sub])
  }

  lemma TakeOrder(s: State)
    requires s.work != [] && s.work[0].Invoke? && PublishOnce(s) && Ordered(s)
    ensures PublishOnce(TakenUp(s)) && Ordered(TakenUp(s))
  {
    hide OfOwner, Waits, Publications;
    var t, x := TakenUp(s), s.work[0].sub;
    forall q | 0 <= q < |t.proms| ensures Publications(t.work, q) == if t.proms[q].state == Sealed then 1 else 0 {
      PublicationsFirst(s.work, q);
    }
    forall o | 0 <= o < |t.proms| ensures OrderOk(t, o) {
      assert OrderOk(s, o) && Waiting(t, o) == Waiting(s, o);
      WaitsFirst(s.work, o);
      OfOwnerLast(s.ran, x, o);
      MoveOver(OfOwner(s.ran, o), WaitsIn(Invoke(x), o), Waits(t.work, o), Waiting(s, o));
    }
  }

  lemma MoveOver(a: seq<Sub>, b: seq<Sub>, c: seq<Sub>, d: seq<Sub>)
    ensures a + (b + c) + d == (a + b) + c + d
  {
  }

  lemma TakeKeepsIt(s: State)
    requires Inv(s) && s.work != [] && s.work[0].Invoke?
    ensures Inv(TakenUp(s)) && Extends(s, TakenUp(s))
  {
    hide SubsOk, PublishOnce, Ordered, TargetOk;
    var t := TakenUp(s);
    SubsStay(s, t);
    TakeOrder(s);
    TakeJobs(s);
    assert RecordsOk(t) by {
      forall q | 0 <= q < |t.proms| ensures RecordOk(t, q) {
        assert RecordOk(s, q) && Waiting(t, q) == Waiting(s, q);
      }
    }
    forall a | 0 <= a < |s.gathers| && GatherOk(s, a) ensures TargetOk(t, a) {
      TargetSame(s, t, a);
    }
    GathersKeep(s, t);
  }

  lemma TakeJobs(s: State)
    requires s.work != [] && s.work[0].Invoke? && JobsOk(s) && RanOk(s)
    ensures JobsOk(TakenUp(s)) && RanOk(TakenUp(s))
  {
    var t := TakenUp(s);
    forall i | 0 <= i < |t.work| ensures JobOk(t, t.work[i]) {
      assert JobOk(s, s.work[i + 1]);
    }
    forall i | 0 <= i < |t.ran| ensures JobOk(t, Invoke(t.ran[i])) {
      if i < |s.ran| {
        assert JobOk(s, Invoke(s.ran[i]));
      } else {
        assert JobOk(s, s.work[0]);
      }
    }
  }

  /** A step that touches only the flags and the running function. */
  lemma FlagsKeep(s: State, t: State)
    requires Inv(s) && t == s.(timer := t.timer, flushing := t.flushing, current := t.current)
    requires TimerOk(t) && (t.current.Some? ==> t.current.value in s.ran)
    ensures Inv(t) && Extends(s, t)
  {
    hide SubsOk, PublishOnce, Ordered, TargetOk;
    SubsStay(s, t);
    assert PublishOnce(t) by {
      assert PublishOnce(s);
      FlagsOnce(s, t);
    }
    FlagsOrder(s, t);
    assert RecordsOk(t) by {
      forall q | 0 <= q < |t.proms| ensures RecordOk(t, q) {
        assert RecordOk(s, q) && Waiting(t, q) == Waiting(s, q);
      }
    }
    forall i | 0 <= i < |t.work| ensures JobOk(t, t.work[i]) {
      assert JobOk(s, s.work[i]);
    }
    forall i | 0 <= i < |t.ran| ensures JobOk(t, Invoke(t.ran[i])) {
      assert JobOk(s, Invoke(s.ran[i]));
    }
    forall a | 0 <= a < |s.gathers| && GatherOk(s, a) ensures TargetOk(t, a) {
      TargetSame(s, t, a);
    }
    GathersKeep(s, t);
  }

  lemma FlagsOnce(s: State, t: State)
    requires t.work == s.work && t.proms == s.proms && PublishOnce(s)
    ensures PublishOnce(t)
  {
    hide Publications;
  }

  lemma FlagsOrder(s: State, t: State)
    requires t.work == s.work && t.proms == s.proms && t.made == s.made && t.ran == s.ran && Ordered(s)
    ensures Ordered(t)
  {
    hide OfOwner, Waits;
    forall o | 0 <= o < |t.proms| ensures OrderOk(t, o) {
      assert OrderOk(s, o) && Waiting(t, o) == Waiting(s, o);
    }
  }

  // ---------------------------------------------------------------------------------------------
  // Resolving and rejecting

  lemma RejectKeeps(s: State, p: Id, v: Value)
    requires Inv(s) && p < |s.proms| && Known(s, v)
    ensures Inv(Reject(s, p, v)) && Extends(s, Reject(s, p, v))
  {
    hide Inv, Seal;
    SealKeeps(s, p, v, PublishRejection(p));
  }

  lemma FulfillKeeps(s: State, p: Id, v: Value)
    requires Inv(s) && p < |s.proms| && Known(s, v) && SealOk(s, p, v, PublishFulfillment(p))
    ensures Inv(Fulfill(s, p, v)) && Extends(s, Fulfill(s, p, v))
  {
    hide Inv, Seal;
    SealKeeps(s, p, v, PublishFulfillment(p));
  }

  lemma HandleKeeps(s: State, p: Id, v: Value)
    requires Inv(s) && p < |s.proms| && Known(s, v) && !s.proms[p].role.Gathers?
    ensures Inv(HandleThenable(s, p, v).0) && Extends(s, HandleThenable(s, p, v).0)
  {
    hide Inv, Seal, Then;
    if v == Prom(p) {
      RejectKeeps(s, p, TYPE_ERROR);
    } else if v.Prom? {
      ThenKeeps(s, v.p, AdoptValue(p, v.p), AdoptReason(p));
    }
  }

  lemma ResolveKeeps(s: State, p: Id, v: Value)
    requires Inv(s) && p < |s.proms| && Known(s, v) && SealOk(s, p, v, PublishFulfillment(p))
    requires s.proms[p].role.Gathers? ==> !v.Prom?
    ensures Inv(Resolve(s, p, v)) && Extends(s, Resolve(s, p, v))
  {
    hide Inv, Seal, Then;
    if v == Prom(p) || !v.Prom? {
      FulfillKeeps(s, p, v);
    } else {
      HandleKeeps(s, p, v);
    }
  }

  lemma SettleKeeps(s: State, child: Id, v: Value, rejecting: bool)
    requires Inv(s) && child < |s.proms| && Known(s, v) && s.proms[child].role == Child
    ensures Inv(Settle(s, child, v, rejecting)) && Extends(s, Settle(s, child, v, rejecting))
  {
    hide Inv, Seal, Then;
    HandleKeeps(s, child, v);
    RejectKeeps(s, child, v);
    ResolveKeeps(s, child, v);
  }

  // ---------------------------------------------------------------------------------------------
  // Promise.all

  lemma {:induction false} EmptyPositive(r: seq<Option<Value>>, i: nat)
    requires i < |r| && r[i].None?
    ensures Empty(r) > 0
    decreases |r|
  {
    if i < |r| - 1 {
      EmptyPositive(r[..|r| - 1], i);
    }
  }

  lemma {:induction false} EmptyFilled(r: seq<Option<Value>>, i: nat, v: Value)
    requires i < |r| && r[i].None?
    ensures Empty(r[i := Some(v)]) == Empty(r) - 1
    decreases |r|
  {
    var n := |r| - 1;
    if i < n {
      EmptyFilled(r[..n], i, v);
      assert r[i := Some(v)][..n] == r[..n][i := Some(v)];
    } else {
      assert r[i := Some(v)][..n] == r[..n];
    }
  }

  /** A slot filled, before anything is resolved. */
  function Filled(s: State, all: nat, index: nat, v: Value): State
    requires all < |s.gathers| && index < |s.gathers[all].results|
  {
    var g := s.gathers[all];
    s.(gathers := s.gathers[all := g.(results := g.results[index := Some(v)], remaining := g.remaining - 1)])
  }

  ghost predicate Fillable(s: State, all: nat, index: nat, v: Value) {
    && all < |s.gathers| && index < |s.gathers[all].results| && index < |s.gathers[all].inputs|
    && s.gathers[all].results[index].None? && SlotRan(s, all, index) && s.gathers[all].inputs[index].Prom?
    && s.gathers[all].inputs[index].p < |s.proms|
    && s.proms[s.gathers[all].inputs[index].p].state == Fulfilled && v == s.proms[s.gathers[all].inputs[index].p].data
  }

  lemma FillGathers(s: State, all: nat, index: nat, v: Value)
    requires GathersOk(s) && Fillable(s, all, index, v)
    ensures GathersOk(Filled(s, all, index, v))
  {
    var t := Filled(s, all, index, v);
    forall a | 0 <= a < |t.gathers| ensures GatherOk(t, a) {
      assert GatherOk(s, a);
      FillResults(s, all, index, v, a);
      if a == all {
        EmptyFilled(s.gathers[a].results, index, v);
        EmptyPositive(s.gathers[a].results, index);
      }
    }
  }

  lemma FillResults(s: State, all: nat, index: nat, v: Value, a: nat)
    requires Fillable(s, all, index, v) && a < |s.gathers| && GatherOk(s, a)
    ensures forall i :: 0 <= i < |s.gathers[a].inputs| ==> ResultOk(Filled(s, all, index, v), a, i)
  {
    hide TargetOk, Empty;
    var t := Filled(s, all, index, v);
    forall i | 0 <= i < |s.gathers[a].inputs| ensures ResultOk(t, a, i) {
      assert ResultOk(s, a, i);
      assert SlotRan(s, a, i) ==> SlotRan(t, a, i);
    }
  }

  lemma FilledKeeps(s: State, all: nat, index: nat, v: Value)
    requires Inv(s) && Fillable(s, all, index, v)
    ensures Inv(Filled(s, all, index, v)) && Extends(s, Filled(s, all, index, v))
  {
    hide SubsOk, GathersOk, Fillable;
    FilledExtends(s, all, index, v);
    var t := Filled(s, all, index, v);
    SubsStay(s, t);
    FillGathers(s, all, index, v);
    FlagsOnce(s, t);
    FlagsOrder(s, t);
    forall i | 0 <= i < |t.work| ensures JobOk(t, t.work[i]) {
      assert JobOk(s, s.work[i]);
    }
    forall i | 0 <= i < |t.ran| ensures JobOk(t, Invoke(t.ran[i])) {
      assert JobOk(s, Invoke(s.ran[i]));
    }
    forall q | 0 <= q < |t.proms| ensures RecordOk(t, q) {
      assert RecordOk(s, q) && Waiting(t, q) == Waiting(s, q);
    }
  }

  lemma FilledExtends(s: State, all: nat, index: nat, v: Value)
    requires Fillable(s, all, index, v)
    ensures all < |s.gathers| && index < |s.gathers[all].results| && Extends(s, Filled(s, all, index, v))
  {
  }

  lemma FillSlotKeeps(s: State, all: nat, index: nat, v: Value)
    requires Inv(s) && Fillable(s, all, index, v) && s.gathers[all].target < |s.proms|
    ensures Inv(FillSlot(s, all, index, v)) && Extends(s, FillSlot(s, all, index, v))
  {
    hide SubsOk, JobsOk, RanOk, RecordsOk, PublishOnce, Ordered, Resolve;
    var t := Filled(s, all, index, v);
    FilledKeeps(s, all, index, v);
    assert GatherOk(t, all);
    if t.gathers[all].remaining == 0 {
      ResolveKeeps(t, t.gathers[all].target, Results(all));
      ExtendsJoin(s, t, Resolve(t, t.gathers[all].target, Results(all)));
    }
  }

  // ---------------------------------------------------------------------------------------------
  // A subscriber has not been served before

  lemma {:induction false} Increasing(xs: seq<Sub>, o: Id)
    requires forall i :: 0 <= i < |xs| ==> xs[i].id == i
    ensures forall i :: 0 <= i < |OfOwner(xs, o)| ==> OfOwner(xs, o)[i].id < |xs|
    ensures forall i, j :: 0 <= i < j < |OfOwner(xs, o)| ==> OfOwner(xs, o)[i].id < OfOwner(xs, o)[j].id
    decreases |xs|
  {
    if xs != [] {
      Increasing(xs[..|xs| - 1], o);
    }
  }

  lemma {:induction false} Found(xs: seq<Sub>, k: nat)
    requires k < |xs|
    ensures xs[k] in OfOwner(xs, xs[k].owner)
    decreases |xs|
  {
    if k < |xs| - 1 {
      Found(xs[..|xs| - 1], k);
    }
  }

  lemma NotRanBefore(s: State, k: nat)
    requires SubsOk(s) && Ordered(s) && JobsOk(s) && RanOk(s)
    requires s.work != [] && s.work[0].Invoke? && k < |s.ran|
    ensures s.ran[k] != s.work[0].sub
  {
    hide OfOwner, Waits, SubOk;
    var x := s.work[0].sub;
    if s.ran[k] == x {
      assert JobOk(s, s.work[0]) && OrderOk(s, x.owner);
      var made, ran := OfOwner(s.made, x.owner), OfOwner(s.ran, x.owner);
      Found(s.ran, k);
      WaitsFirst(s.work, x.owner);
      Increasing(s.made, x.owner);
      TwicePlaces(made, ran, x, Waits(s.work[1..], x.owner), Waiting(s, x.owner));
    }
  }

  lemma TwicePlaces(made: seq<Sub>, ran: seq<Sub>, x: Sub, b: seq<Sub>, c: seq<Sub>)
    requires made == ran + ([x] + b) + c && x in ran
    ensures exists i, j :: 0 <= i < j < |made| && made[i].id == made[j].id
  {
    var i :| 0 <= i < |ran| && ran[i] == x;
    assert made[i] == x && made[|ran|] == x;
  }

  /** When a slot's subscriber is taken up, the slot is empty. */
  lemma SlotIsEmpty(s: State)
    requires Inv(s) && s.work != [] && s.work[0].Invoke? && s.work[0].sub.fulfilled.Slot?
    requires HandlerOk(s, s.work[0].sub, s.work[0].sub.fulfilled)
    ensures var h := s.work[0].sub.fulfilled; s.gathers[h.all].results[h.index].None?
  {
    hide Ordered, PublishOnce, TargetOk, Empty, SubOk;
    var x := s.work[0].sub;
    var h := x.fulfilled;
    assert JobOk(s, s.work[0]) && GatherOk(s, h.all) && ResultOk(s, h.all, h.index);
    if s.gathers[h.all].results[h.index].Some? {
      var k :| 0 <= k < |s.ran| && s.ran[k].fulfilled == Slot(h.all, h.index);
      assert JobOk(s, Invoke(s.ran[k]));
      NotRanBefore(s, k);
      SameSlot(s, s.ran[k], x);
    }
  }

  lemma SameSlot(s: State, x: Sub, y: Sub)
    requires SlotsUnique(s) && Registered(s, x) && Registered(s, y) && x.fulfilled == y.fulfilled && x.fulfilled.Slot?
    ensures x == y
  {
  }
}
