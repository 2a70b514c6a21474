/** Why the promise of `Promise.all` is rejected (libjs/init/promise.js): with the reason of a rejected input. */
module PromiseReason {
  import opened Promise
  import opened PromiseInv
  import opened PromiseSteps
  import opened PromiseRuns
  import opened PromiseGather
  import opened PromiseFates
  import opened PromiseOutcome
  import opened Runs

  predicate RejectedWith(s: State, input: Value, v: Value) {
    RejectedInput(s, input) && s.proms[input.p].data == v
  }

  ghost predicate HasReason(s: State, all: nat, v: Value)
    requires all < |s.gathers|
  {
    exists i :: 0 <= i < |s.gathers[all].inputs| && RejectedWith(s, s.gathers[all].inputs[i], v)
  }

  /** A promise for all that is not pending has its array, or the reason of a rejected input. */
  ghost predicate Reasoned(s: State, p: Id)
    requires p < |s.proms|
  {
    s.proms[p].role.Gathers? && s.proms[p].state != Pending ==>
      && s.proms[p].role.all < |s.gathers|
      && ((Bound(s, p, Fulfilled) && s.proms[p].data == Results(s.proms[p].role.all))
          || (Bound(s, p, Rejected) && HasReason(s, s.proms[p].role.all, s.proms[p].data)))
  }

  ghost predicate AllReasoned(s: State) {
    forall p :: 0 <= p < |s.proms| ==> Reasoned(s, p)
  }

  lemma ReasonStays(s: State, t: State, all: nat, v: Value)
    requires Extends(s, t) && all < |s.gathers| && HasReason(s, all, v)
    ensures all < |t.gathers| && HasReason(t, all, v)
  {
    assert SameGather(s.gathers[all], t.gathers[all]);
    var i :| 0 <= i < |s.gathers[all].inputs| && RejectedWith(s, s.gathers[all].inputs[i], v);
    var q := s.gathers[all].inputs[i].p;
    assert Grows(s.proms[q], t.proms[q]);
    assert RejectedWith(t, t.gathers[all].inputs[i], v);
  }

  /** What is certain stays so while the queue only grows at its end. */
  lemma ReasonedGrows(s: State, t: State, p: Id)
    requires Extends(s, t) && JobsOk(t) && s.work <= t.work && p < |s.proms| && Reasoned(s, p) && s.proms[p].state != Pending
    ensures p < |t.proms| && Reasoned(t, p)
  {
    hide Extends, JobsOk, Bound, HasReason;
    SameRole(s, t, p);
    if s.proms[p].role.Gathers? {
      if Bound(s, p, Fulfilled) && s.proms[p].data == Results(s.proms[p].role.all) {
        GrowsBound(s, t, p, Fulfilled);
        BoundData(s, t, p, Fulfilled);
        GathersGrow(s, t);
      } else {
        GrowsBound(s, t, p, Rejected);
        BoundData(s, t, p, Rejected);
        ReasonStays(s, t, s.proms[p].role.all, s.proms[p].data);
      }
    }
  }

  lemma GathersGrow(s: State, t: State)
    requires Extends(s, t)
    ensures |s.gathers| <= |t.gathers|
  {
  }

  lemma ReasonedNext(s: State, op: Op, p: Id)
    requires Inv(s) && p < |s.proms| && Reasoned(s, p) && s.proms[p].state != Pending
    ensures p < |Next(s, op).proms| && Reasoned(Next(s, op), p)
  {
    hide Inv, Extends, Bound, HasReason, Next;
    var t := Next(s, op);
    NextKeeps(s, op);
    SameRole(s, t, p);
    if s.proms[p].role.Gathers? {
      if Bound(s, p, Fulfilled) && s.proms[p].data == Results(s.proms[p].role.all) {
        NextBound(s, op, p, Fulfilled);
        BoundData(s, t, p, Fulfilled);
        GathersGrow(s, t);
      } else {
        NextBound(s, op, p, Rejected);
        BoundData(s, t, p, Rejected);
        ReasonStays(s, t, s.proms[p].role.all, s.proms[p].data);
      }
    }
  }

  // ---------------------------------------------------------------------------------------------
  // Steps that settle no promise for all

  ghost predicate Quiet(s: State, t: State) {
    && |s.proms| <= |t.proms|
    && (forall p :: 0 <= p < |s.proms| ==> t.proms[p].role == s.proms[p].role)
    && (forall p :: 0 <= p < |t.proms| && t.proms[p].role.Gathers? && t.proms[p].state != Pending ==>
          p < |s.proms| && s.proms[p].state != Pending)
  }

  lemma QuietJoin(s: State, t: State, u: State)
    requires Quiet(s, t) && Quiet(t, u)
    ensures Quiet(s, u)
  {
  }

  lemma SealQuiet(s: State, p: Id, v: Value)
    requires p < |s.proms| && !s.proms[p].role.Gathers?
    ensures Quiet(s, Fulfill(s, p, v)) && Quiet(s, Reject(s, p, v))
  {
  }

  lemma ThenQuiet(s: State, p: Id, f: Handler, r: Handler)
    requires p < |s.proms|
    ensures Quiet(s, Then(s, p, f, r))
  {
  }

  lemma ResolveQuiet(s: State, p: Id, v: Value)
    requires p < |s.proms| && Known(s, v) && !s.proms[p].role.Gathers?
    ensures Quiet(s, Resolve(s, p, v))
  {
    hide Seal, Then, Quiet;
    SealQuiet(s, p, v);
    SealQuiet(s, p, TYPE_ERROR);
    if v.Prom? {
      ThenQuiet(s, v.p, AdoptValue(p, v.p), AdoptReason(p));
    }
    QuietSelf(s);
  }

  lemma QuietSelf(s: State)
    ensures Quiet(s, s)
  {
  }

  lemma SettleQuiet(s: State, p: Id, v: Value, rejecting: bool)
    requires p < |s.proms| && Known(s, v) && !s.proms[p].role.Gathers?
    ensures Quiet(s, Settle(s, p, v, rejecting))
  {
    hide Seal, Then, Quiet, Resolve;
    SealQuiet(s, p, v);
    SealQuiet(s, p, TYPE_ERROR);
    ResolveQuiet(s, p, v);
    if v.Prom? {
      ThenQuiet(s, v.p, AdoptValue(p, v.p), AdoptReason(p));
    }
    QuietSelf(s);
  }

  /** Nothing that was certain is lost, and nothing new has settled. */
  lemma QuietReasoned(s: State, t: State)
    requires Quiet(s, t) && AllReasoned(s) && Extends(s, t) && JobsOk(t) && s.work <= t.work
    ensures AllReasoned(t)
  {
    hide Extends, JobsOk;
    forall p | 0 <= p < |t.proms| ensures Reasoned(t, p) {
      if p < |s.proms| && s.proms[p].state != Pending {
        ReasonedGrows(s, t, p);
      }
    }
  }

  // ---------------------------------------------------------------------------------------------
  // The callbacks of a call

  lemma SlotReasoned(s: State, all: nat, index: nat, v: Value)
    requires Inv(s) && AllReasoned(s) && Fillable(s, all, index, v) && all < |s.gathers| && s.gathers[all].target < |s.proms|
    ensures AllReasoned(FillSlot(s, all, index, v))
  {
    hide Inv, Extends, JobsOk, HasReason;
    var t := FillSlot(s, all, index, v);
    FillSlotKeeps(s, all, index, v);
    InvJobs(t);
    SlotFills(s, all, index, v);
    forall p | 0 <= p < |t.proms| ensures Reasoned(t, p) {
      if p < |s.proms| && s.proms[p].state != Pending {
        ReasonedGrows(s, t, p);
      }
    }
  }

  /** Only the promise of the call may settle, with its array. */
  lemma SlotFills(s: State, all: nat, index: nat, v: Value)
    requires Inv(s) && all < |s.gathers| && index < |s.gathers[all].results| && s.gathers[all].target < |s.proms|
    ensures var t, target := FillSlot(s, all, index, v), s.gathers[all].target;
      && s.work <= t.work && |t.proms| == |s.proms| && |t.gathers| == |s.gathers| && s.proms[target].role == Gathers(all)
      && (forall p :: 0 <= p < |s.proms| && p != target ==> t.proms[p] == s.proms[p])
      && (t.proms[target].state == s.proms[target].state
          || (Bound(t, target, Fulfilled) && t.proms[target].data == Results(all) && t.proms[target].role == Gathers(all)))
  {
    hide SubsOk, JobsOk, RanOk, RecordsOk, PublishOnce, Ordered;
    assert GatherOk(s, all);
    var t, target := FillSlot(s, all, index, v), s.gathers[all].target;
    if t.work != s.work {
      assert t.work[|s.work|] == PublishFulfillment(target);
    }
  }

  /** A rejected input rejects with its reason. */
  lemma RejectReasoned(s: State, x: Sub)
    requires Inv(s) && AllReasoned(s) && x.rejected.GatherReason? && ReasonOk(s, x) && x.owner < |s.proms|
    requires s.proms[x.owner].state == Rejected && x.rejected.target < |s.proms| && Known(s, s.proms[x.owner].data)
    ensures AllReasoned(Reject(s, x.rejected.target, s.proms[x.owner].data))
  {
    hide Inv, Extends, JobsOk, HasReason, ReasonOk;
    var target, v := x.rejected.target, s.proms[x.owner].data;
    var t := Reject(s, target, v);
    RejectKeeps(s, target, v);
    InvJobs(t);
    RejectSeals(s, target, v);
    forall p | 0 <= p < |t.proms| ensures Reasoned(t, p) {
      if s.proms[p].state != Pending {
        ReasonedGrows(s, t, p);
      } else if p == target {
        ReasonOf(s, t, x);
      }
    }
  }

  lemma RejectSeals(s: State, p: Id, v: Value)
    requires p < |s.proms|
    ensures var t := Reject(s, p, v);
      && s.work <= t.work && |t.proms| == |s.proms| && t.gathers == s.gathers
      && (forall q :: 0 <= q < |s.proms| && q != p ==> t.proms[q] == s.proms[q])
      && (s.proms[p].state == Pending ==>
            Bound(t, p, Rejected) && t.proms[p].data == v && t.proms[p].role == s.proms[p].role)
  {
    var t := Reject(s, p, v);
    if s.proms[p].state == Pending {
      assert t.work[|s.work|] == PublishRejection(p);
    }
  }

  lemma ReasonOf(s: State, t: State, x: Sub)
    requires Inv(s) && ReasonOk(s, x) && x.rejected.GatherReason? && x.owner < |s.proms| && s.proms[x.owner].state == Rejected
    requires var p := x.rejected.target;
      && p < |s.proms| && s.proms[p].state == Pending && |t.proms| == |s.proms| && t.gathers == s.gathers
      && (forall q :: 0 <= q < |s.proms| && q != p ==> t.proms[q] == s.proms[q])
      && Bound(t, p, Rejected) && t.proms[p].data == s.proms[x.owner].data && t.proms[p].role == s.proms[p].role
    ensures Reasoned(t, x.rejected.target)
  {
    hide SubsOk, JobsOk, RanOk, RecordsOk, PublishOnce, Ordered, Bound;
    var all, i := x.fulfilled.all, x.fulfilled.index;
    assert GatherOk(s, all);
    assert RejectedWith(t, t.gathers[all].inputs[i], s.proms[x.owner].data);
  }

  // ---------------------------------------------------------------------------------------------
  // Every step

  lemma InternalReasoned(s: State, x: Sub)
    requires Inv(s) && Serving(s, x) && Inv(TakenUp(s)) && AllReasoned(TakenUp(s)) && GathersHold(s)
    requires SubOk(s, x) && Servable(s, x) && Settled(s.proms[x.owner]) && !OfProgram(Chosen(s, x))
    ensures var u := RunInternal(TakenUp(s), Chosen(s, x), s.proms[x.owner].data); Inv(u) && AllReasoned(u)
  {
    hide Inv, Seal, Resolve, FillSlot, AllReasoned, Extends, Quiet, GathersHold, ReasonOk, Fillable;
    var t, v := TakenUp(s), s.proms[x.owner].data;
    InternalKeeps(s, x);
    var u := RunInternal(t, Chosen(s, x), v);
    InvJobs(u);
    InternalWork(t, Chosen(s, x), v);
    Adopting(t, x, Chosen(s, x));
    match Chosen(s, x)
    case AdoptValue(target, source) =>
      SealQuiet(t, target, v);
      ResolveQuiet(t, target, v);
      QuietReasoned(t, u);
    case AdoptReason(target) =>
      SealQuiet(t, target, v);
      QuietReasoned(t, u);
    case GatherReason(target) =>
      TakenReason(s, x);
      RejectReasoned(t, x);
    case Slot(all, index) =>
      SlotFillable(s, x);
      SlotReasoned(t, all, index, v);
    case _ =>
  }

  /** No subscriber passes the outcome of a promise on to a promise for all. */
  lemma Adopting(s: State, x: Sub, h: Handler)
    requires HandlerOk(s, x, h)
    ensures h.AdoptValue? || h.AdoptReason? ==> h.target < |s.proms| && !s.proms[h.target].role.Gathers?
  {
  }

  lemma TakenReason(s: State, x: Sub)
    requires Inv(s) && Serving(s, x) && GathersHold(s)
    ensures ReasonOk(TakenUp(s), x) && !x.fulfilled.GatherReason?
  {
    hide SubsOk, RanOk, RecordsOk, PublishOnce, Ordered, GathersOk;
    assert JobOk(s, s.work[0]);
    assert ReasonOk(s, s.made[x.id]);
    SameReason(s, TakenUp(s), x);
  }

  lemma TakenReasoned(s: State)
    requires s.work != [] && s.work[0].Invoke? && AllReasoned(s)
    ensures AllReasoned(TakenUp(s))
  {
    hide HasReason;
    var t := TakenUp(s);
    TakenAlike(s);
    forall p | 0 <= p < |t.proms| ensures Reasoned(t, p) {
      assert Reasoned(s, p);
      if s.proms[p].role.Gathers? && s.proms[p].role.all < |s.gathers| {
        SameReasons(s, t, s.proms[p].role.all, s.proms[p].data);
      }
    }
  }

  lemma SameReasons(s: State, t: State, all: nat, v: Value)
    requires t.proms == s.proms && t.gathers == s.gathers && all < |s.gathers|
    ensures HasReason(s, all, v) ==> HasReason(t, all, v)
  {
    if HasReason(s, all, v) {
      var i :| 0 <= i < |s.gathers[all].inputs| && RejectedWith(s, s.gathers[all].inputs[i], v);
      assert RejectedWith(t, t.gathers[all].inputs[i], v);
    }
  }

  lemma ServeReasoned(s: State, x: Sub)
    requires Inv(s) && GathersHold(s) && AllReasoned(s) && Serving(s, x) && Servable(s, x) && SubOk(s, x)
    requires Settled(s.proms[x.owner])
    ensures AllReasoned(Serve(s.(work := s.work[1..]), x))
  {
    hide Inv, AllReasoned, RunInternal, Settle, GathersHold, Quiet, Extends, SubOk;
    var t, v := TakenUp(s), s.proms[x.owner].data;
    TakeKeepsIt(s);
    TakenReasoned(s);
    ChildRole(s, x);
    OwnerData(s, x);
    if Chosen(s, x).User? {
      FlagsReasoned(t, t.(current := Some(x)));
    } else if Chosen(s, x).NoHandler? {
      SettleReasoned(t, x.child, v, s.proms[x.owner].state != Fulfilled);
    } else {
      InternalReasoned(s, x);
      InternalKeeps(s, x);
      var u := RunInternal(t, Chosen(s, x), v);
      SameRole(t, u, x.child);
      SettleReasoned(u, x.child, UNDEFINED, false);
    }
  }

  lemma FlagsReasoned(s: State, t: State)
    requires AllReasoned(s) && t == s.(timer := t.timer, flushing := t.flushing, current := t.current)
    ensures AllReasoned(t)
  {
    hide HasReason;
    forall p | 0 <= p < |t.proms| ensures Reasoned(t, p) {
      assert Reasoned(s, p);
      if s.proms[p].role.Gathers? && s.proms[p].role.all < |s.gathers| {
        SameReasons(s, t, s.proms[p].role.all, s.proms[p].data);
      }
    }
  }

  lemma SettleReasoned(s: State, p: Id, v: Value, rejecting: bool)
    requires Inv(s) && AllReasoned(s) && p < |s.proms| && Known(s, v) && s.proms[p].role == Child
    ensures AllReasoned(Settle(s, p, v, rejecting))
  {
    hide Inv, AllReasoned, Settle, Quiet, Extends;
    SettleKeeps(s, p, v, rejecting);
    InvJobs(Settle(s, p, v, rejecting));
    SettleQuiet(s, p, v, rejecting);
    SettleWork(s, p, v, rejecting);
    QuietReasoned(s, Settle(s, p, v, rejecting));
  }

  lemma PublishReasoned(s: State)
    requires Inv(s) && AllReasoned(s) && Enabled(s, RunJob) && !s.work[0].Invoke?
    ensures AllReasoned(RunFirst(s))
  {
    hide Inv, HasReason, Bound, RunFirst;
    var t := RunFirst(s);
    FirstPublishes(s);
    assert Next(s, RunJob) == t;
    forall p | 0 <= p < |t.proms| ensures Reasoned(t, p) {
      if s.proms[p].state != Pending {
        ReasonedNext(s, RunJob, p);
      }
    }
  }

  lemma FirstPublishes(s: State)
    requires Inv(s) && Enabled(s, RunJob) && !s.work[0].Invoke?
    ensures var t := RunFirst(s);
      |t.proms| == |s.proms| && forall p :: 0 <= p < |s.proms| && s.proms[p].state == Pending ==> t.proms[p].state == Pending
  {
    hide RanOk, RecordsOk, PublishOnce, Ordered, GathersOk, SubsOk;
    assert JobOk(s, s.work[0]);
  }

  /** The promise of a new call is pending, or has its array if there is nothing to wait for. */
  lemma CallReasoned(s: State, inputs: seq<Value>)
    requires Inv(s) && AllReasoned(s) && forall i :: 0 <= i < |inputs| ==> Known(s, inputs[i])
    ensures AllReasoned(All(s, inputs))
  {
    hide Inv, HasReason, Bound, All, GatherFrom, Extends;
    var t := All(s, inputs);
    AllKeeps(s, inputs);
    InvJobs(t);
    AllWork(s, inputs);
    NewCallOnly(s, inputs);
    forall p | 0 <= p < |t.proms| ensures Reasoned(t, p) {
      if p < |s.proms| && s.proms[p].state != Pending {
        ReasonedGrows(s, t, p);
      }
    }
  }

  lemma {:induction false} GatherQuiet(s: State, inputs: seq<Value>, all: nat, target: Id, n: nat)
    requires n <= |inputs| && forall i :: 0 <= i < n ==> Known(s, inputs[i])
    ensures Quiet(s, GatherFrom(s, inputs, all, target, n)) && GatherFrom(s, inputs, all, target, n).gathers == s.gathers
    decreases n
  {
    hide Then, Quiet;
    QuietSelf(s);
    if n > 0 {
      GatherQuiet(s, inputs, all, target, n - 1);
      var t := GatherFrom(s, inputs, all, target, n - 1);
      assert Known(s, inputs[n - 1]);
      if inputs[n - 1].Prom? {
        ThenQuiet(t, inputs[n - 1].p, Slot(all, n - 1), GatherReason(target));
        ThenMade(t, inputs[n - 1].p, Slot(all, n - 1), GatherReason(target));
        QuietJoin(s, t, Then(t, inputs[n - 1].p, Slot(all, n - 1), GatherReason(target)));
      }
    }
  }

  lemma NewCallOnly(s: State, inputs: seq<Value>)
    requires forall i :: 0 <= i < |inputs| ==> Known(s, inputs[i])
    ensures var t := All(s, inputs);
      && |s.proms| < |t.proms| && |s.gathers| < |t.gathers|
      && (forall p :: 0 <= p < |t.proms| && p != |s.proms| && t.proms[p].role.Gathers? && t.proms[p].state != Pending ==>
            p < |s.proms| && s.proms[p].state != Pending)
      && var r := t.proms[|s.proms|];
         r.role == Gathers(|s.gathers|)
         && (r.state != Pending ==> Bound(t, |s.proms|, Fulfilled) && r.data == Results(|s.gathers|))
  {
    hide GatherFrom, Slots, Empty;
    var g := Gathering(s, inputs);
    forall i | 0 <= i < |inputs| ensures Known(g, inputs[i]) {
      assert Known(s, inputs[i]);
    }
    GatherQuiet(g, inputs, |s.gathers|, |s.proms|, |inputs|);
    var u, t := GatherFrom(g, inputs, |s.gathers|, |s.proms|, |inputs|), All(s, inputs);
    if Empty(Slots(inputs)) == 0 && u.proms[|s.proms|].state == Pending {
      assert t.work[|u.work|] == PublishFulfillment(|s.proms|);
    }
  }

  lemma NextReasoned(s: State, op: Op)
    requires Inv(s) && GathersHold(s) && AllReasoned(s)
    ensures AllReasoned(Next(s, op))
  {
    hide Inv, AllReasoned, GathersHold, RunFirst, Settle, Resolve, Seal, Then, All, Servable, Quiet, Extends;
    if Enabled(s, op) {
      NextKeeps(s, op);
      InvJobs(Next(s, op));
      match op
      case New =>
        NewQuiet(s);
        QuietReasoned(s, Next(s, op));
      case Subscribe(p, f, r) =>
        ThenQuiet(s, p, f, r);
        ThenWork(s, p, f, r);
        QuietReasoned(s, Next(s, op));
      case ResolveOwned(p, v) =>
        ResolveQuiet(s, p, v);
        ResolveWork(s, p, v);
        QuietReasoned(s, Next(s, op));
      case RejectOwned(p, v) =>
        SealQuiet(s, p, v);
        ResolveWork(s, p, v);
        QuietReasoned(s, Next(s, op));
      case GatherAll(inputs) => CallReasoned(s, inputs);
      case BeginFlush => FlagsReasoned(s, Next(s, op));
      case EndFlush => FlagsReasoned(s, Next(s, op));
      case RunJob =>
        if s.work[0].Invoke? {
          ServingNow(s);
          ServeReasoned(s, s.work[0].sub);
          FirstServes(s);
        } else {
          PublishReasoned(s);
        }
      case Returned(v) => EndReasoned(s, op);
      case Thrown(e) => EndReasoned(s, op);
    }
  }

  lemma NewQuiet(s: State)
    ensures Quiet(s, NewPromise(s, Owned))
  {
  }

  lemma FirstServes(s: State)
    requires Enabled(s, RunJob) && s.work[0].Invoke?
    ensures RunFirst(s) == Serve(s.(work := s.work[1..]), s.work[0].sub)
  {
  }

  lemma ServingNow(s: State)
    requires Inv(s) && Enabled(s, RunJob) && s.work[0].Invoke?
    ensures Serving(s, s.work[0].sub) && SubOk(s, s.work[0].sub) && Servable(s, s.work[0].sub)
    ensures Settled(s.proms[s.work[0].sub.owner])
  {
    hide RanOk, RecordsOk, PublishOnce, Ordered, GathersOk, SubsOk;
    assert JobOk(s, s.work[0]);
    TakenServable(s, s.work[0].sub);
  }

  lemma EndReasoned(s: State, op: Op)
    requires Inv(s) && AllReasoned(s) && Enabled(s, op) && (op.Returned? || op.Thrown?)
    ensures AllReasoned(Next(s, op))
  {
    hide Inv, AllReasoned, Settle, Seal, Quiet, Extends;
    RunningServable(s);
    Stopped(s);
    var t, x := s.(current := None), s.current.value;
    FlagsReasoned(s, t);
    ChildRole(s, x);
    if op.Returned? {
      SettleReasoned(t, x.child, op.v, false);
    } else {
      var u := Reject(t, x.child, op.e);
      RejectKeeps(t, x.child, op.e);
      InvJobs(u);
      SealQuiet(t, x.child, op.e);
      ResolveWork(t, x.child, op.e);
      QuietReasoned(t, u);
      SealRole(t, x.child, op.e);
      SettleReasoned(u, x.child, s.proms[x.owner].data, false);
    }
  }

  lemma {:induction false} RunReasoned(ops: seq<Op>, i: nat)
    requires i <= |ops|
    ensures AllReasoned(States(Next, Start(), ops)[i])
    decreases i
  {
    hide Inv, Next, GathersHold, Reasoned;
    if i > 0 {
      RunReasoned(ops, i - 1);
      RunGathers(ops, i - 1);
      StatesChain(Next, Start(), ops);
      NextReasoned(States(Next, Start(), ops)[i - 1], ops[i - 1]);
    }
  }

  /** In every run: a rejected promise of `Promise.all` has the reason of one of its inputs that is rejected. */
  lemma AllReason(ops: seq<Op>, i: nat, a: nat)
    requires i <= |ops| && a < |States(Next, Start(), ops)[i].gathers|
    ensures var s := States(Next, Start(), ops)[i]; var g := s.gathers[a];
      && g.target < |s.proms|
      && (s.proms[g.target].state == Rejected ==>
            exists k :: 0 <= k < |g.inputs| && RejectedWith(s, g.inputs[k], s.proms[g.target].data))
  {
    hide Inv, Next, GathersHold;
    var s := States(Next, Start(), ops)[i];
    RunInv(ops, i);
    RunReasoned(ops, i);
    TargetOf(s, a);
    assert Reasoned(s, s.gathers[a].target);
  }

  lemma TargetOf(s: State, a: nat)
    requires Inv(s) && a < |s.gathers|
    ensures s.gathers[a].target < |s.proms| && s.proms[s.gathers[a].target].role == Gathers(a)
  {
    assert GatherOk(s, a);
  }
}
