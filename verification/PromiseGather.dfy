/** When the promise of `Promise.all` settles (libjs/init/promise.js): as soon as the queue is drained, it is fulfilled
    if and only if all its inputs are, and rejected if and only if one of them is. */
module PromiseGather {
  import opened Promise
  import opened PromiseInv
  import opened PromiseSteps
  import opened PromiseRuns
  import opened Runs

  // ---------------------------------------------------------------------------------------------
  // What holds of every call of Promise.all

  predicate IsSlotSub(s: State, x: Sub, all: nat, index: nat)
    requires all < |s.gathers| && index < |s.gathers[all].inputs|
  {
    && Prom(x.owner) == s.gathers[all].inputs[index] && x.fulfilled == Slot(all, index)
    && x.rejected == GatherReason(s.gathers[all].target)
  }

  /** Each input that is a promise has its subscriber. */
  ghost predicate Subscribed(s: State, all: nat)
    requires all < |s.gathers|
  {
    forall i :: 0 <= i < |s.gathers[all].inputs| && s.gathers[all].inputs[i].Prom? ==>
      exists k :: 0 <= k < |s.made| && IsSlotSub(s, s.made[k], all, i)
  }

  /** A subscriber that rejects the promise for all is one of those. */
  predicate ReasonOk(s: State, x: Sub) {
    && !x.fulfilled.GatherReason?
    && (x.rejected.GatherReason? ==>
          && x.fulfilled.Slot? && x.fulfilled.all < |s.gathers|
          && x.fulfilled.index < |s.gathers[x.fulfilled.all].inputs| && IsSlotSub(s, x, x.fulfilled.all, x.fulfilled.index))
  }

  /** What a subscriber that was served has left. */
  predicate ServedOk(s: State, x: Sub) {
    && x.owner < |s.proms| && Settled(s.proms[x.owner])
    && (x.fulfilled.Slot? && s.proms[x.owner].state == Fulfilled ==>
          && x.fulfilled.all < |s.gathers| && x.fulfilled.index < |s.gathers[x.fulfilled.all].results|
          && s.gathers[x.fulfilled.all].results[x.fulfilled.index].Some?)
    && (x.rejected.GatherReason? && s.proms[x.owner].state == Rejected ==>
          x.rejected.target < |s.proms| && s.proms[x.rejected.target].state != Pending)
  }

  /** Some input is rejected. */
  ghost predicate HasRejected(s: State, all: nat)
    requires all < |s.gathers|
  {
    exists i :: 0 <= i < |s.gathers[all].inputs| && RejectedInput(s, s.gathers[all].inputs[i])
  }

  predicate RejectedInput(s: State, input: Value) {
    input.Prom? && input.p < |s.proms| && s.proms[input.p].state == Rejected
  }

  ghost predicate Rejecting(s: State, p: Id)
    requires p < |s.proms|
  {
    s.proms[p].state == Rejected || PublishRejection(p) in s.work
  }

  /** The last slot settles the promise for all, and only a rejected input rejects it. */
  ghost predicate TargetSettles(s: State, all: nat)
    requires all < |s.gathers|
  {
    var g := s.gathers[all];
    && g.target < |s.proms| && s.proms[g.target].role == Gathers(all)
    && (g.remaining == 0 ==> s.proms[g.target].state != Pending)
    && (Rejecting(s, g.target) ==> HasRejected(s, all))
  }

  ghost predicate AllReasons(s: State) {
    forall k :: 0 <= k < |s.made| ==> ReasonOk(s, s.made[k])
  }

  ghost predicate CallOk(s: State, all: nat)
    requires all < |s.gathers|
  {
    Subscribed(s, all) && TargetSettles(s, all)
  }

  /** The first `n` subscribers served. */
  ghost predicate Served(s: State, n: nat)
    requires n <= |s.ran|
  {
    forall k :: 0 <= k < n ==> ServedOk(s, s.ran[k])
  }

  /** Of the first `calls` calls, with the effect of the first `n` subscribers served. */
  ghost predicate Sound(s: State, n: nat, calls: nat)
    requires n <= |s.ran| && calls <= |s.gathers|
  {
    (forall a :: 0 <= a < calls ==> CallOk(s, a)) && AllReasons(s) && Served(s, n)
  }

  ghost predicate GathersHold(s: State) {
    Sound(s, |s.ran|, |s.gathers|)
  }

  // ---------------------------------------------------------------------------------------------
  // Steps that do not concern Promise.all

  /** No call changes, nothing is published, and no promise for all is going to be rejected that was not before. */
  ghost predicate Calm(s: State, t: State) {
    && |s.proms| <= |t.proms| && t.gathers == s.gathers && t.ran == s.ran
    && s.made <= t.made && (forall k :: |s.made| <= k < |t.made| ==> ReasonOk(t, t.made[k]))
    && (forall p :: 0 <= p < |s.proms| ==> CalmRecord(s.proms[p], t.proms[p]))
    && (forall p: Id :: PublishRejection(p) in t.work ==>
          PublishRejection(p) in s.work || p >= |s.proms| || !s.proms[p].role.Gathers?)
  }

  predicate CalmRecord(r: Record, q: Record) {
    q.role == r.role && (q.state == r.state || (r.state == Pending && q.state == Sealed))
  }

  lemma CalmSelf(s: State)
    ensures Calm(s, s)
  {
  }

  lemma CalmJoin(s: State, t: State, u: State)
    requires Calm(s, t) && Calm(t, u)
    ensures Calm(s, u)
  {
    forall p | 0 <= p < |s.proms| ensures CalmRecord(s.proms[p], u.proms[p]) {
      assert CalmRecord(s.proms[p], t.proms[p]) && CalmRecord(t.proms[p], u.proms[p]);
    }
    forall p: Id | PublishRejection(p) in u.work
      ensures PublishRejection(p) in s.work || p >= |s.proms| || !s.proms[p].role.Gathers?
    {
      if p < |s.proms| {
        assert CalmRecord(s.proms[p], t.proms[p]);
      }
    }
    forall k | |s.made| <= k < |u.made| ensures ReasonOk(u, u.made[k]) {
      if k < |t.made| {
        assert u.made[k] == t.made[k];
      }
    }
  }

  lemma CalmReasons(s: State, t: State)
    requires Calm(s, t) && AllReasons(s)
    ensures AllReasons(t)
  {
    forall k | 0 <= k < |t.made| ensures ReasonOk(t, t.made[k]) {
      if k < |s.made| {
        assert ReasonOk(s, s.made[k]) && t.made[k] == s.made[k];
      }
    }
  }

  lemma CalmServed(s: State, t: State, x: Sub)
    requires Calm(s, t) && ServedOk(s, x)
    ensures ServedOk(t, x)
  {
    assert CalmRecord(s.proms[x.owner], t.proms[x.owner]);
    if x.rejected.GatherReason? && x.rejected.target < |s.proms| {
      assert CalmRecord(s.proms[x.rejected.target], t.proms[x.rejected.target]);
    }
  }

  lemma CalmSettles(s: State, t: State, a: nat)
    requires Calm(s, t) && a < |s.gathers| && TargetSettles(s, a)
    ensures TargetSettles(t, a)
  {
    var g := s.gathers[a];
    assert CalmRecord(s.proms[g.target], t.proms[g.target]);
    if HasRejected(s, a) {
      var i :| 0 <= i < |g.inputs| && RejectedInput(s, g.inputs[i]);
      assert CalmRecord(s.proms[g.inputs[i].p], t.proms[g.inputs[i].p]);
      assert RejectedInput(t, g.inputs[i]);
    }
  }

  lemma CalmKeeps(s: State, t: State, n: nat, calls: nat)
    requires Calm(s, t) && n <= |s.ran| && calls <= |s.gathers| && Sound(s, n, calls)
    ensures t.ran == s.ran && t.gathers == s.gathers && Sound(t, n, calls)
  {
    hide Calm, TargetSettles, ServedOk, Subscribed, ReasonOk;
    CalmReasons(s, t);
    CalmSizes(s, t);
    forall k | 0 <= k < n ensures ServedOk(t, t.ran[k]) {
      CalmServed(s, t, s.ran[k]);
    }
    forall a | 0 <= a < calls ensures CallOk(t, a) {
      assert CallOk(s, a);
      CalmSettles(s, t, a);
      SameSubscribed(s, t, a);
    }
  }

  lemma CalmSizes(s: State, t: State)
    requires Calm(s, t)
    ensures t.ran == s.ran && t.gathers == s.gathers && |s.proms| <= |t.proms| && s.made <= t.made
  {
  }

  // ---------------------------------------------------------------------------------------------
  // The functions of the polyfill that are calm

  lemma SealCalm(s: State, p: Id, v: Value, job: Job)
    requires p < |s.proms| && (job == PublishFulfillment(p) || (job == PublishRejection(p) && !s.proms[p].role.Gathers?))
    ensures Calm(s, Seal(s, p, v, job))
  {
  }

  lemma ThenCalm(s: State, owner: Id, f: Handler, r: Handler)
    requires owner < |s.proms| && ReasonOk(s, Sub(|s.made|, owner, |s.proms|, f, r))
    ensures Calm(s, Then(s, owner, f, r))
  {
  }

  lemma ThenableCalm(s: State, p: Id, v: Value)
    requires p < |s.proms| && Known(s, v) && (v == Prom(p) ==> !s.proms[p].role.Gathers?)
    ensures Calm(s, HandleThenable(s, p, v).0)
  {
    hide Seal, Then, Calm;
    CalmSelf(s);
    if v == Prom(p) {
      SealCalm(s, p, TYPE_ERROR, PublishRejection(p));
    } else if v.Prom? {
      ThenCalm(s, v.p, AdoptValue(p, v.p), AdoptReason(p));
    }
  }

  lemma ResolveCalm(s: State, p: Id, v: Value)
    requires p < |s.proms| && Known(s, v)
    ensures Calm(s, Resolve(s, p, v))
  {
    hide Seal, Then, Calm;
    SealCalm(s, p, v, PublishFulfillment(p));
    if v != Prom(p) {
      ThenableCalm(s, p, v);
    }
  }

  lemma SettleCalm(s: State, child: Id, v: Value, rejecting: bool)
    requires child < |s.proms| && Known(s, v) && !s.proms[child].role.Gathers?
    ensures Calm(s, Settle(s, child, v, rejecting))
  {
    hide Seal, Then, Resolve, Calm;
    ThenableCalm(s, child, v);
    SealCalm(s, child, v, PublishRejection(child));
    ResolveCalm(s, child, v);
  }

  // ---------------------------------------------------------------------------------------------
  // Publication

  lemma PublishGathers(s: State, p: Id, status: Status)
    requires Inv(s) && p < |s.proms| && s.work != [] && GathersHold(s)
    requires s.work[0] == (if status == Fulfilled then PublishFulfillment(p) else PublishRejection(p))
    requires status == Fulfilled || status == Rejected
    ensures GathersHold(PublishWith(s.(work := s.work[1..]), p, status))
  {
    hide Inv, ServedOk, TargetSettles, Subscribed, ReasonOk;
    var t := PublishWith(s.(work := s.work[1..]), p, status);
    WasSealed(s, p);
    forall k | 0 <= k < |s.ran| ensures ServedOk(t, t.ran[k]) {
      PublishServed(s, t, p, s.ran[k]);
    }
    forall a | 0 <= a < |t.gathers| ensures CallOk(t, a) {
      assert CallOk(s, a);
      PublishSettles(s, t, p, a);
      SameSubscribed(s, t, a);
    }
    forall k | 0 <= k < |t.made| ensures ReasonOk(t, t.made[k]) {
      SameReason(s, t, t.made[k]);
    }
  }

  lemma WasSealed(s: State, p: Id)
    requires Inv(s) && p < |s.proms| && s.work != []
    requires s.work[0] == PublishFulfillment(p) || s.work[0] == PublishRejection(p)
    ensures s.proms[p].state == Sealed
  {
    assert JobOk(s, s.work[0]);
  }

  lemma SameSubscribed(s: State, t: State, a: nat)
    requires t.gathers == s.gathers && s.made <= t.made && a < |s.gathers| && Subscribed(s, a)
    ensures Subscribed(t, a)
  {
    forall i | 0 <= i < |t.gathers[a].inputs| && t.gathers[a].inputs[i].Prom?
      ensures exists k :: 0 <= k < |t.made| && IsSlotSub(t, t.made[k], a, i)
    {
      var k :| 0 <= k < |s.made| && IsSlotSub(s, s.made[k], a, i);
      assert IsSlotSub(t, t.made[k], a, i);
    }
  }

  lemma SameReason(s: State, t: State, x: Sub)
    requires t.gathers == s.gathers && ReasonOk(s, x)
    ensures ReasonOk(t, x)
  {
  }

  /** Only the state of `p` has changed, from sealed to settled. */
  ghost predicate OnlySettles(s: State, t: State, p: Id) {
    && p < |s.proms| == |t.proms| && t.gathers == s.gathers && s.proms[p].state == Sealed && Settled(t.proms[p])
    && t.proms[p].role == s.proms[p].role
    && forall q :: 0 <= q < |s.proms| && q != p ==> t.proms[q] == s.proms[q]
  }

  lemma PublishServed(s: State, t: State, p: Id, x: Sub)
    requires OnlySettles(s, t, p) && ServedOk(s, x)
    ensures ServedOk(t, x)
  {
  }

  lemma PublishSettles(s: State, t: State, p: Id, a: nat)
    requires OnlySettles(s, t, p) && a < |s.gathers| && TargetSettles(s, a)
    requires t.proms[p].state == Rejected ==> PublishRejection(p) in s.work
    requires forall q :: PublishRejection(q) in t.work ==> PublishRejection(q) in s.work
    ensures TargetSettles(t, a)
  {
    var g := s.gathers[a];
    if HasRejected(s, a) {
      var i :| 0 <= i < |g.inputs| && RejectedInput(s, g.inputs[i]);
      assert RejectedInput(t, g.inputs[i]);
    }
  }

  // ---------------------------------------------------------------------------------------------
  // Serving a subscriber

  /** The subscriber is recorded as served, and its effect is still to come. */
  lemma TakenGathers(s: State)
    requires s.work != [] && s.work[0].Invoke? && GathersHold(s)
    ensures var t := TakenUp(s);
      t.ran == s.ran + [s.work[0].sub] && t.gathers == s.gathers && Sound(t, |s.ran|, |s.gathers|)
  {
    hide ServedOk, TargetSettles, Subscribed, ReasonOk;
    var t := TakenUp(s);
    forall k | 0 <= k < |s.ran| ensures ServedOk(t, t.ran[k]) {
      assert ServedOk(s, s.ran[k]) && t.ran[k] == s.ran[k];
      SameServed(s, t, s.ran[k]);
    }
    forall a | 0 <= a < |t.gathers| ensures CallOk(t, a) {
      assert CallOk(s, a);
      SameSettles(s, t, a);
      SameSubscribed(s, t, a);
    }
    forall k | 0 <= k < |t.made| ensures ReasonOk(t, t.made[k]) {
      SameReason(s, t, t.made[k]);
    }
  }

  lemma SameServed(s: State, t: State, x: Sub)
    requires t.proms == s.proms && t.gathers == s.gathers && ServedOk(s, x)
    ensures ServedOk(t, x)
  {
  }

  lemma SameSettles(s: State, t: State, a: nat)
    requires t.proms == s.proms && t.gathers == s.gathers && a < |s.gathers| && TargetSettles(s, a)
    requires forall q :: PublishRejection(q) in t.work ==> PublishRejection(q) in s.work
    ensures TargetSettles(t, a)
  {
    if HasRejected(s, a) {
      var i :| 0 <= i < |s.gathers[a].inputs| && RejectedInput(s, s.gathers[a].inputs[i]);
      assert RejectedInput(t, t.gathers[a].inputs[i]);
    }
  }

  /** The promise for all is rejected by a subscriber whose owner is a rejected input. */
  lemma RejectGathers(s: State, x: Sub, v: Value, n: nat)
    requires n <= |s.ran| && Sound(s, n, |s.gathers|) && x.rejected.GatherReason? && ReasonOk(s, x)
    requires x.owner < |s.proms| && s.proms[x.owner].state == Rejected && x.rejected.target < |s.proms|
    ensures var t := Reject(s, x.rejected.target, v);
      t.ran == s.ran && t.gathers == s.gathers && Sound(t, n, |s.gathers|) && ServedOk(t, x)
  {
    hide Subscribed, ReasonOk, TargetSettles, ServedOk;
    var target := x.rejected.target;
    var t := Reject(s, target, v);
    OnlySealed(s, target, v);
    forall k | 0 <= k < n ensures ServedOk(t, t.ran[k]) {
      SealedServed(s, t, target, s.ran[k]);
    }
    ReasonCall(s, x);
    forall a | 0 <= a < |t.gathers| ensures CallOk(t, a) {
      assert CallOk(s, a) && CallOk(s, x.fulfilled.all);
      SameSubscribed(s, t, a);
      SealedSettles(s, t, x, a);
    }
    forall k | 0 <= k < |t.made| ensures ReasonOk(t, t.made[k]) {
      SameReason(s, t, t.made[k]);
    }
    SealedServedNow(t, x);
  }

  lemma ReasonCall(s: State, x: Sub)
    requires ReasonOk(s, x) && x.rejected.GatherReason?
    ensures x.fulfilled.Slot? && x.fulfilled.all < |s.gathers|
  {
  }

  ghost predicate Sealing(s: State, t: State, p: Id) {
    && p < |s.proms| == |t.proms| && t.gathers == s.gathers && t.ran == s.ran && t.made == s.made
    && CalmRecord(s.proms[p], t.proms[p]) && t.proms[p].state != Pending
    && (forall q :: 0 <= q < |s.proms| && q != p ==> t.proms[q] == s.proms[q])
    && (forall q :: PublishRejection(q) in t.work ==> PublishRejection(q) in s.work || q == p)
  }

  lemma OnlySealed(s: State, p: Id, v: Value)
    requires p < |s.proms|
    ensures Sealing(s, Reject(s, p, v), p)
  {
  }

  lemma SealedServed(s: State, t: State, p: Id, x: Sub)
    requires Sealing(s, t, p) && ServedOk(s, x)
    ensures ServedOk(t, x)
  {
  }

  lemma SealedServedNow(t: State, x: Sub)
    requires x.owner < |t.proms| && t.proms[x.owner].state == Rejected && x.rejected.GatherReason?
    requires x.rejected.target < |t.proms| && t.proms[x.rejected.target].state != Pending
    ensures ServedOk(t, x)
  {
  }

  lemma SealedSettles(s: State, t: State, x: Sub, a: nat)
    requires x.rejected.GatherReason? && Sealing(s, t, x.rejected.target) && ReasonOk(s, x)
    requires x.owner < |s.proms| && s.proms[x.owner].state == Rejected
    requires a < |s.gathers| && TargetSettles(s, a) && x.fulfilled.Slot? && x.fulfilled.all < |s.gathers|
    requires TargetSettles(s, x.fulfilled.all)
    ensures TargetSettles(t, a)
  {
    var g := s.gathers[a];
    if HasRejected(s, a) {
      var i :| 0 <= i < |g.inputs| && RejectedInput(s, g.inputs[i]);
      assert RejectedInput(t, g.inputs[i]);
    }
    if g.target == x.rejected.target {
      assert s.gathers[a].inputs[x.fulfilled.index] == Prom(x.owner);
      assert RejectedInput(t, g.inputs[x.fulfilled.index]);
    }
  }

  // ---------------------------------------------------------------------------------------------
  // Filling a slot

  /** The calls are the same but for results and counters, and what is filled stays filled. */
  ghost predicate OnlyFills(s: State, t: State) {
    && |t.gathers| == |s.gathers|
    && forall a :: 0 <= a < |s.gathers| ==> FillsCall(s.gathers[a], t.gathers[a])
  }

  predicate FillsCall(g: Gather, h: Gather) {
    && h.inputs == g.inputs && h.target == g.target && |h.results| == |g.results|
    && forall i :: 0 <= i < |g.results| && g.results[i].Some? ==> h.results[i].Some?
  }

  lemma FillsSubscribed(s: State, t: State, a: nat)
    requires OnlyFills(s, t) && t.made == s.made && a < |s.gathers| && Subscribed(s, a)
    ensures Subscribed(t, a)
  {
    assert FillsCall(s.gathers[a], t.gathers[a]);
    forall i | 0 <= i < |t.gathers[a].inputs| && t.gathers[a].inputs[i].Prom?
      ensures exists k :: 0 <= k < |t.made| && IsSlotSub(t, t.made[k], a, i)
    {
      var k :| 0 <= k < |s.made| && IsSlotSub(s, s.made[k], a, i);
      assert IsSlotSub(t, t.made[k], a, i);
    }
  }

  lemma FillsReason(s: State, t: State, x: Sub)
    requires OnlyFills(s, t) && ReasonOk(s, x)
    ensures ReasonOk(t, x)
  {
    if x.rejected.GatherReason? {
      assert FillsCall(s.gathers[x.fulfilled.all], t.gathers[x.fulfilled.all]);
    }
  }

  lemma FillsServed(s: State, t: State, x: Sub)
    requires OnlyFills(s, t) && t.proms == s.proms && ServedOk(s, x)
    ensures ServedOk(t, x)
  {
    if x.fulfilled.Slot? && x.fulfilled.all < |s.gathers| {
      assert FillsCall(s.gathers[x.fulfilled.all], t.gathers[x.fulfilled.all]);
    }
  }

  lemma FillsRejected(s: State, t: State, a: nat)
    requires OnlyFills(s, t) && t.proms == s.proms && a < |s.gathers| && HasRejected(s, a)
    ensures HasRejected(t, a)
  {
    var i :| 0 <= i < |s.gathers[a].inputs| && RejectedInput(s, s.gathers[a].inputs[i]);
    assert FillsCall(s.gathers[a], t.gathers[a]);
    assert RejectedInput(t, t.gathers[a].inputs[i]);
  }

  function Stored(s: State, all: nat, index: nat, v: Value): State
    requires all < |s.gathers| && index < |s.gathers[all].results|
  {
    var g := s.gathers[all];
    s.(gathers := s.gathers[all := g.(results := g.results[index := Some(v)], remaining := g.remaining - 1)])
  }

  /** The value is stored; the call itself is left to the last step. */
  lemma StoredCalls(s: State, all: nat, index: nat, v: Value, n: nat)
    requires n <= |s.ran| && Sound(s, n, |s.gathers|) && all < |s.gathers| && index < |s.gathers[all].results|
    ensures var t := Stored(s, all, index, v);
      && OnlyFills(s, t) && AllReasons(t) && Served(t, n)
      && (forall a :: 0 <= a < |t.gathers| && a != all ==> CallOk(t, a))
      && Subscribed(t, all)
  {
    hide ServedOk, ReasonOk, Subscribed;
    var t := Stored(s, all, index, v);
    assert OnlyFills(s, t);
    forall k | 0 <= k < n ensures ServedOk(t, t.ran[k]) {
      FillsServed(s, t, s.ran[k]);
    }
    forall k | 0 <= k < |t.made| ensures ReasonOk(t, t.made[k]) {
      FillsReason(s, t, t.made[k]);
    }
    forall a | 0 <= a < |t.gathers| ensures Subscribed(t, a) && (a != all ==> CallOk(t, a)) {
      assert CallOk(s, a);
      FillsSubscribed(s, t, a);
      if HasRejected(s, a) {
        FillsRejected(s, t, a);
      }
    }
  }

  lemma FillGathers(s: State, x: Sub, v: Value, n: nat)
    requires n <= |s.ran| && Sound(s, n, |s.gathers|) && x.fulfilled.Slot? && x.fulfilled.all < |s.gathers|
    requires x.fulfilled.index < |s.gathers[x.fulfilled.all].results| && s.gathers[x.fulfilled.all].target < |s.proms|
    requires x.owner < |s.proms| && s.proms[x.owner].state == Fulfilled
    ensures var t := FillSlot(s, x.fulfilled.all, x.fulfilled.index, v);
      t.ran == s.ran && |t.gathers| == |s.gathers| && Sound(t, n, |t.gathers|) && ServedOk(t, x)
  {
    hide ReasonOk, Subscribed, Served;
    var all := x.fulfilled.all;
    var t, g := Stored(s, all, x.fulfilled.index, v), s.gathers[all];
    StoredCalls(s, all, x.fulfilled.index, v, n);
    assert CallOk(s, all);
    if HasRejected(s, all) {
      FillsRejected(s, t, all);
    }
    if g.remaining - 1 == 0 {
      LastSlot(t, all, n);
      ResolveCalm(t, g.target, Results(all));
      CalmServed(t, Resolve(t, g.target, Results(all)), x);
    }
  }

  /** The last slot resolves the promise for all. */
  lemma LastSlot(t: State, all: nat, n: nat)
    requires n <= |t.ran| && all < |t.gathers| && AllReasons(t) && Served(t, n) && Subscribed(t, all)
    requires forall a :: 0 <= a < |t.gathers| && a != all ==> CallOk(t, a)
    requires var g := t.gathers[all];
      && g.target < |t.proms| && t.proms[g.target].role == Gathers(all) && (Rejecting(t, g.target) ==> HasRejected(t, all))
    ensures var u := Resolve(t, t.gathers[all].target, Results(all));
      u.ran == t.ran && u.gathers == t.gathers && Sound(u, n, |u.gathers|)
  {
    hide ReasonOk, Subscribed, ServedOk, TargetSettles, Rejecting;
    var target := t.gathers[all].target;
    var u := Resolve(t, target, Results(all));
    ResolveCalm(t, target, Results(all));
    CalmSizes(t, u);
    CalmReasons(t, u);
    forall k | 0 <= k < n ensures ServedOk(u, u.ran[k]) {
      CalmServed(t, u, t.ran[k]);
    }
    forall a | 0 <= a < |u.gathers| ensures CallOk(u, a) {
      assert a == all || CallOk(t, a);
      SameSubscribed(t, u, a);
      if a == all {
        FulfilledSettles(t, all);
      } else {
        CalmSettles(t, u, a);
      }
    }
  }

  lemma FulfilledSettles(t: State, all: nat)
    requires all < |t.gathers|
    requires var g := t.gathers[all];
      && g.target < |t.proms| && t.proms[g.target].role == Gathers(all) && (Rejecting(t, g.target) ==> HasRejected(t, all))
    ensures TargetSettles(Resolve(t, t.gathers[all].target, Results(all)), all)
  {
    var g := t.gathers[all];
    var u := Resolve(t, g.target, Results(all));
    if HasRejected(t, all) {
      var i :| 0 <= i < |g.inputs| && RejectedInput(t, g.inputs[i]);
      assert RejectedInput(u, u.gathers[all].inputs[i]);
    }
  }

  // ---------------------------------------------------------------------------------------------
  // The whole of serving a subscriber

  lemma ServedPlain(t: State, x: Sub)
    requires x.owner < |t.proms| && Settled(t.proms[x.owner])
    requires !Chosen(t, x).Slot? && !Chosen(t, x).GatherReason?
    ensures ServedOk(t, x)
  {
  }

  lemma OneMoreServed(t: State, n: nat, x: Sub)
    requires |t.ran| == n + 1 && t.ran[n] == x && Sound(t, n, |t.gathers|) && ServedOk(t, x)
    ensures GathersHold(t)
  {
    hide ServedOk, CallOk, AllReasons;
  }

  /** What a callback that is not the program's does. */
  lemma InternalGathers(t: State, x: Sub, n: nat)
    requires Inv(t) && n <= |t.ran| && Sound(t, n, |t.gathers|) && SubOk(t, x) && ReasonOk(t, x)
    requires x.owner < |t.proms| && Settled(t.proms[x.owner]) && Known(t, t.proms[x.owner].data)
    requires HandlerIn(t, x.fulfilled) && HandlerIn(t, x.rejected)
    ensures var u := RunInternal(t, Chosen(t, x), t.proms[x.owner].data);
      !Chosen(t, x).User? && !Chosen(t, x).NoHandler? ==>
        u.ran == t.ran && |u.gathers| == |t.gathers| && Sound(u, n, |u.gathers|) && ServedOk(u, x)
  {
    hide Inv, Seal, Resolve, FillSlot, Sound, Calm, ServedOk;
    var h, v := Chosen(t, x), t.proms[x.owner].data;
    match h
    case AdoptValue(target, source) =>
      SealCalm(t, target, v, PublishFulfillment(target));
      ResolveCalm(t, target, v);
      CalmServes(t, RunInternal(t, h, v), x, n);
    case AdoptReason(target) =>
      SealCalm(t, target, v, PublishRejection(target));
      CalmServes(t, RunInternal(t, h, v), x, n);
    case GatherReason(target) => RejectGathers(t, x, v, n);
    case Slot(all, index) => FillGathers(t, x, v, n);
    case _ =>
  }

  lemma CalmServes(t: State, u: State, x: Sub, n: nat)
    requires Calm(t, u) && n <= |t.ran| && Sound(t, n, |t.gathers|)
    requires x.owner < |t.proms| && Settled(t.proms[x.owner]) && !Chosen(t, x).Slot? && !Chosen(t, x).GatherReason?
    ensures u.ran == t.ran && u.gathers == t.gathers && Sound(u, n, |u.gathers|) && ServedOk(u, x)
  {
    hide Calm, Sound, ServedOk;
    CalmKeeps(t, u, n, |t.gathers|);
    ServedPlain(t, x);
    CalmServed(t, u, x);
  }

  lemma ServeGathers(s: State, x: Sub)
    requires Inv(s) && Serving(s, x) && SubOk(s, x) && Servable(s, x) && GathersHold(s) && Registered(s, x)
    requires Settled(s.proms[x.owner])
    ensures GathersHold(Serve(s.(work := s.work[1..]), x))
  {
    hide Inv, RunInternal, Settle, Sound, Calm, ServedOk, ReasonOk;
    var t, v, h, n := TakenUp(s), s.proms[x.owner].data, Chosen(s, x), |s.ran|;
    TakeKeepsIt(s);
    TakenGathers(s);
    ChildRole(s, x);
    OfReason(s, x);
    if h.User? {
      var u := t.(current := Some(x));
      CurrentCalm(t, Some(x));
      CalmServes(t, u, x, n);
      OneMoreServed(u, n, x);
    } else if h.NoHandler? {
      var u := Settle(t, x.child, v, s.proms[x.owner].state != Fulfilled);
      SettleCalm(t, x.child, v, s.proms[x.owner].state != Fulfilled);
      CalmServes(t, u, x, n);
      OneMoreServed(u, n, x);
    } else {
      SubStaysTaken(s, x);
      InternalGathers(t, x, n);
      InternalKeeps(s, x);
      var u := RunInternal(t, h, v);
      assert Grows(t.proms[x.child], u.proms[x.child]);
      SettleCalm(u, x.child, UNDEFINED, false);
      CalmKeeps(u, Settle(u, x.child, UNDEFINED, false), n, |u.gathers|);
      CalmServed(u, Settle(u, x.child, UNDEFINED, false), x);
      OneMoreServed(Settle(u, x.child, UNDEFINED, false), n, x);
    }
  }

  lemma OfReason(s: State, x: Sub)
    requires GathersHold(s) && Registered(s, x)
    ensures ReasonOk(s, x) && ReasonOk(TakenWork(s), x)
  {
    assert ReasonOk(s, s.made[x.id]);
    SameReason(s, TakenWork(s), x);
  }

  function TakenWork(s: State): State {
    if s.work == [] || !s.work[0].Invoke? then s else TakenUp(s)
  }

  lemma SubStaysTaken(s: State, x: Sub)
    requires Serving(s, x) && SubOk(s, x) && Servable(s, x)
    ensures SubOk(TakenUp(s), x) && Chosen(TakenUp(s), x) == Chosen(s, x)
  {
  }

  lemma CurrentCalm(t: State, current: Option<Sub>)
    ensures Calm(t, t.(current := current))
  {
  }

  // ---------------------------------------------------------------------------------------------
  // A call of Promise.all

  /** The subscriptions of the first `m` inputs. */
  ghost predicate SubscribedTo(s: State, all: nat, m: nat)
    requires all < |s.gathers|
  {
    forall i :: 0 <= i < m && i < |s.gathers[all].inputs| && s.gathers[all].inputs[i].Prom? ==>
      exists k :: 0 <= k < |s.made| && IsSlotSub(s, s.made[k], all, i)
  }

  lemma {:induction false} GatherFromCalm(s: State, inputs: seq<Value>, all: nat, n: nat)
    requires n <= |inputs| && (forall i :: 0 <= i < n ==> Known(s, inputs[i]))
    requires all < |s.gathers| && s.gathers[all].inputs == inputs
    ensures var t := GatherFrom(s, inputs, all, s.gathers[all].target, n);
      Calm(s, t) && t.gathers == s.gathers && SubscribedTo(t, all, n)
    decreases n
  {
    hide Then, Calm;
    var target := s.gathers[all].target;
    if n == 0 {
      CalmSelf(s);
    } else {
      GatherFromCalm(s, inputs, all, n - 1);
      var t := GatherFrom(s, inputs, all, target, n - 1);
      assert Known(s, inputs[n - 1]);
      if inputs[n - 1].Prom? {
        var u := Then(t, inputs[n - 1].p, Slot(all, n - 1), GatherReason(target));
        ThenCalm(t, inputs[n - 1].p, Slot(all, n - 1), GatherReason(target));
        CalmJoin(s, t, u);
        ThenSubscribes(t, inputs[n - 1].p, all, n - 1);
      }
    }
  }

  lemma ThenSubscribes(t: State, owner: Id, all: nat, n: nat)
    requires owner < |t.proms| && all < |t.gathers| && n < |t.gathers[all].inputs| && t.gathers[all].inputs[n] == Prom(owner)
    requires SubscribedTo(t, all, n)
    ensures var u := Then(t, owner, Slot(all, n), GatherReason(t.gathers[all].target));
      u.gathers == t.gathers && SubscribedTo(u, all, n + 1)
  {
    hide Then;
    var f, r := Slot(all, n), GatherReason(t.gathers[all].target);
    var u := Then(t, owner, f, r);
    ThenMade(t, owner, f, r);
    forall i | 0 <= i < n + 1 && u.gathers[all].inputs[i].Prom?
      ensures exists k :: 0 <= k < |u.made| && IsSlotSub(u, u.made[k], all, i)
    {
      if i < n {
        var k :| 0 <= k < |t.made| && IsSlotSub(t, t.made[k], all, i);
        assert u.made[k] == t.made[k] && IsSlotSub(u, u.made[k], all, i);
      } else {
        assert IsSlotSub(u, u.made[|t.made|], all, n);
      }
    }
  }

  /** The call is recorded; it has not subscribed to anything. */
  lemma RecordedGathers(s: State, inputs: seq<Value>)
    requires Inv(s) && GathersHold(s)
    ensures var t := Gathering(s, inputs); t.ran == s.ran && |t.gathers| == |s.gathers| + 1 && Sound(t, |s.ran|, |s.gathers|)
  {
    hide Inv, Empty, Slots, TargetSettles, Subscribed, ServedOk, ReasonOk;
    var t := Gathering(s, inputs);
    forall k | 0 <= k < |s.ran| ensures ServedOk(t, t.ran[k]) {
      assert ServedOk(s, s.ran[k]);
      MoreServed(s, t, s.ran[k]);
    }
    forall k | 0 <= k < |t.made| ensures ReasonOk(t, t.made[k]) {
      MoreReason(s, t, t.made[k]);
    }
    forall a | 0 <= a < |s.gathers| ensures CallOk(t, a) {
      assert CallOk(s, a);
      MoreSubscribed(s, t, a);
      MoreSettles(s, t, a);
    }
  }

  ghost predicate MoreCalls(s: State, t: State) {
    s.gathers <= t.gathers && s.proms <= t.proms && t.made == s.made && t.work == s.work
  }

  lemma MoreServed(s: State, t: State, x: Sub)
    requires MoreCalls(s, t) && ServedOk(s, x)
    ensures ServedOk(t, x)
  {
  }

  lemma MoreReason(s: State, t: State, x: Sub)
    requires MoreCalls(s, t) && ReasonOk(s, x)
    ensures ReasonOk(t, x)
  {
  }

  lemma MoreSubscribed(s: State, t: State, a: nat)
    requires MoreCalls(s, t) && a < |s.gathers| && Subscribed(s, a)
    ensures Subscribed(t, a)
  {
    assert t.gathers[a] == s.gathers[a];
    forall i | 0 <= i < |t.gathers[a].inputs| && t.gathers[a].inputs[i].Prom?
      ensures exists k :: 0 <= k < |t.made| && IsSlotSub(t, t.made[k], a, i)
    {
      var k :| 0 <= k < |s.made| && IsSlotSub(s, s.made[k], a, i);
      assert IsSlotSub(t, t.made[k], a, i);
    }
  }

  lemma MoreSettles(s: State, t: State, a: nat)
    requires MoreCalls(s, t) && a < |s.gathers| && TargetSettles(s, a)
    ensures TargetSettles(t, a)
  {
    var g := s.gathers[a];
    assert t.gathers[a] == g && t.proms[g.target] == s.proms[g.target];
    if HasRejected(s, a) {
      var i :| 0 <= i < |g.inputs| && RejectedInput(s, g.inputs[i]);
      assert RejectedInput(t, t.gathers[a].inputs[i]);
    }
  }

  lemma AllGathersKeeps(s: State, inputs: seq<Value>)
    requires Inv(s) && GathersHold(s) && forall i :: 0 <= i < |inputs| ==> Known(s, inputs[i])
    ensures GathersHold(All(s, inputs))
  {
    hide Inv, Empty, Slots, GatherFrom, Seal, Sound, Calm, Subscribed;
    var all, target, t := |s.gathers|, |s.proms|, Gathering(s, inputs);
    RecordedGathers(s, inputs);
    forall i | 0 <= i < |inputs| ensures Known(t, inputs[i]) {
      assert Known(s, inputs[i]);
    }
    GatherFromCalm(t, inputs, all, |inputs|);
    var u := GatherFrom(t, inputs, all, target, |inputs|);
    var w := All(s, inputs);
    if Empty(Slots(inputs)) == 0 {
      CalmSizes(t, u);
      SealCalm(u, target, Results(all), PublishFulfillment(target));
      CalmJoin(t, u, w);
      SealMade(u, target, Results(all), PublishFulfillment(target));
    }
    CalmKeeps(t, w, |s.ran|, |s.gathers|);
    NewCall(s, inputs, w);
  }

  lemma SealMade(s: State, p: Id, v: Value, job: Job)
    requires p < |s.proms|
    ensures Seal(s, p, v, job).made == s.made && Seal(s, p, v, job).gathers == s.gathers
    ensures Seal(s, p, v, job).proms[p].state != Pending
  {
  }

  /** The new call is sound too. */
  lemma NewCall(s: State, inputs: seq<Value>, w: State)
    requires Inv(s) && Calm(Gathering(s, inputs), w) && Sound(w, |s.ran|, |s.gathers|) && |w.ran| == |s.ran|
    requires w.gathers == Gathering(s, inputs).gathers && SubscribedTo(w, |s.gathers|, |inputs|)
    requires Empty(Slots(inputs)) == 0 ==> w.proms[|s.proms|].state != Pending
    ensures GathersHold(w)
  {
    hide RanOk, RecordsOk, PublishOnce, Ordered, GathersOk, SubsOk, Empty, Slots, AllReasons, Served;
    var all, target, t := |s.gathers|, |s.proms|, Gathering(s, inputs);
    assert w.gathers[all] == Gather(inputs, Slots(inputs), Empty(Slots(inputs)), target);
    assert CalmRecord(t.proms[target], w.proms[target]);
    forall i | 0 <= i < |s.work| ensures s.work[i] != PublishRejection(target) {
      assert JobOk(s, s.work[i]);
    }
    assert Subscribed(w, all);
    assert TargetSettles(w, all);
    assert CallOk(w, all);
  }

  // ---------------------------------------------------------------------------------------------
  // Every step

  lemma RunFirstGathers(s: State)
    requires Inv(s) && GathersHold(s) && s.flushing && s.current.None? && s.work != [] && JobIn(s, s.work[0])
    ensures GathersHold(RunFirst(s))
  {
    hide SubsOk, RanOk, RecordsOk, PublishOnce, Ordered, GathersOk, Serve, PublishWith, GathersHold;
    assert JobOk(s, s.work[0]);
    match s.work[0]
    case Invoke(x) =>
      TakenServable(s, x);
      ServeGathers(s, x);
    case PublishFulfillment(p) => PublishGathers(s, p, Fulfilled);
    case PublishRejection(p) => PublishGathers(s, p, Rejected);
  }

  lemma CalmGathers(s: State, t: State)
    requires Calm(s, t) && GathersHold(s)
    ensures GathersHold(t)
  {
    hide Calm, Sound;
    CalmKeeps(s, t, |s.ran|, |s.gathers|);
  }

  lemma FlagsCalm(s: State, timer: bool, flushing: bool)
    ensures Calm(s, s.(timer := timer, flushing := flushing))
  {
  }

  lemma EndedGathers(s: State, op: Op)
    requires Inv(s) && GathersHold(s) && Enabled(s, op) && (op.Returned? || op.Thrown?)
    ensures GathersHold(Next(s, op))
  {
    hide Inv, GathersHold, Settle, Seal, Calm;
    RunningServable(s);
    var t, x := s.(current := None), s.current.value;
    CurrentCalm(s, None);
    ChildRole(s, x);
    if op.Returned? {
      SettleCalm(t, x.child, op.v, false);
      CalmJoin(s, t, Next(s, op));
    } else {
      var u := Reject(t, x.child, op.e);
      SealCalm(t, x.child, op.e, PublishRejection(x.child));
      CalmJoin(s, t, u);
      SealRole(t, x.child, op.e);
      SettleCalm(u, x.child, s.proms[x.owner].data, false);
      CalmJoin(s, u, Next(s, op));
    }
    CalmGathers(s, Next(s, op));
  }

  lemma SealRole(s: State, p: Id, v: Value)
    requires p < |s.proms|
    ensures |Reject(s, p, v).proms| == |s.proms| && Reject(s, p, v).proms[p].role == s.proms[p].role
  {
  }

  lemma NextGathers(s: State, op: Op)
    requires Inv(s) && GathersHold(s)
    ensures GathersHold(Next(s, op))
  {
    hide Inv, GathersHold, RunFirst, Return, Throw, All, Resolve, Seal, Then, Calm;
    if Enabled(s, op) {
      match op
      case New =>
        NewCalm(s);
        CalmGathers(s, Next(s, op));
      case Subscribe(p, f, r) =>
        ThenCalm(s, p, f, r);
        CalmGathers(s, Next(s, op));
      case ResolveOwned(p, v) =>
        ResolveCalm(s, p, v);
        CalmGathers(s, Next(s, op));
      case RejectOwned(p, v) =>
        SealCalm(s, p, v, PublishRejection(p));
        CalmGathers(s, Next(s, op));
      case GatherAll(inputs) => AllGathersKeeps(s, inputs);
      case RunJob => RunFirstGathers(s);
      case Returned(v) => EndedGathers(s, op);
      case Thrown(e) => EndedGathers(s, op);
      case BeginFlush =>
        FlagsCalm(s, s.timer, true);
        CalmGathers(s, Next(s, op));
      case EndFlush =>
        FlagsCalm(s, false, false);
        CalmGathers(s, Next(s, op));
    }
  }

  lemma NewCalm(s: State)
    ensures Calm(s, NewPromise(s, Owned))
  {
  }

  lemma {:induction false} RunGathers(ops: seq<Op>, i: nat)
    requires i <= |ops|
    ensures Inv(States(Next, Start(), ops)[i]) && GathersHold(States(Next, Start(), ops)[i])
    decreases i
  {
    hide Inv, Next;
    RunInv(ops, i);
    if i > 0 {
      RunGathers(ops, i - 1);
      StatesChain(Next, Start(), ops);
      NextGathers(States(Next, Start(), ops)[i - 1], ops[i - 1]);
    }
  }

  // ---------------------------------------------------------------------------------------------
  // When the queue is drained

  predicate FulfilledInput(s: State, input: Value) {
    input.Prom? ==> input.p < |s.proms| && s.proms[input.p].state == Fulfilled
  }

  /** What a settled input has done to its call. */
  ghost predicate InputServed(s: State, a: nat, k: nat)
    requires a < |s.gathers| && k < |s.gathers[a].inputs| && k < |s.gathers[a].results|
    requires s.gathers[a].target < |s.proms|
  {
    var g := s.gathers[a];
    if !g.inputs[k].Prom? then g.results[k].Some?
    else
      && (FulfilledInput(s, g.inputs[k]) ==> g.results[k].Some?)
      && (RejectedInput(s, g.inputs[k]) ==> s.proms[g.target].state != Pending)
  }

  lemma {:induction false} ToOwner(xs: seq<Sub>, j: nat)
    requires j < |xs|
    ensures xs[j] in OfOwner(xs, xs[j].owner)
    decreases |xs|
  {
    if j < |xs| - 1 {
      ToOwner(xs[..|xs| - 1], j);
    }
  }

  lemma {:induction false} FromOwner(xs: seq<Sub>, x: Sub, o: Id)
    requires x in OfOwner(xs, o)
    ensures x in xs
    decreases |xs|
  {
    if x in OfOwner(xs[..|xs| - 1], o) {
      FromOwner(xs[..|xs| - 1], x, o);
      assert x in xs[..|xs| - 1];
    }
  }

  /** A settled input has had its subscriber served. */
  lemma ServedInput(ops: seq<Op>, i: nat, a: nat, k: nat)
    requires i <= |ops| && a < |States(Next, Start(), ops)[i].gathers| && States(Next, Start(), ops)[i].work == []
    requires var s := States(Next, Start(), ops)[i]; var g := s.gathers[a];
      k < |g.inputs| == |g.results| && g.target < |s.proms| && GathersHold(s) && ResultOk(s, a, k)
    ensures InputServed(States(Next, Start(), ops)[i], a, k)
  {
    hide Inv, Next, GathersHold, OfOwner, ServedOk, TargetSettles;
    var s := States(Next, Start(), ops)[i];
    var input := s.gathers[a].inputs[k];
    if input.Prom? && input.p < |s.proms| && Settled(s.proms[input.p]) {
      Drained(ops, i, input.p);
      OfCall(s, a);
      var j :| 0 <= j < |s.made| && IsSlotSub(s, s.made[j], a, k);
      ToOwner(s.made, j);
      FromOwner(s.ran, s.made[j], input.p);
      var m :| 0 <= m < |s.ran| && s.ran[m] == s.made[j];
      OfServed(s, m);
      SlotServed(s, s.ran[m], a, k);
    }
  }

  lemma OfCall(s: State, a: nat)
    requires GathersHold(s) && a < |s.gathers|
    ensures Subscribed(s, a) && TargetSettles(s, a)
  {
    assert CallOk(s, a);
  }

  lemma OfServed(s: State, m: nat)
    requires GathersHold(s) && m < |s.ran|
    ensures ServedOk(s, s.ran[m])
  {
  }

  lemma SlotServed(s: State, x: Sub, a: nat, k: nat)
    requires a < |s.gathers| && k < |s.gathers[a].inputs| == |s.gathers[a].results| && s.gathers[a].target < |s.proms|
    requires IsSlotSub(s, x, a, k) && ServedOk(s, x)
    ensures InputServed(s, a, k)
  {
  }

  /** In every run, whenever the queue is drained: the promise for all is fulfilled exactly if all its inputs are, and
      rejected exactly if one of them is. */
  lemma AllSettles(ops: seq<Op>, i: nat, a: nat)
    requires i <= |ops| && a < |States(Next, Start(), ops)[i].gathers| && States(Next, Start(), ops)[i].work == []
    ensures var s := States(Next, Start(), ops)[i]; var g := s.gathers[a];
      && g.target < |s.proms|
      && (s.proms[g.target].state == Fulfilled <==> forall k :: 0 <= k < |g.inputs| ==> FulfilledInput(s, g.inputs[k]))
      && (s.proms[g.target].state == Rejected <==> exists k :: 0 <= k < |g.inputs| && RejectedInput(s, g.inputs[k]))
  {
    hide Inv, Next, GathersHold, TargetSettles, FulfilledInput, RejectedInput, InputServed, GatherOk, Subscribed, Gathered;
    RunGathers(ops, i);
    AllGathers(ops, i, a);
    var s := States(Next, Start(), ops)[i];
    OfGather(s, a);
    Drained(ops, i, s.gathers[a].target);
    OfCall(s, a);
    forall k | 0 <= k < |s.gathers[a].inputs| ensures InputServed(s, a, k) {
      ServedInput(ops, i, a, k);
    }
    Ends(s, a);
  }

  lemma OfGather(s: State, a: nat)
    requires Inv(s) && a < |s.gathers|
    ensures var g := s.gathers[a];
      && |g.results| == |g.inputs| && g.target < |s.proms| && g.remaining == Empty(g.results)
      && forall k :: 0 <= k < |g.inputs| ==> ResultOk(s, a, k)
  {
    assert GatherOk(s, a);
  }

  lemma {:induction false} NoneEmpty(results: seq<Option<Value>>)
    requires forall k :: 0 <= k < |results| ==> results[k].Some?
    ensures Empty(results) == 0
    decreases |results|
  {
    if results != [] {
      NoneEmpty(results[..|results| - 1]);
    }
  }

  lemma Ends(s: State, a: nat)
    requires a < |s.gathers|
    requires var g := s.gathers[a];
      && |g.results| == |g.inputs| && g.target < |s.proms| && g.remaining == Empty(g.results)
      && s.proms[g.target].state != Sealed && TargetSettles(s, a)
      && (forall k :: 0 <= k < |g.inputs| ==> InputServed(s, a, k))
      && (s.proms[g.target].state == Fulfilled ==>
            forall k :: 0 <= k < |g.inputs| ==> g.results[k].Some? && Gathered(s, g.inputs[k], g.results[k].value))
    ensures var g := s.gathers[a];
      && (s.proms[g.target].state == Fulfilled <==> forall k :: 0 <= k < |g.inputs| ==> FulfilledInput(s, g.inputs[k]))
      && (s.proms[g.target].state == Rejected <==> exists k :: 0 <= k < |g.inputs| && RejectedInput(s, g.inputs[k]))
  {
    hide Empty;
    var g := s.gathers[a];
    if forall k :: 0 <= k < |g.inputs| ==> FulfilledInput(s, g.inputs[k]) {
      forall k | 0 <= k < |g.results| ensures g.results[k].Some? {
        assert InputServed(s, a, k) && FulfilledInput(s, g.inputs[k]);
      }
      NoneEmpty(g.results);
    }
    if s.proms[g.target].state == Fulfilled {
      forall k | 0 <= k < |g.inputs| ensures FulfilledInput(s, g.inputs[k]) && !RejectedInput(s, g.inputs[k]) {
        assert Gathered(s, g.inputs[k], g.results[k].value);
      }
    }
    forall k | 0 <= k < |g.inputs| && RejectedInput(s, g.inputs[k])
      ensures s.proms[g.target].state != Pending && !FulfilledInput(s, g.inputs[k])
    {
      assert InputServed(s, a, k);
    }
  }
}
