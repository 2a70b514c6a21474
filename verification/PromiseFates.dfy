/** What is laid down for a promise, and that it comes about (libjs/init/promise.js): the invariants behind the outcome
    of every promise. */
module PromiseFates {
  import opened Promise
  import opened PromiseInv
  import opened PromiseSteps

  /** What a call or the end of a callback lays down for a promise: a value, a reason, or the outcome of another one. */
  datatype Fate = Fulfils(v: Value) | Rejects(v: Value) | Follows(q: Id)

  datatype Commit = Commit(p: Id, fate: Fate)

  // ---------------------------------------------------------------------------------------------
  // Outcomes that are certain

  function Publication(p: Id, status: Status): Job {
    if status == Fulfilled then PublishFulfillment(p) else PublishRejection(p)
  }

  /** The promise has this state, or is going to be published with it. */
  predicate Bound(s: State, p: Id, status: Status)
    requires p < |s.proms|
  {
    s.proms[p].state == status || (s.proms[p].state == Sealed && Publication(p, status) in s.work)
  }

  predicate WillBe(s: State, p: Id, status: Status, v: Value) {
    p < |s.proms| && Bound(s, p, status) && s.proms[p].data == v
  }

  /** The promise has, or is going to have, what was laid down. */
  predicate Done(s: State, p: Id, fate: Fate) {
    match fate
    case Fulfils(v) => WillBe(s, p, Fulfilled, v)
    case Rejects(v) => WillBe(s, p, Rejected, v)
    case Follows(q) => q < |s.proms| && Settled(s.proms[q]) && WillBe(s, p, s.proms[q].state, s.proms[q].data)
  }

  /** A subscription that passes the outcome of its owner on to a promise resolved with it. */
  predicate Adopter(y: Sub) {
    y.fulfilled.AdoptValue? || y.rejected.AdoptReason?
  }

  predicate Adopts(y: Sub, p: Id) {
    y.fulfilled == AdoptValue(p, y.owner) && y.rejected == AdoptReason(p)
  }

  predicate Paired(y: Sub) {
    && !y.fulfilled.AdoptReason? && !y.rejected.AdoptValue?
    && (Adopter(y) ==> y.fulfilled.AdoptValue? && Adopts(y, y.fulfilled.target))
  }

  predicate Free(s: State, p: Id) {
    p < |s.proms| && !s.proms[p].role.Gathers?
  }

  ghost predicate Followed(s: State, p: Id, q: Id) {
    exists k :: 0 <= k < |s.made| && s.made[k].owner == q && Adopts(s.made[k], p)
  }

  // ---------------------------------------------------------------------------------------------
  // Invariants of a state `s` after the commits `h`; `b` is the subscriber being served

  ghost predicate AllPaired(s: State) {
    forall k :: 0 <= k < |s.made| ==> Paired(s.made[k])
  }

  ghost predicate HasCause(s: State, h: seq<Commit>, p: Id) {
    exists j :: 0 <= j < |h| && h[j].p == p && Done(s, p, h[j].fate)
  }

  /** A promise that is not pending has the outcome that some commit laid down. */
  ghost predicate Justified(s: State, h: seq<Commit>) {
    forall p :: 0 <= p < |s.proms| && Free(s, p) && s.proms[p].state != Pending ==> HasCause(s, h, p)
  }

  ghost predicate CommitOk(s: State, c: Commit) {
    && Free(s, c.p)
    && if c.fate.Follows? then c.fate.q < |s.proms| && Followed(s, c.p, c.fate.q) else s.proms[c.p].state != Pending
  }

  ghost predicate Binding(s: State, h: seq<Commit>) {
    forall j :: 0 <= j < |h| ==> CommitOk(s, h[j])
  }

  /** What a served adoption has left: an outcome, or a subscription to the promise it was handed on to. */
  ghost predicate Given(s: State, y: Sub) {
    y.fulfilled.AdoptValue? && y.fulfilled.target < |s.proms| && y.owner < |s.proms| &&
    (s.proms[y.fulfilled.target].state != Pending
     || (s.proms[y.owner].state == Fulfilled && s.proms[y.owner].data.Prom? && s.proms[y.owner].data.p != y.owner
         && Followed(s, y.fulfilled.target, s.proms[y.owner].data.p)))
  }

  ghost predicate AllGiven(s: State, b: Option<Sub>) {
    forall k :: 0 <= k < |s.ran| && Adopter(s.ran[k]) && b != Some(s.ran[k]) ==> Given(s, s.ran[k])
  }

  predicate Leads(s: State, q: Id, r: Id) {
    q < |s.proms| && (q == r || (s.proms[q].state == Fulfilled && s.proms[q].data == Prom(r)))
  }

  predicate LeadsTo(s: State, c: Commit, p: Id, r: Id) {
    c.p == p && c.fate.Follows? && Leads(s, c.fate.q, r)
  }

  /** An adoption that can still have an effect was laid down. */
  ghost predicate Traced(s: State, h: seq<Commit>, y: Sub) {
    && y.fulfilled.AdoptValue? && Free(s, y.fulfilled.target)
    && (s.proms[y.fulfilled.target].state != Pending
        || exists j :: 0 <= j < |h| && LeadsTo(s, h[j], y.fulfilled.target, y.owner))
  }

  ghost predicate AllTraced(s: State, h: seq<Commit>) {
    forall k :: 0 <= k < |s.made| && Adopter(s.made[k]) ==> Traced(s, h, s.made[k])
  }

  /** A promise fulfilled with another promise has it from one that was fulfilled with itself. */
  predicate SelfOk(s: State, p: Id)
    requires p < |s.proms|
  {
    var v := s.proms[p].data;
    Bound(s, p, Fulfilled) && v.Prom? && v.p != p ==>
      v.p < |s.proms| && s.proms[v.p].state == Fulfilled && s.proms[v.p].data == v
  }

  ghost predicate AllSelf(s: State) {
    forall p :: 0 <= p < |s.proms| ==> SelfOk(s, p)
  }

  /** Nothing has been laid down for the promise, and nothing is going to settle it. */
  ghost predicate Untouched(s: State, h: seq<Commit>, p: Id) {
    && p < |s.proms| && s.proms[p].state == Pending
    && (forall k :: 0 <= k < |s.made| && s.made[k].fulfilled.AdoptValue? ==> s.made[k].fulfilled.target != p)
    && (forall j :: 0 <= j < |h| ==> h[j].p != p)
  }

  predicate Unserved(s: State, b: Option<Sub>, x: Sub) {
    x !in s.ran || b == Some(x)
  }

  ghost predicate AllUntouched(s: State, h: seq<Commit>, b: Option<Sub>) {
    forall k :: 0 <= k < |s.made| && Unserved(s, b, s.made[k]) ==> Untouched(s, h, s.made[k].child)
  }

  ghost predicate Children(s: State) {
    forall i, j :: 0 <= i < j < |s.made| ==> s.made[i].child < s.made[j].child
  }

  ghost predicate HasCommit(h: seq<Commit>, p: Id) {
    exists j :: 0 <= j < |h| && h[j].p == p
  }

  /** A subscriber that was served has had its child laid down. */
  ghost predicate AllEnded(s: State, h: seq<Commit>, b: Option<Sub>) {
    forall k :: 0 <= k < |s.ran| && b != Some(s.ran[k]) ==> HasCommit(h, s.ran[k].child)
  }

  /** Only the program lays down anything twice for a promise. */
  ghost predicate Once(s: State, h: seq<Commit>) {
    forall j, k :: 0 <= j < k < |h| && h[j].p == h[k].p && h[j].p < |s.proms| ==> s.proms[h[j].p].role == Owned
  }

  ghost predicate Fated(s: State, h: seq<Commit>, b: Option<Sub>) {
    && AllPaired(s) && Justified(s, h) && Binding(s, h) && AllGiven(s, b) && AllTraced(s, h) && AllSelf(s)
    && AllUntouched(s, h, b) && Children(s) && AllEnded(s, h, b) && Once(s, h)
  }

  // ---------------------------------------------------------------------------------------------
  // Steps that lay nothing down

  /** The state of a promise that is not one for all changes by its publication only. */
  predicate MildRecord(s: State, t: State, p: Id)
    requires p < |s.proms| <= |t.proms|
  {
    var r, q := s.proms[p], t.proms[p];
    && Grows(r, q) && (!r.role.Gathers? ==> q.state == r.state || (r.state == Sealed && Settled(q)))
    && (r.state != Pending ==>
          && (Bound(s, p, Fulfilled) ==> Bound(t, p, Fulfilled)) && (Bound(s, p, Rejected) ==> Bound(t, p, Rejected)))
    && (q.data.Prom? && Bound(t, p, Fulfilled) ==> Bound(s, p, Fulfilled) && q.data == r.data)
  }

  /** At most one more subscription, which has a new child. */
  ghost predicate Mild(s: State, t: State) {
    && |s.proms| <= |t.proms| && t.ran == s.ran
    && (forall p :: 0 <= p < |s.proms| ==> MildRecord(s, t, p))
    && (forall p :: |s.proms| <= p < |t.proms| ==> t.proms[p].state == Pending)
    && (t.made == s.made || (|t.made| == |s.made| + 1 && t.made[..|s.made|] == s.made && NewSub(s, t, t.made[|s.made|])))
  }

  predicate NewSub(s: State, t: State, x: Sub) {
    x.id == |s.made| && x.child == |s.proms| < |t.proms| && Paired(x)
  }

  /** A new subscription adopts nothing. */
  ghost predicate Harmless(s: State, t: State) {
    forall k :: |s.made| <= k < |t.made| ==> !Adopter(t.made[k])
  }

  lemma MildWillBe(s: State, t: State, p: Id, status: Status, v: Value)
    requires Mild(s, t) && WillBe(s, p, status, v) && (status == Fulfilled || status == Rejected)
    ensures WillBe(t, p, status, v)
  {
    assert MildRecord(s, t, p);
  }

  lemma MildDone(s: State, t: State, p: Id, fate: Fate)
    requires Mild(s, t) && Done(s, p, fate)
    ensures Done(t, p, fate)
  {
    hide Mild, WillBe;
    match fate
    case Fulfils(v) => MildWillBe(s, t, p, Fulfilled, v);
    case Rejects(v) => MildWillBe(s, t, p, Rejected, v);
    case Follows(q) =>
      MildWillBe(s, t, p, s.proms[q].state, s.proms[q].data);
      MildSettled(s, t, q);
  }

  lemma MildSettled(s: State, t: State, q: Id)
    requires Mild(s, t) && q < |s.proms|
    ensures q < |t.proms| && t.proms[q].role == s.proms[q].role
    ensures Settled(s.proms[q]) ==> t.proms[q].state == s.proms[q].state && t.proms[q].data == s.proms[q].data
    ensures !s.proms[q].role.Gathers? ==> (t.proms[q].state == Pending <==> s.proms[q].state == Pending)
  {
    assert MildRecord(s, t, q);
  }

  lemma MildMade(s: State, t: State)
    requires Mild(s, t)
    ensures t.ran == s.ran && |s.made| <= |t.made| <= |s.made| + 1 && forall k :: 0 <= k < |s.made| ==> t.made[k] == s.made[k]
    ensures forall k :: |s.made| <= k < |t.made| ==> NewSub(s, t, t.made[k])
    ensures |s.proms| <= |t.proms|
    ensures forall p :: |s.proms| <= p < |t.proms| ==> t.proms[p].state == Pending
  {
    if |t.made| > |s.made| {
      forall k | 0 <= k < |s.made| ensures t.made[k] == s.made[k] {
        assert t.made[..|s.made|][k] == t.made[k];
      }
    }
  }

  lemma MildFollowed(s: State, t: State, p: Id, q: Id)
    requires Mild(s, t) && Followed(s, p, q)
    ensures Followed(t, p, q)
  {
    hide Mild, Adopts;
    MildMade(s, t);
    var k :| 0 <= k < |s.made| && s.made[k].owner == q && Adopts(s.made[k], p);
    assert t.made[k] == s.made[k];
  }

  lemma MildJustified(s: State, t: State, h: seq<Commit>, g: seq<Commit>)
    requires Mild(s, t) && Justified(s, h) && h <= g
    ensures Justified(t, g)
  {
    hide Mild, Done;
    MildMade(s, t);
    forall p | 0 <= p < |t.proms| && Free(t, p) && t.proms[p].state != Pending ensures HasCause(t, g, p) {
      MildSettled(s, t, p);
      assert HasCause(s, h, p);
      var j :| 0 <= j < |h| && h[j].p == p && Done(s, p, h[j].fate);
      MildDone(s, t, p, h[j].fate);
      assert g[j] == h[j];
    }
  }

  lemma MildBinding(s: State, t: State, h: seq<Commit>)
    requires Mild(s, t) && Binding(s, h)
    ensures Binding(t, h)
  {
    hide Mild, Followed;
    MildMade(s, t);
    forall j | 0 <= j < |h| ensures CommitOk(t, h[j]) {
      assert CommitOk(s, h[j]);
      MildSettled(s, t, h[j].p);
      if h[j].fate.Follows? {
        MildFollowed(s, t, h[j].p, h[j].fate.q);
      }
    }
  }

  lemma MildGiven(s: State, t: State, b: Option<Sub>)
    requires Mild(s, t) && AllGiven(s, b) && AllFree(s)
    ensures AllGiven(t, b)
  {
    hide Mild, Followed;
    MildMade(s, t);
    forall k | 0 <= k < |t.ran| && Adopter(t.ran[k]) && b != Some(t.ran[k]) ensures Given(t, t.ran[k]) {
      var y := s.ran[k];
      assert Given(s, y) && Free(s, y.fulfilled.target);
      MildSettled(s, t, y.fulfilled.target);
      MildSettled(s, t, y.owner);
      if s.proms[y.fulfilled.target].state == Pending {
        MildFollowed(s, t, y.fulfilled.target, s.proms[y.owner].data.p);
      }
    }
  }

  /** Adoptions served have targets of their own. */
  ghost predicate AllFree(s: State) {
    forall k :: 0 <= k < |s.ran| && s.ran[k].fulfilled.AdoptValue? ==> Free(s, s.ran[k].fulfilled.target)
  }

  lemma MildTraced(s: State, t: State, h: seq<Commit>, g: seq<Commit>)
    requires Mild(s, t) && AllTraced(s, h) && h <= g
    requires forall k :: |s.made| <= k < |t.made| && Adopter(t.made[k]) ==> Traced(t, g, t.made[k])
    ensures AllTraced(t, g)
  {
    hide Mild;
    MildMade(s, t);
    forall k | 0 <= k < |t.made| && Adopter(t.made[k]) ensures Traced(t, g, t.made[k]) {
      if k < |s.made| {
        var y := s.made[k];
        assert Traced(s, h, y);
        MildSettled(s, t, y.fulfilled.target);
        if s.proms[y.fulfilled.target].state == Pending {
          var j :| 0 <= j < |h| && LeadsTo(s, h[j], y.fulfilled.target, y.owner);
          MildSettled(s, t, h[j].fate.q);
          assert LeadsTo(t, g[j], y.fulfilled.target, y.owner);
        }
      }
    }
  }

  lemma MildSelf(s: State, t: State)
    requires Mild(s, t) && AllSelf(s)
    ensures AllSelf(t)
  {
    forall p | 0 <= p < |t.proms| ensures SelfOk(t, p) {
      if p < |s.proms| {
        assert MildRecord(s, t, p) && SelfOk(s, p);
        if s.proms[p].data.Prom? && s.proms[p].data.p < |s.proms| {
          assert MildRecord(s, t, s.proms[p].data.p);
        }
      }
    }
  }

  lemma MildUntouched(s: State, t: State, h: seq<Commit>, b: Option<Sub>)
    requires Mild(s, t) && AllUntouched(s, h, b) && Binding(s, h) && SubsOk(s)
    requires forall k :: 0 <= k < |s.ran| ==> Registered(s, s.ran[k])
    requires b.Some? ==> b.value in s.ran
    requires Harmless(s, t)
    ensures AllUntouched(t, h, b)
  {
    hide Mild;
    MildMade(s, t);
    forall k | 0 <= k < |t.made| && Unserved(t, b, t.made[k]) ensures Untouched(t, h, t.made[k].child) {
      if k < |s.made| {
        UntouchedStays(s, t, h, b, k);
      } else {
        NewUntouched(s, t, h, k);
      }
    }
  }

  lemma UntouchedStays(s: State, t: State, h: seq<Commit>, b: Option<Sub>, k: nat)
    requires Mild(s, t) && k < |s.made| && AllUntouched(s, h, b) && Unserved(s, b, s.made[k]) && SubsOk(s)
    requires Harmless(s, t)
    ensures Untouched(t, h, s.made[k].child)
  {
    hide Mild;
    MildMade(s, t);
    var p := s.made[k].child;
    assert Untouched(s, h, p) && SubOk(s, s.made[k]);
    MildSettled(s, t, p);
    forall i | 0 <= i < |t.made| && t.made[i].fulfilled.AdoptValue? ensures t.made[i].fulfilled.target != p {
    }
  }

  lemma NewUntouched(s: State, t: State, h: seq<Commit>, k: nat)
    requires Mild(s, t) && |s.made| <= k < |t.made| && Binding(s, h) && SubsOk(s) && Harmless(s, t)
    ensures Untouched(t, h, t.made[k].child)
  {
    hide Mild;
    MildMade(s, t);
    assert NewSub(s, t, t.made[k]);
    var p := t.made[k].child;
    forall i | 0 <= i < |t.made| && t.made[i].fulfilled.AdoptValue? ensures t.made[i].fulfilled.target != p {
      if i < |s.made| {
        assert SubOk(s, s.made[i]);
      }
    }
    forall j | 0 <= j < |h| ensures h[j].p != p {
      assert CommitOk(s, h[j]);
    }
  }

  lemma MildChildren(s: State, t: State)
    requires Mild(s, t) && Children(s) && SubsOk(s)
    ensures Children(t)
  {
    hide Mild;
    MildMade(s, t);
    forall i, j | 0 <= i < j < |t.made| ensures t.made[i].child < t.made[j].child {
      if j >= |s.made| {
        assert SubOk(s, s.made[i]);
      }
    }
  }

  lemma MildPaired(s: State, t: State)
    requires Mild(s, t) && AllPaired(s)
    ensures AllPaired(t)
  {
    hide Mild, Paired;
    MildMade(s, t);
    forall k | 0 <= k < |t.made| ensures Paired(t.made[k]) {
      if k < |s.made| {
        assert Paired(s.made[k]);
      } else {
        assert NewSub(s, t, t.made[k]);
      }
    }
  }

  /** What is needed of the invariants of the machine. */
  ghost predicate Sane(s: State, b: Option<Sub>) {
    SubsOk(s) && (forall k :: 0 <= k < |s.ran| ==> Registered(s, s.ran[k])) && (b.Some? ==> b.value in s.ran)
  }

  lemma SaneOf(s: State, b: Option<Sub>)
    requires Inv(s) && (b.Some? ==> b.value in s.ran)
    ensures Sane(s, b)
  {
    hide SubsOk, JobsOk, RecordsOk, PublishOnce, Ordered, GathersOk;
    forall k | 0 <= k < |s.ran| ensures Registered(s, s.ran[k]) {
      assert JobOk(s, Invoke(s.ran[k]));
    }
  }

  lemma TargetsFree(s: State, h: seq<Commit>, b: Option<Sub>)
    requires Sane(s, b) && AllTraced(s, h) && AllPaired(s)
    ensures AllFree(s)
  {
    forall k | 0 <= k < |s.ran| && s.ran[k].fulfilled.AdoptValue? ensures Free(s, s.ran[k].fulfilled.target) {
      var y := s.ran[k];
      assert Registered(s, y) && Adopter(s.made[y.id]);
      assert Traced(s, h, s.made[y.id]);
    }
  }

  /** A step that lays nothing down. */
  lemma MildKeeps(s: State, t: State, h: seq<Commit>, b: Option<Sub>)
    requires Mild(s, t) && Harmless(s, t) && Fated(s, h, b) && Sane(s, b)
    ensures Fated(t, h, b)
  {
    hide Mild, SubsOk, AllPaired, Justified, Binding, AllGiven, AllTraced, AllSelf, AllUntouched, Children, AllFree;
    TargetsFree(s, h, b);
    MildPaired(s, t);
    MildJustified(s, t, h, h);
    MildBinding(s, t, h);
    MildGiven(s, t, b);
    MildTraced(s, t, h, h);
    MildSelf(s, t);
    MildUntouched(s, t, h, b);
    MildChildren(s, t);
    MildEnds(s, t, h, b);
  }

  lemma MildEnds(s: State, t: State, h: seq<Commit>, b: Option<Sub>)
    requires Mild(s, t) && AllEnded(s, h, b) && Once(s, h) && Binding(s, h)
    ensures AllEnded(t, h, b) && Once(t, h)
  {
    hide Mild, HasCommit;
    MildMade(s, t);
    forall j, k | 0 <= j < k < |h| && h[j].p == h[k].p && h[j].p < |t.proms| ensures t.proms[h[j].p].role == Owned {
      assert CommitOk(s, h[j]);
      MildSettled(s, t, h[j].p);
    }
  }

  // ---------------------------------------------------------------------------------------------
  // The functions that lay nothing down

  lemma NewMild(s: State, role: Role)
    ensures Mild(s, NewPromise(s, role)) && Harmless(s, NewPromise(s, role))
  {
  }

  lemma ThenMild(s: State, owner: Id, f: Handler, r: Handler)
    requires owner < |s.proms| && Paired(Sub(|s.made|, owner, |s.proms|, f, r))
    ensures Mild(s, Then(s, owner, f, r))
    ensures Then(s, owner, f, r).made == s.made + [Sub(|s.made|, owner, |s.proms|, f, r)]
  {
  }

  /** A promise for all is settled with a reason, or with its array. */
  lemma SealAllMild(s: State, p: Id, v: Value, job: Job)
    requires p < |s.proms| && s.proms[p].role.Gathers? && JobsOk(s)
    requires job == PublishRejection(p) || (job == PublishFulfillment(p) && !v.Prom?)
    ensures Mild(s, Seal(s, p, v, job)) && Harmless(s, Seal(s, p, v, job))
  {
    NoPublication(s, p);
  }

  /** A pending promise is not going to be published. */
  lemma NoPublication(s: State, p: Id)
    requires JobsOk(s) && p < |s.proms|
    ensures s.proms[p].state == Pending ==> PublishFulfillment(p) !in s.work && PublishRejection(p) !in s.work
  {
    forall i | 0 <= i < |s.work| && Publishes(s.work[i], p) ensures s.proms[p].state == Sealed {
      assert JobOk(s, s.work[i]);
    }
  }

  lemma FillMild(s: State, all: nat, index: nat, v: Value)
    requires all < |s.gathers| && index < |s.gathers[all].results| && s.gathers[all].target < |s.proms| && JobsOk(s)
    requires s.proms[s.gathers[all].target].role.Gathers?
    ensures Mild(s, FillSlot(s, all, index, v)) && Harmless(s, FillSlot(s, all, index, v))
  {
    hide Seal;
    var g := s.gathers[all];
    var h := g.(results := g.results[index := Some(v)], remaining := g.remaining - 1);
    var t := s.(gathers := s.gathers[all := h]);
    SealAllMild(t, g.target, Results(all), PublishFulfillment(g.target));
    SameMild(s, t, FillSlot(s, all, index, v));
  }

  /** What concerns calls only does not matter. */
  lemma SameMild(s: State, t: State, u: State)
    requires t == s.(gathers := t.gathers, timer := t.timer, flushing := t.flushing, current := t.current)
    ensures Mild(s, t) && Harmless(s, t)
    ensures Mild(t, u) && Harmless(t, u) ==> Mild(s, u) && Harmless(s, u)
  {
    if Mild(t, u) {
      forall p | 0 <= p < |s.proms| ensures MildRecord(s, u, p) {
        assert MildRecord(t, u, p);
      }
    }
  }

  lemma PublishMild(s: State)
    requires Inv(s) && Publishing(s)
    ensures Mild(s, Published(s)) && Harmless(s, Published(s))
  {
    hide SubsOk, JobsOk, RanOk, RecordsOk, Ordered, GathersOk;
    var t, p := Published(s), s.work[0].p;
    LastPublication(s);
    forall q | 0 <= q < |s.proms| ensures MildRecord(s, t, q) {
      PublishRecord(s, q);
    }
  }

  lemma PublishRecord(s: State, q: Id)
    requires Publishing(s) && q < |s.proms|
    requires forall i :: 1 <= i < |s.work| ==> !Publishes(s.work[i], s.work[0].p)
    ensures MildRecord(s, Published(s), q)
  {
    var t := Published(s);
    PublishedJobs(s, Publication(q, Fulfilled));
    PublishedJobs(s, Publication(q, Rejected));
  }

  /** Of the publications only the one at hand is gone. */
  lemma PublishedJobs(s: State, job: Job)
    requires Publishing(s) && !job.Invoke?
    ensures job in s.work && job != s.work[0] ==> job in Published(s).work
    ensures job in Published(s).work ==> job in s.work[1..]
  {
    if job in s.work && job != s.work[0] {
      var i :| 0 <= i < |s.work| && s.work[i] == job;
      assert s.work[1..][i - 1] == job;
    }
  }

  // ---------------------------------------------------------------------------------------------
  // Settling a promise

  /** `t` is `s` with the pending promise `p` on its way to `status` with `v`. */
  ghost predicate Seals(s: State, t: State, p: Id, status: Status, v: Value) {
    && Free(s, p) && s.proms[p].state == Pending && (status == Fulfilled || status == Rejected)
    && t.proms == s.proms[p := s.proms[p].(state := Sealed, data := v)] && t.work == s.work + [Publication(p, status)]
    && t.made == s.made && t.ran == s.ran
  }

  /** The history may be longer by what is laid down for `p`. */
  ghost predicate Longer(h: seq<Commit>, g: seq<Commit>, p: Id) {
    h <= g && forall j :: |h| <= j < |g| ==> g[j].p == p
  }

  lemma SealsRecord(s: State, t: State, p: Id, status: Status, v: Value, q: Id)
    requires Seals(s, t, p, status, v) && q < |s.proms|
    ensures q < |t.proms| && t.proms[q].role == s.proms[q].role
    ensures q != p ==> t.proms[q] == s.proms[q]
    ensures q != p && Bound(s, q, Fulfilled) ==> Bound(t, q, Fulfilled)
    ensures q != p && Bound(s, q, Rejected) ==> Bound(t, q, Rejected)
    ensures q != p && Bound(t, q, Fulfilled) ==> Bound(s, q, Fulfilled)
    ensures WillBe(t, p, status, v) && t.proms[p].state == Sealed
  {
    var job := Publication(p, status);
    assert t.work[|s.work|] == job;
    if Publication(q, Fulfilled) in s.work {
      assert Publication(q, Fulfilled) in t.work;
    }
    if Publication(q, Rejected) in s.work {
      assert Publication(q, Rejected) in t.work;
    }
  }

  lemma SealsDone(s: State, t: State, p: Id, status: Status, v: Value, q: Id, fate: Fate)
    requires Seals(s, t, p, status, v) && q != p && q < |s.proms| && Done(s, q, fate)
    ensures Done(t, q, fate)
  {
    hide Seals;
    SealsRecord(s, t, p, status, v, q);
    if fate.Follows? {
      SealsRecord(s, t, p, status, v, fate.q);
      SealsPending(s, t, p, status, v);
    }
  }

  lemma SealsPending(s: State, t: State, p: Id, status: Status, v: Value)
    requires Seals(s, t, p, status, v)
    ensures Free(s, p) && s.proms[p].state == Pending && |t.proms| == |s.proms| && t.made == s.made && t.ran == s.ran
  {
  }

  lemma SealsJustified(s: State, t: State, p: Id, status: Status, v: Value, h: seq<Commit>, g: seq<Commit>)
    requires Seals(s, t, p, status, v) && Justified(s, h) && Longer(h, g, p) && HasCause(t, g, p)
    ensures Justified(t, g)
  {
    hide Seals, Done;
    SealsPending(s, t, p, status, v);
    forall q | 0 <= q < |t.proms| && Free(t, q) && t.proms[q].state != Pending ensures HasCause(t, g, q) {
      if q != p {
        SealsRecord(s, t, p, status, v, q);
        assert HasCause(s, h, q);
        var j :| 0 <= j < |h| && h[j].p == q && Done(s, q, h[j].fate);
        SealsDone(s, t, p, status, v, q, h[j].fate);
        assert g[j] == h[j];
      }
    }
  }

  lemma SealsBinding(s: State, t: State, p: Id, status: Status, v: Value, h: seq<Commit>, g: seq<Commit>)
    requires Seals(s, t, p, status, v) && Binding(s, h) && Longer(h, g, p)
    requires forall j :: |h| <= j < |g| ==> !g[j].fate.Follows?
    ensures Binding(t, g)
  {
    hide Seals, Followed;
    SealsPending(s, t, p, status, v);
    SealsRecord(s, t, p, status, v, p);
    forall j | 0 <= j < |g| ensures CommitOk(t, g[j]) {
      if j < |h| {
        assert g[j] == h[j] && CommitOk(s, h[j]);
        SealsRecord(s, t, p, status, v, h[j].p);
        SameFollowed(s, t, h[j].p);
      }
    }
  }

  lemma SameFollowed(s: State, t: State, p: Id)
    requires s.made == t.made
    ensures forall q :: Followed(s, p, q) ==> Followed(t, p, q)
  {
    forall q | Followed(s, p, q) ensures Followed(t, p, q) {
      var k :| 0 <= k < |s.made| && s.made[k].owner == q && Adopts(s.made[k], p);
      assert t.made[k].owner == q && Adopts(t.made[k], p);
    }
  }

  lemma SealsGiven(s: State, t: State, p: Id, status: Status, v: Value, y: Sub)
    requires Seals(s, t, p, status, v) && Given(s, y)
    ensures Given(t, y)
  {
    hide Followed;
    SealsRecord(s, t, p, status, v, y.owner);
    SealsRecord(s, t, p, status, v, y.fulfilled.target);
    SameFollowed(s, t, y.fulfilled.target);
  }

  lemma SealsTraced(s: State, t: State, p: Id, status: Status, v: Value, h: seq<Commit>, g: seq<Commit>, y: Sub)
    requires Seals(s, t, p, status, v) && Traced(s, h, y) && h <= g
    ensures Traced(t, g, y)
  {
    hide Seals;
    SealsPending(s, t, p, status, v);
    SealsRecord(s, t, p, status, v, y.fulfilled.target);
    SealsRecord(s, t, p, status, v, p);
    if t.proms[y.fulfilled.target].state == Pending {
      var j :| 0 <= j < |h| && LeadsTo(s, h[j], y.fulfilled.target, y.owner);
      SealsRecord(s, t, p, status, v, h[j].fate.q);
      assert LeadsTo(t, g[j], y.fulfilled.target, y.owner);
    }
  }

  lemma SealsSelf(s: State, t: State, p: Id, status: Status, v: Value)
    requires Seals(s, t, p, status, v) && AllSelf(s)
    requires status == Fulfilled && v.Prom? && v.p != p ==>
      v.p < |s.proms| && s.proms[v.p].state == Fulfilled && s.proms[v.p].data == v
    requires PublishFulfillment(p) !in s.work
    ensures AllSelf(t)
  {
    SealsPending(s, t, p, status, v);
    forall q | 0 <= q < |t.proms| ensures SelfOk(t, q) {
      SealsRecord(s, t, p, status, v, q);
      assert SelfOk(s, q);
    }
  }

  lemma SealsUntouched(s: State, t: State, p: Id, status: Status, v: Value, h: seq<Commit>, g: seq<Commit>,
                       b: Option<Sub>, c: Option<Sub>)
    requires Seals(s, t, p, status, v) && AllUntouched(s, h, b) && Longer(h, g, p)
    requires forall k :: 0 <= k < |s.made| && Unserved(s, c, s.made[k]) ==> Unserved(s, b, s.made[k]) && s.made[k].child != p
    ensures AllUntouched(t, g, c)
  {
    hide Seals;
    SealsPending(s, t, p, status, v);
    forall k | 0 <= k < |t.made| && Unserved(t, c, t.made[k]) ensures Untouched(t, g, t.made[k].child) {
      var q := s.made[k].child;
      assert Unserved(s, c, s.made[k]);
      assert Untouched(s, h, q);
      SealsRecord(s, t, p, status, v, q);
      forall j | 0 <= j < |g| ensures g[j].p != q {
        if j < |h| {
          assert g[j] == h[j];
        }
      }
    }
  }

  /** A pending promise is settled; what was laid down for it may be recorded with it. */
  lemma SealFated(s: State, t: State, p: Id, status: Status, v: Value, h: seq<Commit>, g: seq<Commit>, b: Option<Sub>,
                  c: Option<Sub>)
    requires Seals(s, t, p, status, v) && Fated(s, h, b) && JobsOk(s) && Longer(h, g, p) && HasCause(t, g, p)
    requires forall j :: |h| <= j < |g| ==> !g[j].fate.Follows?
    requires status == Fulfilled && v.Prom? && v.p != p ==>
      v.p < |s.proms| && s.proms[v.p].state == Fulfilled && s.proms[v.p].data == v
    requires forall k :: 0 <= k < |s.made| && Unserved(s, c, s.made[k]) ==> Unserved(s, b, s.made[k]) && s.made[k].child != p
    requires AllGiven(s, c) && AllEnded(s, g, c) && Once(s, g)
    ensures Fated(t, g, c)
  {
    hide Seals, AllPaired, Justified, Binding, AllSelf, AllUntouched, Children, JobsOk, HasCause, Given, Traced, HasCommit;
    SealsPending(s, t, p, status, v);
    NoPublication(s, p);
    SealsJustified(s, t, p, status, v, h, g);
    SealsBinding(s, t, p, status, v, h, g);
    SealsSelf(s, t, p, status, v);
    SealsUntouched(s, t, p, status, v, h, g, b, c);
    forall k | 0 <= k < |t.ran| && Adopter(t.ran[k]) && c != Some(t.ran[k]) ensures Given(t, t.ran[k]) {
      SealsGiven(s, t, p, status, v, s.ran[k]);
    }
    forall k | 0 <= k < |t.made| && Adopter(t.made[k]) ensures Traced(t, g, t.made[k]) {
      SealsTraced(s, t, p, status, v, h, g, s.made[k]);
    }
    SealsSame(s, t, p, status, v, g);
  }

  lemma SealsSame(s: State, t: State, p: Id, status: Status, v: Value, g: seq<Commit>)
    requires Seals(s, t, p, status, v)
    ensures (Once(s, g) ==> Once(t, g)) && (AllPaired(s) ==> AllPaired(t)) && (Children(s) ==> Children(t))
  {
    if Once(s, g) {
      forall j, k | 0 <= j < k < |g| && g[j].p == g[k].p && g[j].p < |t.proms| ensures t.proms[g[j].p].role == Owned {
        SealsRecord(s, t, p, status, v, g[j].p);
      }
    }
  }

  // ---------------------------------------------------------------------------------------------
  // Following a promise

  /** `t` is `s` with the subscription that passes the outcome of `q` on to `p`. */
  lemma AdoptFated(s: State, p: Id, q: Id, h: seq<Commit>, g: seq<Commit>, b: Option<Sub>, c: Option<Sub>)
    requires Fated(s, h, b) && Sane(s, b) && Free(s, p) && q < |s.proms| && q != p && Longer(h, g, p)
    requires forall j :: |h| <= j < |g| ==> g[j] == Commit(p, Follows(q))
    requires s.proms[p].state != Pending || exists j :: 0 <= j < |g| && LeadsTo(s, g[j], p, q)
    requires forall k :: 0 <= k < |s.made| && Unserved(s, c, s.made[k]) ==> Unserved(s, b, s.made[k]) && s.made[k].child != p
    requires AllGiven(s, c) && AllEnded(s, g, c) && Once(s, g) && (c.Some? ==> c == b)
    ensures var t := Then(s, q, AdoptValue(p, q), AdoptReason(p));
      Fated(t, g, c) && Followed(t, p, q) && Mild(s, t)
  {
    hide Mild, SubsOk, AllPaired, Justified, AllGiven, AllTraced, AllSelf, AllUntouched, Children, AllFree, Then, Adopts;
    var y := Sub(|s.made|, q, |s.proms|, AdoptValue(p, q), AdoptReason(p));
    var t := Then(s, q, AdoptValue(p, q), AdoptReason(p));
    NewAdopter(s, p, q);
    ThenMild(s, q, AdoptValue(p, q), AdoptReason(p));
    assert t.made[|s.made|] == y;
    assert Followed(t, p, q);
    TargetsFree(s, h, b);
    MildPaired(s, t);
    MildJustified(s, t, h, g);
    AdoptBinding(s, t, p, q, h, g);
    MildGiven(s, t, c);
    AdoptTraced(s, t, p, q, h, g);
    MildSelf(s, t);
    AdoptUntouched(s, t, p, h, g, b, c);
    MildChildren(s, t);
    OnceBound(s, t, h, g, p);
    MildMade(s, t);
  }

  lemma NewAdopter(s: State, p: Id, q: Id)
    ensures Paired(Sub(|s.made|, q, |s.proms|, AdoptValue(p, q), AdoptReason(p)))
    ensures Adopts(Sub(|s.made|, q, |s.proms|, AdoptValue(p, q), AdoptReason(p)), p)
  {
  }

  lemma OnceBound(s: State, t: State, h: seq<Commit>, g: seq<Commit>, p: Id)
    requires Mild(s, t) && Once(s, g) && Binding(s, h) && Longer(h, g, p) && p < |s.proms|
    ensures Once(t, g)
  {
    hide Mild;
    forall j, k | 0 <= j < k < |g| && g[j].p == g[k].p && g[j].p < |t.proms| ensures t.proms[g[j].p].role == Owned {
      if j < |h| {
        assert g[j] == h[j] && CommitOk(s, h[j]);
      }
      MildSettled(s, t, g[j].p);
    }
  }

  lemma AdoptBinding(s: State, t: State, p: Id, q: Id, h: seq<Commit>, g: seq<Commit>)
    requires Mild(s, t) && Binding(s, h) && Longer(h, g, p) && Followed(t, p, q) && q < |s.proms| && Free(s, p)
    requires forall j :: |h| <= j < |g| ==> g[j] == Commit(p, Follows(q))
    ensures Binding(t, g)
  {
    hide Mild, Followed;
    MildBinding(s, t, h);
    MildSettled(s, t, p);
    MildSettled(s, t, q);
    forall j | 0 <= j < |g| ensures CommitOk(t, g[j]) {
      if j < |h| {
        assert g[j] == h[j] && CommitOk(t, h[j]);
      }
    }
  }

  lemma AdoptTraced(s: State, t: State, p: Id, q: Id, h: seq<Commit>, g: seq<Commit>)
    requires Mild(s, t) && AllTraced(s, h) && h <= g && Free(s, p)
    requires t.made == s.made + [Sub(|s.made|, q, |s.proms|, AdoptValue(p, q), AdoptReason(p))]
    requires s.proms[p].state != Pending || exists j :: 0 <= j < |g| && LeadsTo(s, g[j], p, q)
    ensures AllTraced(t, g)
  {
    hide Mild;
    MildSettled(s, t, p);
    if s.proms[p].state == Pending {
      var j :| 0 <= j < |g| && LeadsTo(s, g[j], p, q);
      MildSettled(s, t, g[j].fate.q);
      assert LeadsTo(t, g[j], p, q);
    }
    MildTraced(s, t, h, g);
  }

  lemma AdoptUntouched(s: State, t: State, p: Id, h: seq<Commit>, g: seq<Commit>, b: Option<Sub>, c: Option<Sub>)
    requires Mild(s, t) && AllUntouched(s, h, b) && Sane(s, b) && Binding(s, h) && Longer(h, g, p) && p < |s.proms|
    requires forall k :: |s.made| <= k < |t.made| && t.made[k].fulfilled.AdoptValue? ==> t.made[k].fulfilled.target == p
    requires forall k :: 0 <= k < |s.made| && Unserved(s, c, s.made[k]) ==> Unserved(s, b, s.made[k]) && s.made[k].child != p
    requires c.Some? ==> c == b
    ensures AllUntouched(t, g, c)
  {
    hide Mild;
    MildMade(s, t);
    forall k | 0 <= k < |t.made| && Unserved(t, c, t.made[k]) ensures Untouched(t, g, t.made[k].child) {
      if k < |s.made| {
        assert Unserved(s, c, s.made[k]);
        OldUntouched(s, t, p, h, g, s.made[k].child, k);
      } else {
        FreshUntouched(s, t, p, h, g, k);
      }
    }
  }

  lemma OldUntouched(s: State, t: State, p: Id, h: seq<Commit>, g: seq<Commit>, q: Id, k: nat)
    requires Mild(s, t) && k < |s.made| && q == s.made[k].child && Untouched(s, h, q) && SubsOk(s) && Longer(h, g, p) && q != p
    requires forall i :: |s.made| <= i < |t.made| && t.made[i].fulfilled.AdoptValue? ==> t.made[i].fulfilled.target == p
    ensures Untouched(t, g, q)
  {
    hide Mild;
    MildMade(s, t);
    assert SubOk(s, s.made[k]);
    MildSettled(s, t, q);
    forall j | 0 <= j < |g| ensures g[j].p != q {
      if j < |h| {
        assert g[j] == h[j];
      }
    }
  }

  lemma FreshUntouched(s: State, t: State, p: Id, h: seq<Commit>, g: seq<Commit>, k: nat)
    requires Mild(s, t) && |s.made| <= k < |t.made| && Binding(s, h) && SubsOk(s) && Longer(h, g, p) && p < |s.proms|
    requires forall i :: |s.made| <= i < |t.made| && t.made[i].fulfilled.AdoptValue? ==> t.made[i].fulfilled.target == p
    ensures Untouched(t, g, t.made[k].child)
  {
    hide Mild;
    MildMade(s, t);
    var q := t.made[k].child;
    forall i | 0 <= i < |t.made| && t.made[i].fulfilled.AdoptValue? ensures t.made[i].fulfilled.target != q {
      if i < |s.made| {
        assert SubOk(s, s.made[i]);
      }
    }
    forall j | 0 <= j < |g| ensures g[j].p != q {
      if j < |h| {
        assert g[j] == h[j] && CommitOk(s, h[j]);
      }
    }
  }

  // ---------------------------------------------------------------------------------------------
  // Taking a subscriber up

  /** The same records, subscriptions and publications. */
  ghost predicate Alike(s: State, t: State) {
    && t.proms == s.proms && t.made == s.made
    && forall p: Id :: (PublishFulfillment(p) in t.work <==> PublishFulfillment(p) in s.work)
                       && (PublishRejection(p) in t.work <==> PublishRejection(p) in s.work)
  }

  lemma AlikeDone(s: State, t: State, p: Id, fate: Fate)
    requires Alike(s, t) && Done(s, p, fate)
    ensures Done(t, p, fate)
  {
  }

  lemma AlikeKeeps(s: State, t: State, h: seq<Commit>)
    requires Alike(s, t) && AllPaired(s) && Justified(s, h) && Binding(s, h) && AllTraced(s, h) && AllSelf(s) && Children(s)
    requires Once(s, h)
    ensures AllPaired(t) && Justified(t, h) && Binding(t, h) && AllTraced(t, h) && AllSelf(t) && Children(t) && Once(t, h)
  {
    hide Done, Followed, Paired;
    forall p | 0 <= p < |t.proms| && Free(t, p) && t.proms[p].state != Pending ensures HasCause(t, h, p) {
      assert HasCause(s, h, p);
      var j :| 0 <= j < |h| && h[j].p == p && Done(s, p, h[j].fate);
      AlikeDone(s, t, p, h[j].fate);
    }
    forall j | 0 <= j < |h| ensures CommitOk(t, h[j]) {
      assert CommitOk(s, h[j]);
      SameFollowed(s, t, h[j].p);
    }
    forall k | 0 <= k < |t.made| && Adopter(t.made[k]) ensures Traced(t, h, t.made[k]) {
      AlikeTraced(s, t, h, k);
    }
    forall p | 0 <= p < |t.proms| ensures SelfOk(t, p) {
      assert SelfOk(s, p);
    }
  }

  lemma AlikeTraced(s: State, t: State, h: seq<Commit>, k: nat)
    requires Alike(s, t) && AllTraced(s, h) && k < |s.made| && Adopter(s.made[k])
    ensures Traced(t, h, s.made[k])
  {
    var y := s.made[k];
    assert Traced(s, h, y);
    if s.proms[y.fulfilled.target].state == Pending {
      var j :| 0 <= j < |h| && LeadsTo(s, h[j], y.fulfilled.target, y.owner);
      assert LeadsTo(t, h[j], y.fulfilled.target, y.owner);
    }
  }

  lemma AlikeGiven(s: State, t: State, y: Sub)
    requires Alike(s, t) && Given(s, y)
    ensures Given(t, y)
  {
    SameFollowed(s, t, y.fulfilled.target);
  }

  lemma AlikeUntouched(s: State, t: State, h: seq<Commit>, p: Id)
    requires Alike(s, t) && Untouched(s, h, p)
    ensures Untouched(t, h, p)
  {
  }

  lemma TakenAlike(s: State)
    requires s.work != [] && s.work[0].Invoke?
    ensures Alike(s, TakenUp(s))
  {
    assert s.work == [s.work[0]] + s.work[1..];
  }

  lemma TakeFated(s: State, h: seq<Commit>)
    requires Fated(s, h, None) && s.work != [] && s.work[0].Invoke? && s.work[0].sub !in s.ran
    ensures Fated(TakenUp(s), h, Some(s.work[0].sub))
  {
    hide AllPaired, Justified, Binding, AllTraced, AllSelf, Children, Once, Alike, Given, Untouched, HasCommit;
    var t, x := TakenUp(s), s.work[0].sub;
    TakenAlike(s);
    AlikeKeeps(s, t, h);
    forall k | 0 <= k < |t.ran| && Adopter(t.ran[k]) && Some(x) != Some(t.ran[k]) ensures Given(t, t.ran[k]) {
      AlikeGiven(s, t, s.ran[k]);
    }
    TakenMade(s);
    forall k | 0 <= k < |t.made| && Unserved(t, Some(x), t.made[k]) ensures Untouched(t, h, t.made[k].child) {
      assert Unserved(s, None, s.made[k]);
      AlikeUntouched(s, t, h, s.made[k].child);
    }
    forall k | 0 <= k < |t.ran| && Some(x) != Some(t.ran[k]) ensures HasCommit(h, t.ran[k].child) {
      assert t.ran[k] == s.ran[k];
    }
  }

  lemma TakenMade(s: State)
    requires s.work != [] && s.work[0].Invoke?
    ensures TakenUp(s).made == s.made && TakenUp(s).ran == s.ran + [s.work[0].sub]
  {
  }
}
