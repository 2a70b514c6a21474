/** What every step of the promise machine keeps (libjs/init/promise.js). */
module PromiseInv {
  import opened Promise

  // ---------------------------------------------------------------------------------------------
  // Subscribers of one promise, wherever they are

  function OfOwner(xs: seq<Sub>, o: Id): seq<Sub> {
    if xs == [] then []
    else OfOwner(xs[..|xs| - 1], o) + if xs[|xs| - 1].owner == o then [xs[|xs| - 1]] else []
  }

  /** Subscribers of `o` among the jobs. */
  function Waits(work: seq<Job>, o: Id): seq<Sub> {
    if work == [] then []
    else Waits(work[..|work| - 1], o) + WaitsIn(work[|work| - 1], o)
  }

  function WaitsIn(job: Job, o: Id): seq<Sub> {
    if job.Invoke? && job.sub.owner == o then [job.sub] else []
  }

  function Waiting(s: State, o: Id): seq<Sub>
    requires o < |s.proms|
  {
    if s.proms[o].then_.Some? then s.proms[o].then_.value else []
  }

  /** How often a promise is going to be published. */
  function Publications(work: seq<Job>, p: Id): nat {
    if work == [] then 0
    else Publications(work[..|work| - 1], p) + if Publishes(work[|work| - 1], p) then 1 else 0
  }

  predicate Publishes(job: Job, p: Id) {
    job == PublishFulfillment(p) || job == PublishRejection(p)
  }

  lemma OfOwnerLast(xs: seq<Sub>, x: Sub, o: Id)
    ensures OfOwner(xs + [x], o) == OfOwner(xs, o) + if x.owner == o then [x] else []
  {
    assert (xs + [x])[..|xs|] == xs;
  }

  lemma WaitsLast(work: seq<Job>, job: Job, o: Id)
    ensures Waits(work + [job], o) == Waits(work, o) + WaitsIn(job, o)
  {
    assert (work + [job])[..|work|] == work;
  }

  lemma {:induction false} WaitsJoin(a: seq<Job>, b: seq<Job>, o: Id)
    ensures Waits(a + b, o) == Waits(a, o) + Waits(b, o)
    decreases |b|
  {
    if b == [] {
      assert a + b == a;
    } else {
      var n := |b| - 1;
      assert a + b == (a + b[..n]) + [b[n]];
      WaitsLast(a + b[..n], b[n], o);
      WaitsJoin(a, b[..n], o);
    }
  }

  lemma WaitsFirst(work: seq<Job>, o: Id)
    requires work != []
    ensures Waits(work, o) == WaitsIn(work[0], o) + Waits(work[1..], o)
  {
    assert work == [work[0]] + work[1..] && [work[0]][..0] == [];
    WaitsJoin([work[0]], work[1..], o);
  }

  lemma PublicationsLast(work: seq<Job>, job: Job, p: Id)
    ensures Publications(work + [job], p) == Publications(work, p) + if Publishes(job, p) then 1 else 0
  {
    assert (work + [job])[..|work|] == work;
  }

  lemma {:induction false} PublicationsJoin(a: seq<Job>, b: seq<Job>, p: Id)
    ensures Publications(a + b, p) == Publications(a, p) + Publications(b, p)
    decreases |b|
  {
    if b == [] {
      assert a + b == a;
    } else {
      var n := |b| - 1;
      assert a + b == (a + b[..n]) + [b[n]];
      PublicationsLast(a + b[..n], b[n], p);
      PublicationsJoin(a, b[..n], p);
    }
  }

  lemma PublicationsFirst(work: seq<Job>, p: Id)
    requires work != []
    ensures Publications(work, p) == (if Publishes(work[0], p) then 1 else 0) + Publications(work[1..], p)
  {
    assert work == [work[0]] + work[1..] && [work[0]][..0] == [];
    PublicationsJoin([work[0]], work[1..], p);
  }

  lemma {:induction false} PublicationsSome(work: seq<Job>, p: Id, i: nat)
    requires i < |work| && Publishes(work[i], p)
    ensures Publications(work, p) > 0
    decreases |work|
  {
    if i < |work| - 1 {
      PublicationsSome(work[..|work| - 1], p, i);
    }
  }

  // ---------------------------------------------------------------------------------------------
  // Invariants

  predicate Registered(s: State, x: Sub) {
    x.id < |s.made| && s.made[x.id] == x
  }

  predicate HandlerOk(s: State, x: Sub, h: Handler) {
    && HandlerIn(s, h)
    && match h
       case AdoptValue(target, _) => !s.proms[target].role.Gathers?
       case AdoptReason(target) => !s.proms[target].role.Gathers?
       case Slot(all, index) => index < |s.gathers[all].inputs| && s.gathers[all].inputs[index] == Prom(x.owner)
       case _ => true
  }

  predicate SubOk(s: State, x: Sub) {
    && x.owner < |s.proms| && x.child < |s.proms| && s.proms[x.child].role == Child
    && HandlerOk(s, x, x.fulfilled) && HandlerOk(s, x, x.rejected) && !x.rejected.Slot?
  }

  ghost predicate SubsOk(s: State) {
    forall i :: 0 <= i < |s.made| ==> s.made[i].id == i && SubOk(s, s.made[i])
  }

  predicate JobOk(s: State, job: Job) {
    match job
    case Invoke(x) => Registered(s, x) && x.owner < |s.proms| && Settled(s.proms[x.owner])
    case _ => job.p < |s.proms| && s.proms[job.p].state == Sealed
  }

  ghost predicate JobsOk(s: State) {
    forall i :: 0 <= i < |s.work| ==> JobOk(s, s.work[i])
  }

  ghost predicate RanOk(s: State) {
    && (forall i :: 0 <= i < |s.ran| ==> JobOk(s, Invoke(s.ran[i])))
    && (s.current.Some? ==> s.current.value in s.ran)
  }

  predicate RecordOk(s: State, p: Id)
    requires p < |s.proms|
  {
    && Known(s, s.proms[p].data)
    && (s.proms[p].then_.None? <==> Settled(s.proms[p]))
    && forall i :: 0 <= i < |Waiting(s, p)| ==> Registered(s, Waiting(s, p)[i]) && Waiting(s, p)[i].owner == p
  }

  ghost predicate RecordsOk(s: State) {
    forall p :: 0 <= p < |s.proms| ==> RecordOk(s, p)
  }

  /** A promise on its way to being published is published exactly once. */
  ghost predicate PublishOnce(s: State) {
    forall p :: 0 <= p < |s.proms| ==> Publications(s.work, p) == if s.proms[p].state == Sealed then 1 else 0
  }

  /** The subscribers of a promise in the order they registered: those served, those about to be, those waiting. */
  predicate OrderOk(s: State, o: Id)
    requires o < |s.proms|
  {
    OfOwner(s.made, o) == OfOwner(s.ran, o) + Waits(s.work, o) + Waiting(s, o)
  }

  ghost predicate Ordered(s: State) {
    forall o :: 0 <= o < |s.proms| ==> OrderOk(s, o)
  }

  predicate TimerOk(s: State) {
    (s.work != [] ==> s.timer) && (s.flushing ==> s.timer) && (s.current.Some? ==> s.flushing)
  }

  ghost predicate SlotRan(s: State, all: nat, index: nat) {
    exists k :: 0 <= k < |s.ran| && s.ran[k].fulfilled == Slot(all, index)
  }

  ghost predicate ResultOk(s: State, all: nat, i: nat)
    requires all < |s.gathers| && i < |s.gathers[all].inputs| && i < |s.gathers[all].results|
  {
    var input, result := s.gathers[all].inputs[i], s.gathers[all].results[i];
    if !input.Prom? then result == Some(input)
    else
      result.Some? ==>
        && input.p < |s.proms| && s.proms[input.p].state == Fulfilled && result.value == s.proms[input.p].data
        && SlotRan(s, all, i)
  }

  /** The promise for all is fulfilled only when no slot is empty. */
  ghost predicate TargetOk(s: State, all: nat)
    requires all < |s.gathers| && s.gathers[all].target < |s.proms|
  {
    var g := s.gathers[all];
    (s.proms[g.target].state == Fulfilled || PublishFulfillment(g.target) in s.work) ==>
      g.remaining == 0 && s.proms[g.target].data == Results(all)
  }

  ghost predicate GatherOk(s: State, all: nat)
    requires all < |s.gathers|
  {
    var g := s.gathers[all];
    && |g.results| == |g.inputs| && g.target < |s.proms| && s.proms[g.target].role == Gathers(all)
    && g.remaining == Empty(g.results)
    && (forall i :: 0 <= i < |g.inputs| ==> ResultOk(s, all, i))
    && TargetOk(s, all)
  }

  /** Each slot belongs to one subscriber. */
  ghost predicate SlotsUnique(s: State) {
    forall i, j :: 0 <= i < j < |s.made| && s.made[i].fulfilled.Slot? ==> s.made[i].fulfilled != s.made[j].fulfilled
  }

  ghost predicate GathersOk(s: State) {
    && (forall a :: 0 <= a < |s.gathers| ==> GatherOk(s, a))
    && (forall p :: 0 <= p < |s.proms| && s.proms[p].role.Gathers? ==>
          s.proms[p].role.all < |s.gathers| && s.gathers[s.proms[p].role.all].target == p)
    && SlotsUnique(s)
  }

  ghost predicate Inv(s: State) {
    && SubsOk(s) && JobsOk(s) && RanOk(s) && RecordsOk(s) && PublishOnce(s) && Ordered(s) && TimerOk(s) && GathersOk(s)
  }

  // ---------------------------------------------------------------------------------------------
  // What never gets lost

  /** The state only moves from pending to sealed to fulfilled or rejected. */
  predicate Forward(a: Status, b: Status) {
    a == b || a == Pending || (a == Sealed && (b == Fulfilled || b == Rejected))
  }

  /** A promise keeps its role, moves forward, and keeps its data once it is sealed. */
  predicate Grows(r: Record, q: Record) {
    q.role == r.role && Forward(r.state, q.state) && (r.state != Pending ==> q.data == r.data)
  }

  /** Promises only grow; subscriptions, what was served, and calls of `Promise.all` stay. */
  ghost predicate Extends(s: State, t: State) {
    && |s.proms| <= |t.proms| && (forall p :: 0 <= p < |s.proms| ==> Grows(s.proms[p], t.proms[p]))
    && s.made <= t.made && s.ran <= t.ran
    && |s.gathers| <= |t.gathers|
    && (forall a :: 0 <= a < |s.gathers| ==> SameGather(s.gathers[a], t.gathers[a]))
  }

  predicate SameGather(g: Gather, h: Gather) {
    h.inputs == g.inputs && h.target == g.target && |h.results| == |g.results|
  }

  lemma SubStays(s: State, t: State, x: Sub)
    requires Extends(s, t) && SubOk(s, x)
    ensures SubOk(t, x)
  {
    HandlerStays(s, t, x, x.fulfilled);
    HandlerStays(s, t, x, x.rejected);
  }

  lemma HandlerStays(s: State, t: State, x: Sub, h: Handler)
    requires Extends(s, t) && HandlerOk(s, x, h)
    ensures HandlerOk(t, x, h)
  {
    match h
    case Slot(all, index) => assert SameGather(s.gathers[all], t.gathers[all]);
    case _ =>
  }

  lemma SubsStay(s: State, t: State)
    requires Extends(s, t) && SubsOk(s) && t.made == s.made
    ensures SubsOk(t)
  {
    hide SubOk;
    forall i | 0 <= i < |t.made| ensures t.made[i].id == i && SubOk(t, t.made[i]) {
      SubStays(s, t, s.made[i]);
    }
  }
}
