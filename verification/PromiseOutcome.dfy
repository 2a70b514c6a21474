/** How every promise ends (libjs/init/promise.js): with what the callback of its subscription returned or threw, with
    the outcome of its owner, with what the program's first call gave, or with the outcome of a promise it was resolved
    with. */
module PromiseOutcome {
  import opened Promise
  import opened PromiseInv
  import opened PromiseSteps
  import opened PromiseRuns
  import opened PromiseGather
  import opened PromiseFates
  import opened Runs

  // ---------------------------------------------------------------------------------------------
  // What each step lays down

  /** What the end of a callback with `v` means for its promise: `rejecting` when there was none and the owner was
      rejected. A promise cannot end with itself, and one that ends with another promise follows it. */
  function Demanded(p: Id, v: Value, rejecting: bool): Fate {
    if v == Prom(p) then Rejects(TYPE_ERROR) else if v.Prom? then Follows(v.p) else if rejecting then Rejects(v) else Fulfils(v)
  }

  /** What a call of the program's resolver with `v` means; here a promise can be fulfilled with itself. */
  function Called(p: Id, v: Value): Fate {
    if v.Prom? && v.p != p then Follows(v.p) else Fulfils(v)
  }

  /** The callback of a subscriber whose owner has settled. */
  function Callback(s: State, x: Sub): Handler
    requires x.owner < |s.proms|
  {
    match s.proms[x.owner].state
    case Fulfilled => x.fulfilled
    case _ => x.rejected
  }

  /** What serving a subscriber lays down, unless a function of the program is to be called first. */
  function Served(s: State, x: Sub): seq<Commit>
    requires x.owner < |s.proms|
  {
    match Callback(s, x)
    case User(_) => []
    case NoHandler =>
      [Commit(x.child, Demanded(x.child, s.proms[x.owner].data, s.proms[x.owner].state == Rejected))]
    case _ => [Commit(x.child, Fulfils(UNDEFINED))]
  }

  /** What a step lays down. */
  function Laid(s: State, op: Op): seq<Commit> {
    if !Enabled(s, op) then []
    else
      match op
      case ResolveOwned(p, v) => [Commit(p, Called(p, v))]
      case RejectOwned(p, v) => [Commit(p, Rejects(v))]
      case Returned(v) => [Commit(s.current.value.child, Demanded(s.current.value.child, v, false))]
      case Thrown(e) => [Commit(s.current.value.child, Rejects(e))]
      case RunJob => if s.work[0].Invoke? then Served(s, s.work[0].sub) else []
      case _ => []
  }

  // ---------------------------------------------------------------------------------------------
  // A subscription ends

  /** Its child is its own. */
  lemma OwnChild(s: State, h: seq<Commit>, x: Sub)
    requires Fated(s, h, Some(x)) && Sane(s, Some(x))
    ensures Untouched(s, h, x.child) && Free(s, x.child) && s.proms[x.child].state == Pending
    ensures forall k :: 0 <= k < |s.made| && Unserved(s, None, s.made[k]) ==> s.made[k].child != x.child
  {
    hide SubsOk, Untouched;
    var i :| 0 <= i < |s.ran| && s.ran[i] == x;
    assert Registered(s, s.ran[i]);
    assert Unserved(s, Some(x), s.made[x.id]);
    assert Untouched(s, h, s.made[x.id].child);
    ChildFree(s, x.id);
    UntouchedPending(s, h, x.child);
    forall k | 0 <= k < |s.made| && Unserved(s, None, s.made[k]) ensures s.made[k].child != x.child {
      assert k != x.id;
      assert k < x.id ==> s.made[k].child < s.made[x.id].child;
      assert x.id < k ==> s.made[x.id].child < s.made[k].child;
    }
  }

  lemma UntouchedPending(s: State, h: seq<Commit>, p: Id)
    requires Untouched(s, h, p)
    ensures p < |s.proms| && s.proms[p].state == Pending
  {
  }

  lemma ChildFree(s: State, k: nat)
    requires SubsOk(s) && k < |s.made|
    ensures Free(s, s.made[k].child) && s.proms[s.made[k].child].role == Child
  {
    assert SubOk(s, s.made[k]);
  }

  /** The history with the end of `x` in it. */
  lemma EndHistory(s: State, h: seq<Commit>, x: Sub, fate: Fate)
    requires Fated(s, h, Some(x)) && Sane(s, Some(x)) && (Adopter(x) ==> Given(s, x))
    ensures var g := h + [Commit(x.child, fate)];
      Longer(h, g, x.child) && AllGiven(s, None) && AllEnded(s, g, None) && Once(s, g)
  {
    hide SubsOk, Given;
    var g := h + [Commit(x.child, fate)];
    OwnChild(s, h, x);
    forall k | 0 <= k < |s.ran| ensures HasCommit(g, s.ran[k].child) {
      if s.ran[k] == x {
        assert g[|h|].p == x.child;
      } else {
        assert HasCommit(h, s.ran[k].child);
        var j :| 0 <= j < |h| && h[j].p == s.ran[k].child;
        assert g[j] == h[j];
      }
    }
  }

  lemma SealIs(s: State, p: Id, status: Status, v: Value)
    requires Free(s, p) && s.proms[p].state == Pending && (status == Fulfilled || status == Rejected)
    ensures var t := if status == Fulfilled then Fulfill(s, p, v) else Reject(s, p, v);
      Seals(s, t, p, status, v)
  {
  }

  /** The child is settled at once. */
  lemma EndSeals(s: State, h: seq<Commit>, x: Sub, status: Status, v: Value)
    requires Fated(s, h, Some(x)) && Sane(s, Some(x)) && JobsOk(s) && (Adopter(x) ==> Given(s, x))
    requires (status == Fulfilled && !v.Prom?) || status == Rejected
    ensures x.child < |s.proms|
    ensures var t := if status == Fulfilled then Fulfill(s, x.child, v) else Reject(s, x.child, v);
      && Fated(t, h + [Commit(x.child, if status == Fulfilled then Fulfils(v) else Rejects(v))], None)
      && Seals(s, t, x.child, status, v)
  {
    hide Fated, Sane, JobsOk, Seals, Seal, Given, Untouched, AllGiven, AllEnded, Once, Done;
    var fate := if status == Fulfilled then Fulfils(v) else Rejects(v);
    var g := h + [Commit(x.child, fate)];
    OwnChild(s, h, x);
    EndHistory(s, h, x, fate);
    var t := if status == Fulfilled then Fulfill(s, x.child, v) else Reject(s, x.child, v);
    SealIs(s, x.child, status, v);
    SealsRecord(s, t, x.child, status, v, x.child);
    CauseNow(t, g, |h|, status, v);
    SealFated(s, t, x.child, status, v, h, g, Some(x), None);
  }

  lemma CauseNow(t: State, g: seq<Commit>, j: nat, status: Status, v: Value)
    requires j < |g| && WillBe(t, g[j].p, status, v) && (status == Fulfilled || status == Rejected)
    requires g[j].fate == if status == Fulfilled then Fulfils(v) else Rejects(v)
    ensures HasCause(t, g, g[j].p)
  {
    assert Done(t, g[j].p, g[j].fate);
  }

  /** A callback has ended with `v`, or there was none. */
  lemma EndFated(s: State, h: seq<Commit>, x: Sub, v: Value, rejecting: bool)
    requires Inv(s) && Fated(s, h, Some(x)) && x in s.ran && (Adopter(x) ==> Given(s, x)) && Known(s, v)
    ensures x.child < |s.proms|
    ensures Fated(Settle(s, x.child, v, rejecting), h + [Commit(x.child, Demanded(x.child, v, rejecting))], None)
  {
    hide Inv, Fated, Sane, Given, Seal, Then, Untouched, AllGiven, AllEnded, Once, Leads;
    SaneOf(s, Some(x));
    InvJobs(s);
    OwnChild(s, h, x);
    if v == Prom(x.child) {
      EndSeals(s, h, x, Rejected, TYPE_ERROR);
    } else if v.Prom? {
      var g := h + [Commit(x.child, Follows(v.p))];
      EndHistory(s, h, x, Follows(v.p));
      LeadsSelf(s, v.p);
      assert LeadsTo(s, g[|h|], x.child, v.p);
      AdoptFated(s, x.child, v.p, h, g, Some(x), None);
    } else if rejecting {
      EndSeals(s, h, x, Rejected, v);
    } else {
      EndSeals(s, h, x, Fulfilled, v);
    }
  }

  lemma LeadsSelf(s: State, q: Id)
    requires q < |s.proms|
    ensures Leads(s, q, q)
  {
  }

  lemma InvJobs(s: State)
    requires Inv(s)
    ensures JobsOk(s) && SubsOk(s)
  {
  }

  /** A callback has thrown: the child is rejected, and what follows has no effect. */
  lemma ThrowFated(s: State, h: seq<Commit>, x: Sub, e: Value, v: Value)
    requires Inv(s) && Fated(s, h, Some(x)) && x in s.ran && !Adopter(x) && Known(s, e) && Known(s, v)
    ensures x.child < |s.proms| && |Reject(s, x.child, e).proms| == |s.proms|
    ensures Fated(Settle(Reject(s, x.child, e), x.child, v, false), h + [Commit(x.child, Rejects(e))], None)
  {
    hide Inv, Fated, Sane, Seal, Then, Untouched, Seals, Once;
    SaneOf(s, Some(x));
    InvJobs(s);
    OwnChild(s, h, x);
    EndSeals(s, h, x, Rejected, e);
    var g, u := h + [Commit(x.child, Rejects(e))], Reject(s, x.child, e);
    RejectKeeps(s, x.child, e);
    SealsPending(s, u, x.child, Rejected, e);
    SealsRecord(s, u, x.child, Rejected, e, x.child);
    SettledAlready(u, x.child, TYPE_ERROR);
    SettledAlready(u, x.child, v);
    if v.Prom? && v != Prom(x.child) {
      SaneOf(u, None);
      NoneLonger(u, g);
      AdoptFated(u, x.child, v.p, g, g, None, None);
    }
  }

  lemma SettledAlready(s: State, p: Id, v: Value)
    requires p < |s.proms| && s.proms[p].state != Pending
    ensures Fulfill(s, p, v) == s && Reject(s, p, v) == s
  {
  }

  lemma NoneLonger(s: State, h: seq<Commit>)
    requires Fated(s, h, None)
    ensures AllGiven(s, None) && AllEnded(s, h, None) && Once(s, h) && forall p :: Longer(h, h, p)
  {
  }

  // ---------------------------------------------------------------------------------------------
  // The program calls

  /** A call on a promise that has been settled changes nothing. */
  lemma LogFated(s: State, h: seq<Commit>, c: Commit, b: Option<Sub>)
    requires Fated(s, h, b) && SubsOk(s) && c.p < |s.proms| && s.proms[c.p].role == Owned && CommitOk(s, c)
    ensures Fated(s, h + [c], b)
  {
    hide SubsOk, AllPaired, AllGiven, AllSelf, Children, CommitOk, Done;
    var g := h + [c];
    forall p | 0 <= p < |s.proms| && Free(s, p) && s.proms[p].state != Pending ensures HasCause(s, g, p) {
      assert HasCause(s, h, p);
      var j :| 0 <= j < |h| && h[j].p == p && Done(s, p, h[j].fate);
      assert g[j] == h[j];
    }
    forall k | 0 <= k < |s.made| && Adopter(s.made[k]) ensures Traced(s, g, s.made[k]) {
      LogTraced(s, h, c, s.made[k]);
    }
    forall k | 0 <= k < |s.made| && Unserved(s, b, s.made[k]) ensures Untouched(s, g, s.made[k].child) {
      assert Untouched(s, h, s.made[k].child);
      ChildFree(s, k);
    }
    forall k | 0 <= k < |s.ran| && b != Some(s.ran[k]) ensures HasCommit(g, s.ran[k].child) {
      assert HasCommit(h, s.ran[k].child);
      var j :| 0 <= j < |h| && h[j].p == s.ran[k].child;
      assert g[j] == h[j];
    }
  }

  lemma LogTraced(s: State, h: seq<Commit>, c: Commit, y: Sub)
    requires Adopter(y) && Traced(s, h, y)
    ensures Traced(s, h + [c], y)
  {
    if s.proms[y.fulfilled.target].state == Pending {
      var j :| 0 <= j < |h| && LeadsTo(s, h[j], y.fulfilled.target, y.owner);
      assert (h + [c])[j] == h[j];
    }
  }

  /** What a call on a promise of the program does not disturb. */
  lemma CallHistory(s: State, h: seq<Commit>, c: Commit, b: Option<Sub>)
    requires Fated(s, h, b) && SubsOk(s) && c.p < |s.proms| && s.proms[c.p].role == Owned
    ensures Longer(h, h + [c], c.p) && AllGiven(s, b) && AllEnded(s, h + [c], b) && Once(s, h + [c])
    ensures forall k :: 0 <= k < |s.made| && Unserved(s, b, s.made[k]) ==> s.made[k].child != c.p
  {
    hide SubsOk, Given;
    var g := h + [c];
    forall k | 0 <= k < |s.ran| && b != Some(s.ran[k]) ensures HasCommit(g, s.ran[k].child) {
      assert HasCommit(h, s.ran[k].child);
      var j :| 0 <= j < |h| && h[j].p == s.ran[k].child;
      assert g[j] == h[j];
    }
    forall k | 0 <= k < |s.made| ensures s.made[k].child != c.p {
      ChildFree(s, k);
    }
  }

  /** A pending promise of the program is settled. */
  lemma CallSeals(s: State, h: seq<Commit>, p: Id, status: Status, v: Value, b: Option<Sub>)
    requires Inv(s) && Fated(s, h, b) && p < |s.proms| && s.proms[p].role == Owned
    requires (status == Fulfilled && (v.Prom? ==> v.p == p)) || status == Rejected
    ensures var t := if status == Fulfilled then Fulfill(s, p, v) else Reject(s, p, v);
      Fated(t, h + [Commit(p, if status == Fulfilled then Fulfils(v) else Rejects(v))], b)
  {
    hide Inv, Fated, JobsOk, SubsOk, Seals, Seal, AllGiven, AllEnded, Once, Done;
    var fate := if status == Fulfilled then Fulfils(v) else Rejects(v);
    var c := Commit(p, fate);
    var g := h + [c];
    InvJobs(s);
    CallHistory(s, h, c, b);
    if s.proms[p].state == Pending {
      var t := if status == Fulfilled then Fulfill(s, p, v) else Reject(s, p, v);
      SealIs(s, p, status, v);
      SealsRecord(s, t, p, status, v, p);
      CauseNow(t, g, |h|, status, v);
      SealFated(s, t, p, status, v, h, g, b, b);
    } else {
      SettledAlready(s, p, v);
      LogFated(s, h, c, b);
    }
  }

  /** The program's resolver is called. */
  lemma CallFated(s: State, h: seq<Commit>, p: Id, v: Value, b: Option<Sub>)
    requires Inv(s) && Fated(s, h, b) && p < |s.proms| && s.proms[p].role == Owned && Known(s, v)
    requires b.Some? ==> b.value in s.ran
    ensures Fated(Resolve(s, p, v), h + [Commit(p, Called(p, v))], b)
  {
    hide Inv, Fated, Sane, Seal, Then, AllGiven, AllEnded, Once, SubsOk, Leads;
    SaneOf(s, b);
    InvJobs(s);
    if v.Prom? && v.p != p {
      var c := Commit(p, Follows(v.p));
      CallHistory(s, h, c, b);
      LeadsSelf(s, v.p);
      assert LeadsTo(s, (h + [c])[|h|], p, v.p);
      AdoptFated(s, p, v.p, h, h + [c], b, b);
    } else {
      CallSeals(s, h, p, Fulfilled, v, b);
    }
  }

  // ---------------------------------------------------------------------------------------------
  // An outcome is passed on

  /** What is known of an adoption that is served. */
  lemma AdoptionOf(s: State, h: seq<Commit>, x: Sub)
    requires Fated(s, h, Some(x)) && Sane(s, Some(x)) && Adopter(x)
    ensures x.fulfilled == AdoptValue(x.fulfilled.target, x.owner) && x.rejected == AdoptReason(x.fulfilled.target)
    ensures Traced(s, h, x) && Free(s, x.fulfilled.target) && SubOk(s, x)
    ensures forall k :: 0 <= k < |s.made| && Unserved(s, Some(x), s.made[k]) ==> s.made[k].child != x.fulfilled.target
  {
    hide Justified, Binding, AllSelf, AllEnded, Once, Children;
    var i :| 0 <= i < |s.ran| && s.ran[i] == x;
    assert Registered(s, s.ran[i]);
    assert Paired(s.made[x.id]) && SubOk(s, s.made[x.id]);
    forall k | 0 <= k < |s.made| && Unserved(s, Some(x), s.made[k]) ensures s.made[k].child != x.fulfilled.target {
      assert Untouched(s, h, s.made[k].child);
      assert s.made[x.id].fulfilled.target != s.made[k].child;
    }
  }

  /** Where the outcome comes from: the owner itself is followed, or a promise that was fulfilled with it. */
  lemma SourceOf(s: State, h: seq<Commit>, x: Sub) returns (j: nat)
    requires Traced(s, h, x) && AllSelf(s) && s.proms[x.fulfilled.target].state == Pending && x.owner < |s.proms|
    ensures j < |h| && h[j].p == x.fulfilled.target && h[j].fate.Follows? && Leads(s, h[j].fate.q, x.owner)
    ensures var q := h[j].fate.q;
      q != x.owner ==> s.proms[x.owner].state == Fulfilled && s.proms[x.owner].data == Prom(x.owner)
  {
    j :| 0 <= j < |h| && LeadsTo(s, h[j], x.fulfilled.target, x.owner);
    assert SelfOk(s, h[j].fate.q);
  }

  /** The target is settled as its source is. */
  lemma AdoptSeals(s: State, h: seq<Commit>, x: Sub, status: Status, v: Value)
    requires Inv(s) && Fated(s, h, Some(x)) && x in s.ran && Adopter(x) && x.owner < |s.proms|
    requires s.proms[x.owner].state == status && s.proms[x.owner].data == v
    requires status == Rejected || (status == Fulfilled && (v.Prom? ==> v.p == x.owner || v.p == x.fulfilled.target))
    ensures x.fulfilled.AdoptValue? && x.fulfilled.target < |s.proms|
    ensures var p := x.fulfilled.target; var t := if status == Fulfilled then Fulfill(s, p, v) else Reject(s, p, v);
      Fated(t, h, Some(x)) && Given(t, x)
  {
    hide Inv, Fated, Sane, Seals, Seal, JobsOk, SubsOk, SubOk, Given, Traced, Leads;
    SaneOf(s, Some(x));
    InvJobs(s);
    AdoptionOf(s, h, x);
    var p := x.fulfilled.target;
    var t := if status == Fulfilled then Fulfill(s, p, v) else Reject(s, p, v);
    if s.proms[p].state == Pending {
      FatedParts(s, h, Some(x));
      var j := SourceOf(s, h, x);
      SourceData(s, h[j].fate.q, x.owner, status, v);
      SelfAt(s, x.owner);
      SealIs(s, p, status, v);
      SealsRecord(s, t, p, status, v, p);
      SealsRecord(s, t, p, status, v, h[j].fate.q);
      SealsPending(s, t, p, status, v);
      FollowCause(t, h, j, status, v);
      SealFated(s, t, p, status, v, h, h, Some(x), Some(x));
      GivenNow(t, x);
    } else {
      SettledAlready(s, p, v);
      GivenNow(s, x);
    }
  }

  lemma FatedParts(s: State, h: seq<Commit>, b: Option<Sub>)
    requires Fated(s, h, b)
    ensures AllSelf(s) && AllGiven(s, b) && AllEnded(s, h, b) && Once(s, h) && forall p :: Longer(h, h, p)
  {
  }

  lemma SelfAt(s: State, p: Id)
    requires AllSelf(s) && p < |s.proms|
    ensures SelfOk(s, p)
  {
  }

  lemma SourceData(s: State, q: Id, r: Id, status: Status, v: Value)
    requires r < |s.proms| && Leads(s, q, r) && s.proms[r].state == status && s.proms[r].data == v
    requires q != r ==> s.proms[r].state == Fulfilled && s.proms[r].data == Prom(r)
    ensures q < |s.proms| && s.proms[q].state == status && s.proms[q].data == v
  {
  }

  lemma FollowCause(t: State, h: seq<Commit>, j: nat, status: Status, v: Value)
    requires j < |h| && h[j].fate.Follows? && WillBe(t, h[j].p, status, v) && (status == Fulfilled || status == Rejected)
    requires var q := h[j].fate.q; q < |t.proms| && t.proms[q].state == status && t.proms[q].data == v
    ensures HasCause(t, h, h[j].p)
  {
    assert Done(t, h[j].p, h[j].fate);
  }

  lemma GivenNow(t: State, x: Sub)
    requires x.fulfilled.AdoptValue? && x.fulfilled.target < |t.proms| && x.owner < |t.proms|
    requires t.proms[x.fulfilled.target].state != Pending
    ensures Given(t, x)
  {
  }

  /** The owner was fulfilled with another promise, which the target is handed on to. */
  lemma AdoptHands(s: State, h: seq<Commit>, x: Sub, q: Id)
    requires Inv(s) && Fated(s, h, Some(x)) && x in s.ran && Adopter(x) && x.owner < |s.proms| && q < |s.proms|
    requires s.proms[x.owner].state == Fulfilled && s.proms[x.owner].data == Prom(q)
    requires q != x.owner && q != x.fulfilled.target
    ensures x.fulfilled.AdoptValue? && x.fulfilled.target < |s.proms|
    ensures var p := x.fulfilled.target; var t := Then(s, q, AdoptValue(p, q), AdoptReason(p));
      Fated(t, h, Some(x)) && Given(t, x)
  {
    hide Inv, Fated, Sane, Then, SubsOk, SubOk, Given, Traced, Followed, Mild;
    SaneOf(s, Some(x));
    AdoptionOf(s, h, x);
    FatedParts(s, h, Some(x));
    var p := x.fulfilled.target;
    var t := Then(s, q, AdoptValue(p, q), AdoptReason(p));
    if s.proms[p].state == Pending {
      var j := SourceOf(s, h, x);
      assert LeadsTo(s, h[j], p, q);
    }
    AdoptFated(s, p, q, h, h, Some(x), Some(x));
    MildSettled(s, t, x.owner);
    MildSettled(s, t, p);
    HandedOn(t, x, q);
  }

  lemma HandedOn(t: State, x: Sub, q: Id)
    requires x.fulfilled.AdoptValue? && x.fulfilled.target < |t.proms| && x.owner < |t.proms|
    requires t.proms[x.owner].state == Fulfilled && t.proms[x.owner].data == Prom(q) && q != x.owner
    requires Followed(t, x.fulfilled.target, q)
    ensures Given(t, x)
  {
  }

  /** An adoption is served. */
  lemma AdoptionFated(s: State, h: seq<Commit>, x: Sub)
    requires Inv(s) && Fated(s, h, Some(x)) && x in s.ran && Adopter(x) && Servable(s, x) && Settled(s.proms[x.owner])
    ensures var u := RunInternal(s, Chosen(s, x), s.proms[x.owner].data);
      Fated(u, h, Some(x)) && Given(u, x)
  {
    hide Inv, Fated, Seal, Then, Given, Traced, SubOk;
    SaneOf(s, Some(x));
    AdoptionOf(s, h, x);
    var v, p := s.proms[x.owner].data, x.fulfilled.target;
    if s.proms[x.owner].state == Rejected {
      AdoptSeals(s, h, x, Rejected, v);
    } else if v.Prom? && v.p != x.owner && v.p != p {
      AdoptHands(s, h, x, v.p);
    } else {
      AdoptSeals(s, h, x, Fulfilled, v);
    }
  }

  // ---------------------------------------------------------------------------------------------
  // A subscriber is served

  lemma TakenBusy(s: State, h: seq<Commit>, x: Sub)
    requires Inv(s) && Fated(s, h, None) && Serving(s, x)
    ensures var t := TakenUp(s); Inv(t) && Fated(t, h, Some(x)) && x in t.ran && SubOk(s, x) && Servable(s, x)
    ensures Settled(s.proms[x.owner]) && Paired(x)
  {
    hide Fated, RecordsOk, PublishOnce, GathersOk, SubOk;
    assert JobOk(s, s.work[0]);
    TakenServable(s, x);
    TakeKeepsIt(s);
    forall k | 0 <= k < |s.ran| ensures s.ran[k] != x {
      NotRanBefore(s, k);
    }
    TakeFated(s, h);
    PairedAt(s, h, x.id);
    assert TakenUp(s).ran[|s.ran|] == x;
  }

  lemma PairedAt(s: State, h: seq<Commit>, k: nat)
    requires Fated(s, h, None) && k < |s.made|
    ensures Paired(s.made[k])
  {
  }

  /** The callbacks that are not the program's. */
  lemma InternalFated(s: State, h: seq<Commit>, x: Sub)
    requires Inv(s) && Serving(s, x) && Inv(TakenUp(s)) && Fated(TakenUp(s), h, Some(x)) && SubOk(s, x) && GathersHold(s)
    requires Servable(s, x) && Settled(s.proms[x.owner]) && Paired(x) && !OfProgram(Chosen(s, x))
    ensures var t := TakenUp(s); var u := RunInternal(t, Chosen(s, x), s.proms[x.owner].data);
      Inv(u) && Fated(u, h, Some(x)) && x in u.ran && (Adopter(x) ==> Given(u, x)) && |u.proms| >= |t.proms|
  {
    hide Inv, Fated, Seal, Resolve, FillSlot, Given, Mild, Harmless, Extends, SubOk;
    var t, v := TakenUp(s), s.proms[x.owner].data;
    InternalKeeps(s, x);
    var u := RunInternal(t, Chosen(s, x), v);
    RanKept(s, t, u, x);
    if Adopter(x) {
      AdoptionFated(t, h, x);
    } else {
      InvJobs(t);
      SaneOf(t, Some(x));
      match Chosen(s, x)
      case GatherReason(target) =>
        ReasonGathers(s, x);
        SealAllMild(t, target, v, PublishRejection(target));
        MildKeeps(t, u, h, Some(x));
      case Slot(all, index) =>
        SlotGathers(t, all);
        FillMild(t, all, index, v);
        MildKeeps(t, u, h, Some(x));
      case _ =>
    }
  }

  lemma ReasonGathers(s: State, x: Sub)
    requires Inv(s) && Serving(s, x) && GathersHold(s) && x.rejected.GatherReason?
    ensures x.rejected.target < |s.proms| && s.proms[x.rejected.target].role.Gathers?
  {
    hide SubsOk, RanOk, RecordsOk, PublishOnce, Ordered, GathersOk;
    assert JobOk(s, s.work[0]);
    assert ReasonOk(s, s.made[x.id]);
    SlotGathers(s, x.fulfilled.all);
  }

  lemma RanKept(s: State, t: State, u: State, x: Sub)
    requires s.work != [] && s.work[0] == Invoke(x) && t == TakenUp(s) && Extends(t, u)
    ensures x in t.ran && x in u.ran && |u.proms| >= |t.proms|
  {
    assert t.ran[|s.ran|] == x;
    assert u.ran[|s.ran|] == x;
  }

  lemma SlotGathers(s: State, all: nat)
    requires Inv(s) && all < |s.gathers|
    ensures s.gathers[all].target < |s.proms| && s.proms[s.gathers[all].target].role.Gathers?
  {
    assert GatherOk(s, all);
  }

  /** A subscriber is served, up to the call of a function of the program. */
  lemma ServeFated(s: State, h: seq<Commit>, x: Sub)
    requires Inv(s) && GathersHold(s) && Fated(s, h, None) && Serving(s, x) && Servable(s, x) && x.owner < |s.proms|
    ensures var t := Serve(s.(work := s.work[1..]), x); Fated(t, h + Served(s, x), t.current)
  {
    hide Inv, Fated, RunInternal, Settle, Given, GathersHold, Servable;
    var t, v := TakenUp(s), s.proms[x.owner].data;
    TakenBusy(s, h, x);
    ChildRole(s, x);
    OwnerData(s, x);
    if Callback(s, x).User? {
      assert h + [] == h;
      FlagsFated(t, t.(current := Some(x)), h, Some(x));
    } else if Callback(s, x).NoHandler? {
      NotAdopter(s, x);
      SettleCurrent(t, x.child, v, s.proms[x.owner].state == Rejected);
      RanNow(s, x);
      EndFated(t, h, x, v, s.proms[x.owner].state == Rejected);
    } else {
      InternalFated(s, h, x);
      var u := RunInternal(t, Chosen(s, x), v);
      InternalCurrent(t, Chosen(s, x), v);
      SettleCurrent(u, x.child, UNDEFINED, false);
      EndFated(u, h, x, UNDEFINED, false);
    }
  }

  lemma RanNow(s: State, x: Sub)
    requires Serving(s, x)
    ensures x in TakenUp(s).ran
  {
    assert TakenUp(s).ran[|s.ran|] == x;
  }

  lemma OwnerData(s: State, x: Sub)
    requires Servable(s, x)
    ensures Known(s, s.proms[x.owner].data)
  {
  }

  lemma NotAdopter(s: State, x: Sub)
    requires Paired(x) && x.owner < |s.proms| && OfProgram(Callback(s, x))
    ensures !Adopter(x)
  {
  }

  lemma SettleCurrent(s: State, p: Id, v: Value, rejecting: bool)
    requires p < |s.proms| && Known(s, v)
    ensures Settle(s, p, v, rejecting).current == s.current
  {
  }

  lemma InternalCurrent(s: State, h: Handler, v: Value)
    requires HandlerIn(s, h) && Known(s, v)
    ensures RunInternal(s, h, v).current == s.current
  {
  }

  /** Flags, and which function is running, do not matter. */
  lemma FlagsFated(s: State, t: State, h: seq<Commit>, b: Option<Sub>)
    requires Fated(s, h, b) && Inv(s) && (b.Some? ==> b.value in s.ran)
    requires t == s.(timer := t.timer, flushing := t.flushing, current := t.current)
    ensures Fated(t, h, b)
  {
    hide Inv, Fated, Sane, Mild, Harmless;
    SaneOf(s, b);
    SameMild(s, t, t);
    MildKeeps(s, t, h, b);
  }

  // ---------------------------------------------------------------------------------------------
  // Promise.all

  lemma {:induction false} GatherFromFated(s: State, inputs: seq<Value>, all: nat, n: nat, h: seq<Commit>, b: Option<Sub>)
    requires Inv(s) && n <= |inputs| && (forall i :: 0 <= i < n ==> Known(s, inputs[i])) && Fated(s, h, b)
    requires all < |s.gathers| && s.gathers[all].inputs == inputs && s.gathers[all].target < |s.proms|
    requires SlotsBelow(s, all, 0) && (b.Some? ==> b.value in s.ran)
    ensures var t := GatherFrom(s, inputs, all, s.gathers[all].target, n); Fated(t, h, b) && t.ran == s.ran
    decreases n
  {
    hide Inv, Then, Fated, Mild, Harmless, Sane, SlotsBelow, Extends;
    if n > 0 {
      var target := s.gathers[all].target;
      GatherFromFated(s, inputs, all, n - 1, h, b);
      GatherFromKeeps(s, inputs, all, n - 1);
      var t := GatherFrom(s, inputs, all, target, n - 1);
      assert Known(s, inputs[n - 1]);
      if inputs[n - 1].Prom? {
        ThenMild(t, inputs[n - 1].p, Slot(all, n - 1), GatherReason(target));
        ThenHarmless(t, inputs[n - 1].p, Slot(all, n - 1), GatherReason(target));
        SaneOf(t, b);
        MildKeeps(t, Then(t, inputs[n - 1].p, Slot(all, n - 1), GatherReason(target)), h, b);
        MildMade(t, Then(t, inputs[n - 1].p, Slot(all, n - 1), GatherReason(target)));
      }
    }
  }

  lemma ThenHarmless(s: State, owner: Id, f: Handler, r: Handler)
    requires owner < |s.proms| && !Adopter(Sub(|s.made|, owner, |s.proms|, f, r))
    ensures Harmless(s, Then(s, owner, f, r))
  {
  }

  lemma AllFated(s: State, inputs: seq<Value>, h: seq<Commit>, b: Option<Sub>)
    requires Inv(s) && Fated(s, h, b) && (forall i :: 0 <= i < |inputs| ==> Known(s, inputs[i]))
    requires b.Some? ==> b.value in s.ran
    ensures Fated(All(s, inputs), h, b)
  {
    hide Inv, Empty, Slots, GatherFrom, Seal, Fated, Mild, Harmless, Sane, SlotsBelow, Extends;
    var all, target, t := |s.gathers|, |s.proms|, Gathering(s, inputs);
    GatheringKeeps(s, inputs);
    SaneOf(s, b);
    GatheringMild(s, inputs);
    MildKeeps(s, t, h, b);
    MildMade(s, t);
    InvSubs(s);
    NoSlotsRecorded(s, inputs);
    forall i | 0 <= i < |inputs| ensures Known(t, inputs[i]) {
      assert Known(s, inputs[i]);
    }
    GatherFromFated(t, inputs, all, |inputs|, h, b);
    GatherFromKeeps(t, inputs, all, |inputs|);
    var u := GatherFrom(t, inputs, all, target, |inputs|);
    if Empty(Slots(inputs)) == 0 {
      SlotGathers(u, all);
      InvJobs(u);
      SaneOf(u, b);
      SealAllMild(u, target, Results(all), PublishFulfillment(target));
      MildKeeps(u, Fulfill(u, target, Results(all)), h, b);
    }
  }

  lemma NoSlotsRecorded(s: State, inputs: seq<Value>)
    requires SubsOk(s)
    ensures SlotsBelow(Gathering(s, inputs), |s.gathers|, 0)
  {
    hide SubsOk, Slots, Empty;
    NoSlotsYet(s);
  }

  lemma GatheringMild(s: State, inputs: seq<Value>)
    ensures Mild(s, Gathering(s, inputs)) && Harmless(s, Gathering(s, inputs))
  {
    hide Slots, Empty;
  }

  // ---------------------------------------------------------------------------------------------
  // Every step

  lemma RunFirstFated(s: State, h: seq<Commit>)
    requires Inv(s) && GathersHold(s) && Fated(s, h, None) && Enabled(s, RunJob)
    ensures Fated(RunFirst(s), h + Laid(s, RunJob), RunFirst(s).current) && RunsOwn(RunFirst(s))
  {
    hide RanOk, RecordsOk, PublishOnce, Ordered, GathersOk, Serve, PublishWith, Fated, GathersHold, Mild, Harmless, Sane,
      Servable;
    assert JobOk(s, s.work[0]);
    if s.work[0].Invoke? {
      ServableOwner(s, s.work[0].sub);
      ServeFated(s, h, s.work[0].sub);
      ServeRuns(s, h, s.work[0].sub);
    } else {
      SaneOf(s, None);
      PublishMild(s);
      MildKeeps(s, Published(s), h, None);
      PublishCurrent(s);
      assert h + [] == h;
    }
  }

  lemma ServableOwner(s: State, x: Sub)
    requires Servable(s, x)
    ensures x.owner < |s.proms|
  {
  }

  lemma PublishCurrent(s: State)
    requires Publishing(s)
    ensures RunFirst(s) == Published(s) && Published(s).current == s.current
  {
  }

  /** Every step lays down what it lays down. */
  lemma NextFated(s: State, h: seq<Commit>, op: Op)
    requires Inv(s) && GathersHold(s) && Fated(s, h, s.current) && RunsOwn(s)
    ensures Fated(Next(s, op), h + Laid(s, op), Next(s, op).current) && RunsOwn(Next(s, op))
  {
    hide Inv, Fated, GathersHold, RunFirst, Settle, Resolve, Seal, Then, All, Mild, Harmless, Sane, Servable;
    assert h + [] == h;
    if Enabled(s, op) {
      RunningRan(s);
      SaneOf(s, s.current);
      match op
      case New =>
        NewMild(s, Owned);
        MildKeeps(s, Next(s, op), h, s.current);
      case Subscribe(p, f, r) =>
        ThenMild(s, p, f, r);
        ThenHarmless(s, p, f, r);
        ThenCurrent(s, p, f, r);
        MildKeeps(s, Next(s, op), h, s.current);
      case ResolveOwned(p, v) =>
        ResolveCurrent(s, p, v);
        CallFated(s, h, p, v, s.current);
      case RejectOwned(p, v) =>
        SealCurrent(s, p, v);
        CallSeals(s, h, p, Rejected, v, s.current);
      case GatherAll(inputs) =>
        AllCurrent(s, inputs);
        AllFated(s, inputs, h, s.current);
      case BeginFlush => FlagsFated(s, Next(s, op), h, s.current);
      case EndFlush => FlagsFated(s, Next(s, op), h, s.current);
      case RunJob => RunFirstFated(s, h);
      case Returned(v) => ReturnFated(s, h, v);
      case Thrown(e) => ThrownFated(s, h, e);
    }
  }

  lemma RunningRan(s: State)
    requires Inv(s)
    ensures s.current.Some? ==> s.current.value in s.ran
  {
  }

  lemma ThenCurrent(s: State, p: Id, f: Handler, r: Handler)
    requires p < |s.proms|
    ensures Then(s, p, f, r).current == s.current
  {
  }

  lemma SealCurrent(s: State, p: Id, v: Value)
    requires p < |s.proms|
    ensures Reject(s, p, v).current == s.current && Fulfill(s, p, v).current == s.current
  {
  }

  lemma ResolveCurrent(s: State, p: Id, v: Value)
    requires p < |s.proms| && Known(s, v)
    ensures Resolve(s, p, v).current == s.current
  {
  }

  lemma {:induction false} GatherCurrent(s: State, inputs: seq<Value>, all: nat, target: Id, n: nat)
    requires n <= |inputs| && forall i :: 0 <= i < n ==> Known(s, inputs[i])
    ensures GatherFrom(s, inputs, all, target, n).current == s.current
    decreases n
  {
    hide Then;
    if n > 0 {
      GatherCurrent(s, inputs, all, target, n - 1);
      assert Known(s, inputs[n - 1]);
      if inputs[n - 1].Prom? {
        ThenCurrent(GatherFrom(s, inputs, all, target, n - 1), inputs[n - 1].p, Slot(all, n - 1), GatherReason(target));
      }
    }
  }

  lemma AllCurrent(s: State, inputs: seq<Value>)
    requires forall i :: 0 <= i < |inputs| ==> Known(s, inputs[i])
    ensures All(s, inputs).current == s.current
  {
    hide Then, GatherFrom, Slots, Empty;
    var t := Gathering(s, inputs);
    forall i | 0 <= i < |inputs| ensures Known(t, inputs[i]) {
      assert Known(s, inputs[i]);
    }
    GatherCurrent(t, inputs, |s.gathers|, |s.proms|, |inputs|);
  }

  /** A function of the program runs for a subscriber that is not an adoption. */
  predicate RunsOwn(s: State) {
    s.current.Some? ==> !Adopter(s.current.value)
  }

  lemma StopFated(s: State, h: seq<Commit>)
    requires Inv(s) && Fated(s, h, s.current) && s.current.Some?
    ensures var t := s.(current := None);
      && Inv(t) && Fated(t, h, s.current) && s.current.value in t.ran
      && SubOk(s, s.current.value) && Servable(s, s.current.value)
  {
    hide Inv, Fated, SubOk, Servable;
    RunningServable(s);
    Stopped(s);
    RunningRan(s);
    FlagsFated(s, s.(current := None), h, s.current);
  }

  lemma ReturnFated(s: State, h: seq<Commit>, v: Value)
    requires Inv(s) && Fated(s, h, s.current) && Enabled(s, Op.Returned(v)) && RunsOwn(s)
    ensures var t := Next(s, Op.Returned(v)); Fated(t, h + Laid(s, Op.Returned(v)), t.current) && t.current.None?
  {
    hide Inv, Fated, Settle, SubOk, Servable, Given;
    var x := s.current.value;
    StopFated(s, h);
    SettleCurrent(s.(current := None), x.child, v, false);
    EndFated(s.(current := None), h, x, v, false);
  }

  lemma ThrownFated(s: State, h: seq<Commit>, e: Value)
    requires Inv(s) && Fated(s, h, s.current) && Enabled(s, Op.Thrown(e)) && RunsOwn(s)
    ensures var t := Next(s, Op.Thrown(e)); Fated(t, h + Laid(s, Op.Thrown(e)), t.current) && t.current.None?
  {
    hide Inv, Fated, Settle, SubOk, Seal, Given;
    var x, u := s.current.value, s.(current := None);
    StopFated(s, h);
    ThrowFated(u, h, x, e, s.proms[x.owner].data);
    SealCurrent(u, x.child, e);
    SettleCurrent(Reject(u, x.child, e), x.child, s.proms[x.owner].data, false);
  }

  lemma ServeRuns(s: State, h: seq<Commit>, x: Sub)
    requires Inv(s) && GathersHold(s) && Fated(s, h, None) && Serving(s, x) && Servable(s, x) && x.owner < |s.proms|
    ensures RunsOwn(Serve(s.(work := s.work[1..]), x))
  {
    hide Inv, Fated, RunInternal, Settle, Given, GathersHold, Servable;
    var t, v := TakenUp(s), s.proms[x.owner].data;
    TakenBusy(s, h, x);
    ChildRole(s, x);
    OwnerData(s, x);
    if Callback(s, x).User? {
      NotAdopter(s, x);
    } else if Callback(s, x).NoHandler? {
      SettleCurrent(t, x.child, v, s.proms[x.owner].state == Rejected);
    } else {
      InternalFated(s, h, x);
      InternalCurrent(t, Chosen(s, x), v);
      SettleCurrent(RunInternal(t, Chosen(s, x), v), x.child, UNDEFINED, false);
    }
  }

  // ---------------------------------------------------------------------------------------------
  // Runs

  /** All that the first `n` steps of a run lay down. */
  ghost function History(ops: seq<Op>, n: nat): seq<Commit>
    requires n <= |ops|
  {
    if n == 0 then [] else History(ops, n - 1) + Laid(States(Next, Start(), ops)[n - 1], ops[n - 1])
  }

  lemma StartFated()
    ensures Fated(Start(), [], None)
  {
  }

  lemma {:induction false} RunFated(ops: seq<Op>, i: nat)
    requires i <= |ops|
    ensures var s := States(Next, Start(), ops)[i]; Fated(s, History(ops, i), s.current) && RunsOwn(s)
    decreases i
  {
    hide Inv, Next, Fated, GathersHold, Laid;
    if i == 0 {
      StartFated();
    } else {
      RunFated(ops, i - 1);
      RunGathers(ops, i - 1);
      StatesChain(Next, Start(), ops);
      NextFated(States(Next, Start(), ops)[i - 1], History(ops, i - 1), ops[i - 1]);
    }
  }

  ghost predicate LaidAt(ops: seq<Op>, k: nat, c: Commit)
    requires k < |ops|
  {
    c in Laid(States(Next, Start(), ops)[k], ops[k])
  }

  lemma {:induction false} HistoryAt(ops: seq<Op>, i: nat, c: Commit) returns (k: nat)
    requires i <= |ops| && c in History(ops, i)
    ensures k < i && LaidAt(ops, k, c)
    decreases i
  {
    hide Next, Laid;
    if c in History(ops, i - 1) {
      k := HistoryAt(ops, i - 1, c);
    } else {
      k := i - 1;
    }
  }

  lemma {:induction false} HistoryHas(ops: seq<Op>, i: nat, k: nat, c: Commit)
    requires k < i <= |ops| && LaidAt(ops, k, c)
    ensures c in History(ops, i)
    decreases i
  {
    hide Next, Laid;
    if k < i - 1 {
      HistoryHas(ops, i - 1, k, c);
    }
  }

  // ---------------------------------------------------------------------------------------------
  // Once the queue is drained

  /** The promise has come to what was laid down. */
  predicate Has(s: State, p: Id, fate: Fate) {
    && p < |s.proms|
    && match fate
       case Fulfils(v) => s.proms[p].state == Fulfilled && s.proms[p].data == v
       case Rejects(v) => s.proms[p].state == Rejected && s.proms[p].data == v
       case Follows(q) =>
         q < |s.proms| &&
         if Settled(s.proms[q]) then s.proms[p].state == s.proms[q].state && s.proms[p].data == s.proms[q].data
         else s.proms[p].state == Pending
  }

  lemma DoneHas(s: State, p: Id, fate: Fate)
    requires s.work == [] && Done(s, p, fate)
    ensures Has(s, p, fate)
  {
  }

  /** With the queue drained, every subscription to a settled promise has been served. */
  lemma ServedAll(ops: seq<Op>, i: nat, k: nat)
    requires i <= |ops| && States(Next, Start(), ops)[i].work == []
    requires var s := States(Next, Start(), ops)[i];
      k < |s.made| && s.made[k].owner < |s.proms| && Settled(s.proms[s.made[k].owner])
    ensures var s := States(Next, Start(), ops)[i]; s.made[k] in s.ran
  {
    hide Next, OfOwner;
    var s := States(Next, Start(), ops)[i];
    Drained(ops, i, s.made[k].owner);
    ToOwner(s.made, k);
    FromOwner(s.ran, s.made[k], s.made[k].owner);
  }

  /** A promise that follows a settled one is not pending any more. */
  lemma FollowedSettles(ops: seq<Op>, i: nat, p: Id, q: Id)
    requires i <= |ops| && States(Next, Start(), ops)[i].work == []
    requires var s := States(Next, Start(), ops)[i];
      p < |s.proms| && q < |s.proms| && Settled(s.proms[q]) && Followed(s, p, q)
    ensures States(Next, Start(), ops)[i].proms[p].state != Pending
  {
    hide Inv, Next, Fated, Given, RunsOwn;
    var s := States(Next, Start(), ops)[i];
    RunFated(ops, i);
    GivenAt(ops, i, p, q);
    if s.proms[p].state == Pending {
      SelfOf(s, History(ops, i), s.current, q);
      GivenAt(ops, i, p, s.proms[q].data.p);
      assert false;
    }
  }

  lemma SelfOf(s: State, h: seq<Commit>, b: Option<Sub>, q: Id)
    requires Fated(s, h, b) && q < |s.proms|
    ensures SelfOk(s, q)
  {
  }

  /** What the service of the adoption has left. */
  lemma GivenAt(ops: seq<Op>, i: nat, p: Id, q: Id)
    requires i <= |ops| && States(Next, Start(), ops)[i].work == []
    requires var s := States(Next, Start(), ops)[i];
      p < |s.proms| && q < |s.proms| && Settled(s.proms[q]) && Followed(s, p, q)
    ensures var s := States(Next, Start(), ops)[i];
      s.proms[p].state == Pending ==>
        && s.proms[q].state == Fulfilled && s.proms[q].data.Prom? && s.proms[q].data.p != q
        && Followed(s, p, s.proms[q].data.p)
  {
    hide Inv, Next;
    var s := States(Next, Start(), ops)[i];
    RunFated(ops, i);
    var k :| 0 <= k < |s.made| && s.made[k].owner == q && Adopts(s.made[k], p);
    ServedAll(ops, i, k);
    var m :| 0 <= m < |s.ran| && s.ran[m] == s.made[k];
    assert Given(s, s.ran[m]);
  }

  /** What was laid down for a promise as the only thing has come about. */
  lemma OnlyFate(ops: seq<Op>, i: nat, p: Id, fate: Fate)
    requires i <= |ops| && States(Next, Start(), ops)[i].work == [] && Commit(p, fate) in History(ops, i)
    requires forall c :: c in History(ops, i) && c.p == p ==> c.fate == fate
    ensures Has(States(Next, Start(), ops)[i], p, fate)
  {
    hide Inv, Next, Done, History, Has;
    var s, h := States(Next, Start(), ops)[i], History(ops, i);
    RunFated(ops, i);
    var j :| 0 <= j < |h| && h[j] == Commit(p, fate);
    assert CommitOk(s, h[j]);
    if s.proms[p].state != Pending {
      assert HasCause(s, h, p);
      var m :| 0 <= m < |h| && h[m].p == p && Done(s, p, h[m].fate);
      assert h[m] in h;
      DoneHas(s, p, fate);
    } else {
      if Settled(s.proms[fate.q]) {
        FollowedSettles(ops, i, p, fate.q);
      }
      WaitsStill(s, p, fate);
    }
  }

  lemma WaitsStill(s: State, p: Id, fate: Fate)
    requires p < |s.proms| && s.proms[p].state == Pending && fate.Follows? && fate.q < |s.proms|
    requires !Settled(s.proms[fate.q])
    ensures Has(s, p, fate)
  {
  }

  // ---------------------------------------------------------------------------------------------
  // Subscriptions

  /** The step at which the service of a subscriber ends: its function returns or throws, or it has none. */
  ghost predicate Ends(s: State, op: Op, x: Sub) {
    && Enabled(s, op)
    && match op
       case Returned(_) => s.current == Some(x)
       case Thrown(_) => s.current == Some(x)
       case RunJob => s.work[0] == Invoke(x) && x.owner < |s.proms| && !Callback(s, x).User?
       case _ => false
  }

  /** What it ends with. */
  function EndFate(s: State, op: Op, x: Sub): Fate
    requires x.owner < |s.proms|
  {
    match op
    case Returned(v) => Demanded(x.child, v, false)
    case Thrown(e) => Rejects(e)
    case _ =>
      if Callback(s, x).NoHandler? then Demanded(x.child, s.proms[x.owner].data, s.proms[x.owner].state == Rejected)
      else Fulfils(UNDEFINED)
  }

  /** What is laid down for the child of a subscription is what its service ends with. */
  lemma LaidEnds(s: State, op: Op, c: Commit) returns (x: Sub)
    requires Inv(s) && c in Laid(s, op) && c.p < |s.proms| && s.proms[c.p].role == Child
    ensures x.owner < |s.proms| && x.child == c.p && Registered(s, x) && Ends(s, op, x) && c.fate == EndFate(s, op, x)
  {
    hide SubsOk, RecordsOk, PublishOnce, Ordered, GathersOk;
    if op.RunJob? {
      x := s.work[0].sub;
      assert JobOk(s, s.work[0]);
    } else {
      x := s.current.value;
      var k :| 0 <= k < |s.ran| && s.ran[k] == x;
      assert JobOk(s, Invoke(s.ran[k]));
    }
  }

  /** What has been laid down is about a promise that is there. */
  lemma LaidThere(s: State, op: Op, c: Commit)
    requires Inv(s) && c in Laid(s, op)
    ensures c.p < |s.proms|
  {
    hide RanOk, RecordsOk, PublishOnce, Ordered, GathersOk;
    if op.RunJob? {
      assert JobOk(s, s.work[0]);
    }
  }

  lemma SameChild(s: State, h: seq<Commit>, b: Option<Sub>, x: Sub, y: Sub)
    requires Fated(s, h, b) && Registered(s, x) && Registered(s, y) && x.child == y.child
    ensures x == y
  {
    assert s.made[x.id] == x && s.made[y.id] == y;
  }

  /** What the steps of a run lay down for the child of a subscription is how its service ends. */
  lemma ChildEnds(ops: seq<Op>, i: nat, x: Sub, c: Commit) returns (k: nat)
    requires i <= |ops| && Registered(States(Next, Start(), ops)[i], x) && c in History(ops, i) && c.p == x.child
    ensures k < i && var s := States(Next, Start(), ops)[k];
      x.owner < |s.proms| && Ends(s, ops[k], x) && c.fate == EndFate(s, ops[k], x)
  {
    hide Inv, Next, Laid, Fated, Extends, Ends, History, Registered;
    k := HistoryAt(ops, i, c);
    var s, t := States(Next, Start(), ops)[k], States(Next, Start(), ops)[i];
    RunInv(ops, k);
    RunInv(ops, i);
    RunFated(ops, i);
    RunForward(ops, k, i);
    LaidThere(s, ops[k], c);
    ChildRoleOf(t, x);
    SameRole(s, t, c.p);
    var y := LaidEnds(s, ops[k], c);
    StillRegistered(s, t, y);
    SameChild(t, History(ops, i), t.current, x, y);
  }

  lemma ChildRoleOf(s: State, x: Sub)
    requires Inv(s) && Registered(s, x)
    ensures x.child < |s.proms| && s.proms[x.child].role == Child && x.owner < |s.proms|
  {
    assert SubOk(s, s.made[x.id]);
  }

  lemma SameRole(s: State, t: State, p: Id)
    requires Extends(s, t) && p < |s.proms|
    ensures p < |t.proms| && t.proms[p].role == s.proms[p].role
  {
    assert Grows(s.proms[p], t.proms[p]);
  }

  lemma StillRegistered(s: State, t: State, x: Sub)
    requires Extends(s, t) && Registered(s, x)
    ensures Registered(t, x)
  {
    assert t.made[..|s.made|] == s.made;
  }

  /** In every run, whenever the queue is drained: the service of each subscriber that was taken up has ended, unless its
      function still runs, and the promise that `then` returned has come to exactly what it ended with. It is fulfilled
      with the value that was returned, rejected with what was thrown, or has the state and data of the owner if there
      was no callback; and where any of these values is another promise, it has the outcome of that one as soon as that
      one has settled, and is pending until then. */
  lemma SubscriptionEnds(ops: seq<Op>, i: nat, m: nat) returns (k: nat)
    requires i <= |ops| && States(Next, Start(), ops)[i].work == [] && m < |States(Next, Start(), ops)[i].ran|
    requires States(Next, Start(), ops)[i].current != Some(States(Next, Start(), ops)[i].ran[m])
    ensures k < i
    ensures var s, t := States(Next, Start(), ops)[k], States(Next, Start(), ops)[i]; var x := t.ran[m];
      && x.owner < |s.proms| && Ends(s, ops[k], x) && Has(t, x.child, EndFate(s, ops[k], x))
  {
    hide Inv, Next, Laid, Fated, Ends, History, Has, HasCommit, Registered;
    var t, h := States(Next, Start(), ops)[i], History(ops, i);
    var x := t.ran[m];
    RunInv(ops, i);
    RunFated(ops, i);
    RanRegistered(t, m);
    EndedAt(t, h, t.current, m);
    var j := CommitOf(h, x.child);
    k := ChildEnds(ops, i, x, h[j]);
    var s := States(Next, Start(), ops)[k];
    forall c | c in h && c.p == x.child ensures c.fate == h[j].fate {
      ChildRoleOf(t, x);
      OneCommit(t, h, t.current, j, c);
    }
    OnlyFate(ops, i, x.child, h[j].fate);
  }

  lemma RanRegistered(s: State, m: nat)
    requires Inv(s) && m < |s.ran|
    ensures Registered(s, s.ran[m])
  {
    assert JobOk(s, Invoke(s.ran[m]));
  }

  lemma EndedAt(s: State, h: seq<Commit>, b: Option<Sub>, m: nat)
    requires Fated(s, h, b) && m < |s.ran| && b != Some(s.ran[m])
    ensures HasCommit(h, s.ran[m].child)
  {
  }

  lemma CommitOf(h: seq<Commit>, p: Id) returns (j: nat)
    requires HasCommit(h, p)
    ensures j < |h| && h[j].p == p
  {
    j :| 0 <= j < |h| && h[j].p == p;
  }

  lemma OneCommit(s: State, h: seq<Commit>, b: Option<Sub>, j: nat, c: Commit)
    requires Fated(s, h, b) && j < |h| && c in h && c.p == h[j].p && c.p < |s.proms| && s.proms[c.p].role == Child
    ensures c == h[j]
  {
    var m :| 0 <= m < |h| && h[m] == c;
  }

  // ---------------------------------------------------------------------------------------------
  // The resolvers and rejecters of the program

  /** The queue only grows at its end, but for the job that is taken. */
  lemma SettleWork(s: State, p: Id, v: Value, rejecting: bool)
    requires p < |s.proms| && Known(s, v)
    ensures s.work <= Settle(s, p, v, rejecting).work
  {
  }

  lemma ResolveWork(s: State, p: Id, v: Value)
    requires p < |s.proms| && Known(s, v)
    ensures s.work <= Resolve(s, p, v).work && s.work <= Reject(s, p, v).work && s.work <= Fulfill(s, p, v).work
  {
  }

  lemma ThenWork(s: State, p: Id, f: Handler, r: Handler)
    requires p < |s.proms|
    ensures s.work <= Then(s, p, f, r).work
  {
  }

  lemma InternalWork(s: State, h: Handler, v: Value)
    requires HandlerIn(s, h) && Known(s, v)
    ensures s.work <= RunInternal(s, h, v).work
  {
    hide Resolve, Seal;
    match h
    case AdoptValue(target, source) => ResolveWork(s, target, v);
    case AdoptReason(target) => ResolveWork(s, target, v);
    case GatherReason(target) => ResolveWork(s, target, v);
    case Slot(all, index) =>
      var g := s.gathers[all];
      var t := s.(gathers := s.gathers[all := g.(results := g.results[index := Some(v)], remaining := g.remaining - 1)]);
      ResolveWork(t, g.target, Results(all));
    case _ =>
  }

  lemma {:induction false} GatherWork(s: State, inputs: seq<Value>, all: nat, target: Id, n: nat)
    requires n <= |inputs| && forall i :: 0 <= i < n ==> Known(s, inputs[i])
    ensures s.work <= GatherFrom(s, inputs, all, target, n).work
    decreases n
  {
    hide Then;
    if n > 0 {
      GatherWork(s, inputs, all, target, n - 1);
      assert Known(s, inputs[n - 1]);
      if inputs[n - 1].Prom? {
        ThenWork(GatherFrom(s, inputs, all, target, n - 1), inputs[n - 1].p, Slot(all, n - 1), GatherReason(target));
      }
    }
  }

  lemma AllWork(s: State, inputs: seq<Value>)
    requires forall i :: 0 <= i < |inputs| ==> Known(s, inputs[i])
    ensures s.work <= All(s, inputs).work
  {
    hide Then, GatherFrom, Slots, Empty;
    var t := Gathering(s, inputs);
    forall i | 0 <= i < |inputs| ensures Known(t, inputs[i]) {
      assert Known(s, inputs[i]);
    }
    GatherWork(t, inputs, |s.gathers|, |s.proms|, |inputs|);
  }

  /** What is certain of a promise stays so while the queue only grows at its end. */
  lemma GrowsBound(s: State, t: State, p: Id, status: Status)
    requires Extends(s, t) && JobsOk(t) && s.work <= t.work && p < |s.proms| && Bound(s, p, status)
    requires status == Fulfilled || status == Rejected
    ensures p < |t.proms| && Bound(t, p, status)
  {
    assert Grows(s.proms[p], t.proms[p]);
    if s.proms[p].state == Sealed {
      var i :| 0 <= i < |s.work| && s.work[i] == Publication(p, status);
      assert t.work[i] == s.work[i];
      assert JobOk(t, t.work[i]);
    }
  }

  lemma ServeWork(s: State, x: Sub)
    requires s.work != [] && Servable(s, x)
    ensures s.work[1..] <= Serve(s.(work := s.work[1..]), x).work
  {
    hide Settle, RunInternal;
    var t := s.(work := s.work[1..], ran := s.ran + [x]);
    var h, v := Chosen(s, x), s.proms[x.owner].data;
    if h.NoHandler? {
      SettleWork(t, x.child, v, s.proms[x.owner].state != Fulfilled);
    } else if !h.User? {
      InternalWork(t, h, v);
      if x.child < |RunInternal(t, h, v).proms| {
        SettleWork(RunInternal(t, h, v), x.child, UNDEFINED, false);
      }
    }
  }

  /** A certain outcome stays certain. */
  lemma NextBound(s: State, op: Op, p: Id, status: Status)
    requires Inv(s) && p < |s.proms| && Bound(s, p, status) && (status == Fulfilled || status == Rejected)
    ensures p < |Next(s, op).proms| && Bound(Next(s, op), p, status)
  {
    hide Inv, Settle, Resolve, Seal, Then, All, RunFirst, Extends, Bound, Servable;
    var t := Next(s, op);
    NextKeeps(s, op);
    InvJobs(t);
    if Enabled(s, op) {
      if op.RunJob? {
        RunBound(s, p, status);
      } else {
        NextWork(s, op);
        GrowsBound(s, t, p, status);
      }
    }
  }

  lemma NextWork(s: State, op: Op)
    requires Inv(s) && Enabled(s, op) && !op.RunJob?
    ensures s.work <= Next(s, op).work
  {
    hide Inv, Settle, Resolve, Seal, Then, All, Servable;
    match op
    case Subscribe(p, f, r) => ThenWork(s, p, f, r);
    case ResolveOwned(p, v) => ResolveWork(s, p, v);
    case RejectOwned(p, v) => ResolveWork(s, p, v);
    case GatherAll(inputs) => AllWork(s, inputs);
    case Returned(v) => SettleWork(s.(current := None), s.current.value.child, v, false);
    case Thrown(e) => ThrownWork(s, e);
    case _ =>
  }

  lemma ThrownWork(s: State, e: Value)
    requires Inv(s) && Enabled(s, Op.Thrown(e))
    ensures s.work <= Next(s, Op.Thrown(e)).work
  {
    hide Inv, Settle, Seal;
    RunningServable(s);
    var x, t := s.current.value, s.(current := None);
    ResolveWork(t, x.child, e);
    ThrownLength(t, x.child, e);
    SettleWork(Reject(t, x.child, e), x.child, s.proms[x.owner].data, false);
  }

  lemma ThrownLength(s: State, p: Id, e: Value)
    requires p < |s.proms|
    ensures |Reject(s, p, e).proms| == |s.proms|
  {
  }

  lemma RunBound(s: State, p: Id, status: Status)
    requires Inv(s) && Enabled(s, RunJob) && p < |s.proms| && Bound(s, p, status)
    requires status == Fulfilled || status == Rejected
    ensures p < |RunFirst(s).proms| && Bound(RunFirst(s), p, status)
  {
    hide RanOk, RecordsOk, PublishOnce, Ordered, GathersOk, SubsOk, Serve, PublishWith, Mild, Harmless, Servable, Extends;
    assert JobOk(s, s.work[0]);
    RunFirstKeeps(s);
    InvJobs(RunFirst(s));
    if s.work[0].Invoke? {
      TakenServable(s, s.work[0].sub);
      ServeWork(s, s.work[0].sub);
      ServeBound(s, RunFirst(s), p, status);
    } else {
      PublishMild(s);
      PublishCurrent(s);
      MildBound(s, Published(s), p, status);
    }
  }

  lemma MildBound(s: State, t: State, p: Id, status: Status)
    requires Mild(s, t) && p < |s.proms| && Bound(s, p, status) && (status == Fulfilled || status == Rejected)
    ensures p < |t.proms| && Bound(t, p, status)
  {
    assert MildRecord(s, t, p);
  }

  lemma ServeBound(s: State, t: State, p: Id, status: Status)
    requires Extends(s, t) && JobsOk(t) && s.work != [] && s.work[0].Invoke? && s.work[1..] <= t.work
    requires p < |s.proms| && Bound(s, p, status) && (status == Fulfilled || status == Rejected)
    ensures p < |t.proms| && Bound(t, p, status)
  {
    assert Grows(s.proms[p], t.proms[p]);
    if s.proms[p].state == Sealed {
      var i :| 0 <= i < |s.work| && s.work[i] == Publication(p, status);
      assert t.work[i - 1] == s.work[1..][i - 1] == s.work[i];
      assert JobOk(t, t.work[i - 1]);
    }
  }

  /** From any state of a run on. */
  lemma {:induction false} RunWillBe(ops: seq<Op>, k: nat, i: nat, p: Id, status: Status, v: Value)
    requires k <= i <= |ops| && WillBe(States(Next, Start(), ops)[k], p, status, v)
    requires status == Fulfilled || status == Rejected
    ensures WillBe(States(Next, Start(), ops)[i], p, status, v)
    decreases i
  {
    hide Inv, Next, Bound, Extends;
    if k < i {
      RunWillBe(ops, k, i - 1, p, status, v);
      var s := States(Next, Start(), ops)[i - 1];
      RunInv(ops, i - 1);
      StatesChain(Next, Start(), ops);
      NextBound(s, ops[i - 1], p, status);
      NextKeeps(s, ops[i - 1]);
      BoundData(s, Next(s, ops[i - 1]), p, status);
    }
  }

  lemma BoundData(s: State, t: State, p: Id, status: Status)
    requires Extends(s, t) && p < |s.proms| && Bound(s, p, status) && (status == Fulfilled || status == Rejected)
    ensures p < |t.proms| && t.proms[p].data == s.proms[p].data
  {
    assert Grows(s.proms[p], t.proms[p]);
  }

  /** The call by which the program settles a promise, if it is pending. */
  predicate Settles(op: Op, p: Id, status: Status, v: Value) {
    || (op == ResolveOwned(p, v) && status == Fulfilled && (v.Prom? ==> v.p == p))
    || (op == RejectOwned(p, v) && status == Rejected)
  }

  lemma CallSettles(s: State, op: Op, p: Id, status: Status, v: Value)
    requires Enabled(s, op) && Settles(op, p, status, v) && p < |s.proms| && s.proms[p].state == Pending
    ensures WillBe(Next(s, op), p, status, v)
  {
    var t := Next(s, op);
    assert t.work[|s.work|] == Publication(p, status);
  }

  /** A call of the program's resolver with a value that is no other promise, or of its rejecter, decides a pending
      promise: whenever the queue is drained afterwards, it has that state and those data. */
  lemma CallDecides(ops: seq<Op>, k: nat, i: nat, p: Id, status: Status, v: Value)
    requires k < i <= |ops| && Enabled(States(Next, Start(), ops)[k], ops[k]) && Settles(ops[k], p, status, v)
    requires p < |States(Next, Start(), ops)[k].proms| && States(Next, Start(), ops)[k].proms[p].state == Pending
    requires States(Next, Start(), ops)[i].work == []
    ensures var t := States(Next, Start(), ops)[i];
      p < |t.proms| && t.proms[p].state == status && t.proms[p].data == v
  {
    hide Next, Enabled;
    StatesChain(Next, Start(), ops);
    CallSettles(States(Next, Start(), ops)[k], ops[k], p, status, v);
    RunWillBe(ops, k + 1, i, p, status, v);
  }

  /** Nothing but the program's own calls, and what they make it follow, moves a promise of the program. */
  lemma {:induction false} PendingBefore(ops: seq<Op>, k: nat, p: Id)
    requires k <= |ops| && p < |States(Next, Start(), ops)[k].proms| && States(Next, Start(), ops)[k].proms[p].role == Owned
    requires forall m :: 0 <= m < k ==> !CallsOn(ops, m, p)
    ensures States(Next, Start(), ops)[k].proms[p].state == Pending
  {
    hide Inv, Next, Fated, Laid, Done, Extends;
    var s, h := States(Next, Start(), ops)[k], History(ops, k);
    RunFated(ops, k);
    if s.proms[p].state != Pending {
      CauseOf(s, h, p);
      var j :| 0 <= j < |h| && h[j].p == p;
      var m := HistoryAt(ops, k, h[j]);
      RunInv(ops, m);
      LaidThere(States(Next, Start(), ops)[m], ops[m], h[j]);
      RunForward(ops, m, k);
      SameRole(States(Next, Start(), ops)[m], s, p);
      LaidCalls(ops, m, h[j]);
      assert false;
    }
  }

  lemma CauseOf(s: State, h: seq<Commit>, p: Id)
    requires Fated(s, h, s.current) && Free(s, p) && s.proms[p].state != Pending
    ensures exists j :: 0 <= j < |h| && h[j].p == p
  {
    assert HasCause(s, h, p);
  }

  /** The program calls the resolver or the rejecter of its promise `p` at step `m`. */
  ghost predicate CallsOn(ops: seq<Op>, m: nat, p: Id)
    requires m < |ops|
  {
    && Enabled(States(Next, Start(), ops)[m], ops[m])
    && match ops[m]
       case ResolveOwned(q, _) => q == p
       case RejectOwned(q, _) => q == p
       case _ => false
  }

  lemma LaidCalls(ops: seq<Op>, m: nat, c: Commit)
    requires m < |ops| && LaidAt(ops, m, c) && Inv(States(Next, Start(), ops)[m])
    requires c.p < |States(Next, Start(), ops)[m].proms| && States(Next, Start(), ops)[m].proms[c.p].role == Owned
    ensures CallsOn(ops, m, c.p)
  {
    hide SubsOk, RecordsOk, PublishOnce, Ordered, GathersOk;
    var s, op := States(Next, Start(), ops)[m], ops[m];
    if op.RunJob? {
      assert JobOk(s, s.work[0]);
      ChildFree(s, s.work[0].sub.id);
    } else if op.Returned? || op.Thrown? {
      var k :| 0 <= k < |s.ran| && s.ran[k] == s.current.value;
      assert JobOk(s, Invoke(s.ran[k]));
      ChildFree(s, s.ran[k].id);
    }
  }

  /** So the first call of all decides, unless it names another promise. */
  lemma FirstCallDecides(ops: seq<Op>, k: nat, i: nat, p: Id, status: Status, v: Value)
    requires k < i <= |ops| && CallsOn(ops, k, p) && Settles(ops[k], p, status, v)
    requires forall m :: 0 <= m < k ==> !CallsOn(ops, m, p)
    requires States(Next, Start(), ops)[i].work == []
    ensures var t := States(Next, Start(), ops)[i];
      p < |t.proms| && t.proms[p].state == status && t.proms[p].data == v
  {
    hide Next;
    CalledOwned(ops, k, p);
    PendingBefore(ops, k, p);
    CallDecides(ops, k, i, p, status, v);
  }

  lemma CalledOwned(ops: seq<Op>, k: nat, p: Id)
    requires k < |ops| && CallsOn(ops, k, p)
    ensures p < |States(Next, Start(), ops)[k].proms| && States(Next, Start(), ops)[k].proms[p].role == Owned
  {
  }

  /** What a call of the program lays down. */
  function CallFate(op: Op): Fate {
    match op
    case ResolveOwned(p, v) => Called(p, v)
    case RejectOwned(_, v) => Rejects(v)
    case _ => Fulfils(UNDEFINED)
  }

  lemma LaidFate(ops: seq<Op>, m: nat, c: Commit)
    requires m < |ops| && CallsOn(ops, m, c.p)
    ensures LaidAt(ops, m, c) <==> c.fate == CallFate(ops[m])
  {
  }

  /** In every run, whenever the queue is drained: a promise of the program that has settled has what one of the
      program's calls on it laid down. */
  lemma SomeCallDecides(ops: seq<Op>, i: nat, p: Id) returns (k: nat)
    requires i <= |ops| && States(Next, Start(), ops)[i].work == []
    requires var t := States(Next, Start(), ops)[i]; p < |t.proms| && t.proms[p].role == Owned && t.proms[p].state != Pending
    ensures k < i && CallsOn(ops, k, p) && Has(States(Next, Start(), ops)[i], p, CallFate(ops[k]))
  {
    hide Inv, Next, Fated, Laid, Done, Extends, Has, CallsOn, LaidAt, CallFate;
    var t, h := States(Next, Start(), ops)[i], History(ops, i);
    RunFated(ops, i);
    var j := CauseDone(t, h, p);
    DoneHas(t, p, h[j].fate);
    k := HistoryAt(ops, i, h[j]);
    RunInv(ops, k);
    LaidHere(ops, k, h[j]);
    RunForward(ops, k, i);
    SameRole(States(Next, Start(), ops)[k], t, p);
    LaidCalls(ops, k, h[j]);
    LaidFate(ops, k, h[j]);
  }

  lemma LaidHere(ops: seq<Op>, m: nat, c: Commit)
    requires m < |ops| && LaidAt(ops, m, c) && Inv(States(Next, Start(), ops)[m])
    ensures c.p < |States(Next, Start(), ops)[m].proms|
  {
    hide Inv, Next, Laid;
    LaidThere(States(Next, Start(), ops)[m], ops[m], c);
  }

  lemma CauseDone(s: State, h: seq<Commit>, p: Id) returns (j: nat)
    requires Fated(s, h, s.current) && Free(s, p) && s.proms[p].state != Pending
    ensures j < |h| && h[j].p == p && Done(s, p, h[j].fate)
  {
    assert HasCause(s, h, p);
    j :| 0 <= j < |h| && h[j].p == p && Done(s, p, h[j].fate);
  }

  /** A promise that the program has resolved with another one is settled once that one is; and if that was the only
      call on it, it has the outcome of that one, and is pending until then. */
  lemma FollowDecides(ops: seq<Op>, k: nat, i: nat, p: Id, q: Id)
    requires k < i <= |ops| && CallsOn(ops, k, p) && ops[k] == ResolveOwned(p, Prom(q)) && q != p
    requires States(Next, Start(), ops)[i].work == []
    ensures var t := States(Next, Start(), ops)[i];
      && p < |t.proms| && q < |t.proms| && (Settled(t.proms[q]) ==> Settled(t.proms[p]))
      && ((forall m :: 0 <= m < i && m != k ==> !CallsOn(ops, m, p)) ==> Has(t, p, Follows(q)))
  {
    hide Inv, Next, Laid, Has, CallsOn, LaidAt, History;
    var t, c := States(Next, Start(), ops)[i], Commit(p, Follows(q));
    LaidFate(ops, k, c);
    HistoryHas(ops, i, k, c);
    FollowsFound(ops, i, p, q);
    if Settled(t.proms[q]) {
      FollowedSettles(ops, i, p, q);
      Drained(ops, i, p);
    }
    if forall m :: 0 <= m < i && m != k ==> !CallsOn(ops, m, p) {
      forall d | d in History(ops, i) && d.p == p ensures d.fate == Follows(q) {
        OnlyCall(ops, k, i, p, d);
      }
      OnlyFate(ops, i, p, Follows(q));
    }
  }

  lemma FollowsFound(ops: seq<Op>, i: nat, p: Id, q: Id)
    requires i <= |ops| && Commit(p, Follows(q)) in History(ops, i)
    ensures var t := States(Next, Start(), ops)[i]; p < |t.proms| && q < |t.proms| && Followed(t, p, q)
  {
    hide Inv, Next, History, Followed;
    RunFated(ops, i);
    var h := History(ops, i);
    var j :| 0 <= j < |h| && h[j] == Commit(p, Follows(q));
    assert CommitOk(States(Next, Start(), ops)[i], h[j]);
  }

  /** What is laid down for a promise of the program comes from a call on it. */
  lemma OnlyCall(ops: seq<Op>, k: nat, i: nat, p: Id, d: Commit)
    requires k < i <= |ops| && CallsOn(ops, k, p) && d in History(ops, i) && d.p == p
    requires forall m :: 0 <= m < i && m != k ==> !CallsOn(ops, m, p)
    ensures d.fate == CallFate(ops[k])
  {
    hide Inv, Next, Laid, LaidAt, History, CallsOn, CallFate, Extends;
    var m := HistoryAt(ops, i, d);
    RunInv(ops, m);
    LaidHere(ops, m, d);
    CalledOwned(ops, k, p);
    RoleAlways(ops, k, m, p);
    LaidCalls(ops, m, d);
    LaidFate(ops, m, d);
  }

  lemma RoleAlways(ops: seq<Op>, k: nat, m: nat, p: Id)
    requires k <= |ops| && m <= |ops|
    requires p < |States(Next, Start(), ops)[k].proms| && p < |States(Next, Start(), ops)[m].proms|
    ensures States(Next, Start(), ops)[m].proms[p].role == States(Next, Start(), ops)[k].proms[p].role
  {
    hide Next, Extends;
    if k <= m {
      RunForward(ops, k, m);
      SameRole(States(Next, Start(), ops)[k], States(Next, Start(), ops)[m], p);
    } else {
      RunForward(ops, m, k);
      SameRole(States(Next, Start(), ops)[m], States(Next, Start(), ops)[k], p);
    }
  }

  /** The run of a program that resolves a promise with another one, which stays pending, and then with 5. */
  const OVERRULED: seq<Op> :=
    [New, New, ResolveOwned(0, Prom(1)), ResolveOwned(0, Plain(5)), BeginFlush, RunJob, EndFlush]

  /** A first call that names another promise does not decide: a later one can overrule it. */
  lemma FirstCallOverruled()
    ensures |OVERRULED| == 7 && CallsOn(OVERRULED, 2, 0) && CallFate(OVERRULED[2]) == Follows(1)
    ensures var t := States(Next, Start(), OVERRULED)[7];
      && t.work == [] && |t.proms| >= 2 && t.proms[1].state == Pending
      && t.proms[0].state == Fulfilled && t.proms[0].data == Plain(5)
  {
    hide Next;
    var r := States(Next, Start(), OVERRULED);
    StatesChain(Next, Start(), OVERRULED);
    assert r[1] == Next(r[0], New) && r[2] == Next(r[1], New) && r[3] == Next(r[2], ResolveOwned(0, Prom(1)));
    assert r[4] == Next(r[3], ResolveOwned(0, Plain(5))) && r[5] == Next(r[4], BeginFlush);
    assert r[6] == Next(r[5], RunJob) && r[7] == Next(r[6], EndFlush);
    OverruledStart(r[0], r[1], r[2], r[3]);
    OverruledEnd(r[3], r[4], r[5], r[6], r[7]);
  }

  /** Two pending promises, the first of which follows the second. */
  ghost predicate Following(s: State) {
    && |s.proms| == 3 && s.work == [] && !s.timer && !s.flushing && s.current.None?
    && s.proms[0] == Record(Pending, UNDEFINED, Some([]), Owned) && s.proms[1].state == Pending
  }

  lemma OverruledStart(a: State, b: State, c: State, d: State)
    requires a == Start() && b == Next(a, New) && c == Next(b, New) && d == Next(c, ResolveOwned(0, Prom(1)))
    ensures Following(d) && Enabled(c, ResolveOwned(0, Prom(1)))
  {
    assert b == NewPromise(a, Owned);
    assert c == NewPromise(b, Owned);
    assert d == Then(c, 1, AdoptValue(0, 1), AdoptReason(0));
  }

  lemma OverruledEnd(d: State, e: State, f: State, g: State, t: State)
    requires Following(d) && e == Next(d, ResolveOwned(0, Plain(5))) && f == Next(e, BeginFlush)
    requires g == Next(f, RunJob) && t == Next(g, EndFlush)
    ensures t.work == [] && |t.proms| >= 2 && t.proms[1].state == Pending
    ensures t.proms[0].state == Fulfilled && t.proms[0].data == Plain(5)
  {
    assert e == Fulfill(d, 0, Plain(5));
    assert f.work == [PublishFulfillment(0)];
    assert g == PublishWith(f.(work := []), 0, Fulfilled);
    assert g.work == [];
  }
}
