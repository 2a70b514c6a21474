/** The small changes all steps are made of, and that each keeps the invariants (libjs/init/promise.js). */
module PromiseKeeps {
  import opened Promise
  import opened PromiseInv

  // ---------------------------------------------------------------------------------------------
  // A new promise

  lemma NewRecords(s: State, t: State, role: Role)
    requires RecordsOk(s) && t.proms == s.proms + [Record(Pending, UNDEFINED, Some([]), role)] && t.made == s.made
    ensures RecordsOk(t)
  {
    forall p | 0 <= p < |t.proms| ensures RecordOk(t, p) {
      if p < |s.proms| {
        assert RecordOk(s, p);
        assert t.proms[p] == s.proms[p] && Waiting(t, p) == Waiting(s, p);
        forall i | 0 <= i < |Waiting(t, p)| ensures Registered(t, Waiting(t, p)[i]) && Waiting(t, p)[i].owner == p {
          assert Registered(s, Waiting(s, p)[i]);
        }
      } else {
        assert Waiting(t, p) == [];
      }
    }
  }

  lemma NewJobs(s: State, t: State, role: Role)
    requires JobsOk(s) && RanOk(s) && t.proms == s.proms + [Record(Pending, UNDEFINED, Some([]), role)]
    requires t.made == s.made && t.work == s.work && t.ran == s.ran && t.current == s.current
    ensures JobsOk(t) && RanOk(t)
  {
    forall i | 0 <= i < |t.work| ensures JobOk(t, t.work[i]) {
      assert JobOk(s, s.work[i]);
    }
    forall i | 0 <= i < |t.ran| ensures JobOk(t, Invoke(t.ran[i])) {
      assert JobOk(s, Invoke(s.ran[i]));
    }
  }

  /** No job and no subscriber belongs to a promise that does not exist yet. */
  lemma {:induction false} NothingPublished(s: State, work: seq<Job>, p: Id)
    requires |s.proms| <= p && forall i :: 0 <= i < |work| ==> JobOk(s, work[i])
    ensures Publications(work, p) == 0
    decreases |work|
  {
    if work != [] {
      NothingPublished(s, work[..|work| - 1], p);
      assert JobOk(s, work[|work| - 1]);
    }
  }

  lemma {:induction false} NothingWaits(s: State, work: seq<Job>, p: Id)
    requires |s.proms| <= p && forall i :: 0 <= i < |work| ==> JobOk(s, work[i])
    ensures Waits(work, p) == []
    decreases |work|
  {
    if work != [] {
      NothingWaits(s, work[..|work| - 1], p);
      assert JobOk(s, work[|work| - 1]);
    }
  }

  lemma {:induction false} NothingOwned(s: State, xs: seq<Sub>, p: Id)
    requires |s.proms| <= p && forall i :: 0 <= i < |xs| ==> xs[i].owner < |s.proms|
    ensures OfOwner(xs, p) == []
    decreases |xs|
  {
    if xs != [] {
      NothingOwned(s, xs[..|xs| - 1], p);
      assert xs[|xs| - 1].owner < |s.proms|;
    }
  }

  lemma NewOrder(s: State, t: State, role: Role)
    requires SubsOk(s) && JobsOk(s) && RanOk(s) && PublishOnce(s) && Ordered(s)
    requires t.proms == s.proms + [Record(Pending, UNDEFINED, Some([]), role)]
    requires t.made == s.made && t.work == s.work && t.ran == s.ran
    ensures PublishOnce(t) && Ordered(t)
  {
    hide OfOwner, Waits, Publications;
    var n := |s.proms|;
    NothingPublished(s, s.work, n);
    NothingWaits(s, s.work, n);
    assert forall i :: 0 <= i < |s.made| ==> SubOk(s, s.made[i]);
    NothingOwned(s, s.made, n);
    assert forall i :: 0 <= i < |s.ran| ==> JobOk(s, Invoke(s.ran[i]));
    NothingOwned(s, s.ran, n);
    forall p | 0 <= p < |t.proms| ensures Publications(t.work, p) == if t.proms[p].state == Sealed then 1 else 0 {
      if p < n {
        assert t.proms[p] == s.proms[p];
      }
    }
    forall o | 0 <= o < |t.proms| ensures OrderOk(t, o) {
      if o < n {
        assert OrderOk(s, o) && t.proms[o] == s.proms[o];
      }
    }
  }

  lemma GathersKeep(s: State, t: State)
    requires GathersOk(s) && Extends(s, t) && t.gathers == s.gathers && t.made == s.made && s.ran <= t.ran
    requires |t.proms| == |s.proms|
    requires forall p :: 0 <= p < |s.proms| ==>
      (s.proms[p].state == Fulfilled ==> t.proms[p].state == Fulfilled && t.proms[p].data == s.proms[p].data)
    requires forall a :: 0 <= a < |s.gathers| && GatherOk(s, a) ==> TargetOk(t, a)
    ensures GathersOk(t)
  {
    hide TargetOk;
    forall a | 0 <= a < |t.gathers| ensures GatherOk(t, a) {
      assert GatherOk(s, a);
      ResultsKeep(s, t, a);
    }
  }

  lemma ResultsKeep(s: State, t: State, a: nat)
    requires a < |s.gathers| && GatherOk(s, a) && t.gathers == s.gathers && s.ran <= t.ran && |s.proms| <= |t.proms|
    requires forall p :: 0 <= p < |s.proms| ==>
      (s.proms[p].state == Fulfilled ==> t.proms[p].state == Fulfilled && t.proms[p].data == s.proms[p].data)
    ensures forall i :: 0 <= i < |s.gathers[a].inputs| ==> ResultOk(t, a, i)
  {
    hide TargetOk;
    forall i | 0 <= i < |s.gathers[a].inputs| ensures ResultOk(t, a, i) {
      assert ResultOk(s, a, i);
      if SlotRan(s, a, i) {
        var k :| 0 <= k < |s.ran| && s.ran[k].fulfilled == Slot(a, i);
        assert t.ran[k] == s.ran[k];
      }
    }
  }

  lemma NewGathers(s: State, t: State, role: Role)
    requires GathersOk(s) && JobsOk(s) && !role.Gathers? && t == NewPromise(s, role)
    ensures GathersOk(t)
  {
    hide TargetOk;
    forall a | 0 <= a < |t.gathers| ensures GatherOk(t, a) {
      assert GatherOk(s, a);
      ResultsKeep(s, t, a);
      assert TargetOk(s, a);
      TargetSame(s, t, a);
    }
  }

  lemma TargetSame(s: State, t: State, a: nat)
    requires a < |s.gathers| && a < |t.gathers| && s.gathers[a].target < |s.proms| <= |t.proms| && TargetOk(s, a)
    requires t.gathers[a].target == s.gathers[a].target && t.gathers[a].remaining == s.gathers[a].remaining
    requires t.proms[s.gathers[a].target].state == s.proms[s.gathers[a].target].state
    requires t.proms[s.gathers[a].target].data == s.proms[s.gathers[a].target].data
    requires PublishFulfillment(s.gathers[a].target) in t.work ==> PublishFulfillment(s.gathers[a].target) in s.work
    ensures TargetOk(t, a)
  {
  }

  lemma NewKeeps(s: State, role: Role)
    requires Inv(s) && !role.Gathers?
    ensures Inv(NewPromise(s, role)) && Extends(s, NewPromise(s, role))
  {
    hide SubsOk, JobsOk, RanOk, RecordsOk, PublishOnce, Ordered, GathersOk;
    var t := NewPromise(s, role);
    SubsStay(s, t);
    NewRecords(s, t, role);
    NewJobs(s, t, role);
    NewOrder(s, t, role);
    NewGathers(s, t, role);
  }

  // ---------------------------------------------------------------------------------------------
  // A new subscriber

  /** The part of `then` after the new promise. */
  function Register(s: State, x: Sub): State
    requires x.owner < |s.proms|
  {
    var t := s.(made := s.made + [x]);
    if s.proms[x.owner].then_.None? then AsyncCall(t, Invoke(x))
    else t.(proms := t.proms[x.owner := t.proms[x.owner].(then_ := Some(t.proms[x.owner].then_.value + [x]))])
  }

  ghost predicate Registrable(s: State, x: Sub) {
    && x.id == |s.made| && SubOk(s, x)
    && (x.fulfilled.Slot? ==> forall i :: 0 <= i < |s.made| ==> s.made[i].fulfilled != x.fulfilled)
  }

  lemma RegisterSubs(s: State, x: Sub)
    requires SubsOk(s) && Registrable(s, x) && x.owner < |s.proms|
    ensures SubsOk(Register(s, x)) && Extends(s, Register(s, x))
  {
    hide SubOk;
    OwnerIn(s, x);
    var t := Register(s, x);
    forall i | 0 <= i < |t.made| ensures t.made[i].id == i && SubOk(t, t.made[i]) {
      if i < |s.made| {
        SubStays(s, t, s.made[i]);
      } else {
        SubStays(s, t, x);
      }
    }
  }

  lemma OwnerIn(s: State, x: Sub)
    requires SubOk(s, x)
    ensures x.owner < |s.proms|
  {
  }

  lemma RegisterRecords(s: State, x: Sub)
    requires RecordsOk(s) && x.id == |s.made| && x.owner < |s.proms|
    ensures RecordsOk(Register(s, x))
  {
    var t := Register(s, x);
    forall p | 0 <= p < |t.proms| ensures RecordOk(t, p) {
      assert RecordOk(s, p);
      forall i | 0 <= i < |Waiting(t, p)| ensures Registered(t, Waiting(t, p)[i]) && Waiting(t, p)[i].owner == p {
        if i < |Waiting(s, p)| {
          assert Waiting(t, p)[i] == Waiting(s, p)[i];
        }
      }
    }
  }

  lemma RegisterJobs(s: State, x: Sub)
    requires JobsOk(s) && RanOk(s) && RecordsOk(s) && x.id == |s.made| && x.owner < |s.proms|
    ensures JobsOk(Register(s, x)) && RanOk(Register(s, x))
  {
    var t := Register(s, x);
    assert RecordOk(s, x.owner);
    forall i | 0 <= i < |t.work| ensures JobOk(t, t.work[i]) {
      if i < |s.work| {
        assert JobOk(s, s.work[i]);
      }
    }
    forall i | 0 <= i < |t.ran| ensures JobOk(t, Invoke(t.ran[i])) {
      assert JobOk(s, Invoke(s.ran[i]));
    }
  }

  lemma RegisterOrder(s: State, x: Sub)
    requires PublishOnce(s) && Ordered(s) && x.owner < |s.proms|
    ensures PublishOnce(Register(s, x)) && Ordered(Register(s, x))
  {
    hide OfOwner, Waits, Publications;
    var t := Register(s, x);
    forall p | 0 <= p < |t.proms| ensures Publications(t.work, p) == if t.proms[p].state == Sealed then 1 else 0 {
      PublicationsLast(s.work, Invoke(x), p);
      assert t.proms[p].state == s.proms[p].state;
    }
    forall o | 0 <= o < |t.proms| ensures OrderOk(t, o) {
      assert OrderOk(s, o);
      OfOwnerLast(s.made, x, o);
      WaitsLast(s.work, Invoke(x), o);
      JoinEnd(OfOwner(s.ran, o), Waits(s.work, o), Waiting(s, o), x);
    }
  }

  lemma JoinEnd(a: seq<Sub>, b: seq<Sub>, c: seq<Sub>, x: Sub)
    ensures a + b + c + [x] == a + b + (c + [x]) && (c == [] ==> a + b + c + [x] == a + (b + [x]) + c)
    ensures a + b + c + [] == a + b + c && a + (b + []) + c == a + b + c
  {
  }

  lemma RegisterGathers(s: State, x: Sub)
    requires GathersOk(s) && Registrable(s, x) && x.owner < |s.proms|
    ensures GathersOk(Register(s, x))
  {
    hide SubOk, TargetOk;
    var t := Register(s, x);
    forall a | 0 <= a < |t.gathers| ensures GatherOk(t, a) {
      assert GatherOk(s, a);
      ResultsKeep(s, t, a);
      assert TargetOk(s, a);
      TargetSame(s, t, a);
    }
    assert SlotsUnique(t) by {
      forall i, j | 0 <= i < j < |t.made| && t.made[i].fulfilled.Slot? ensures t.made[i].fulfilled != t.made[j].fulfilled {
        assert t.made[i] == s.made[i];
      }
    }
  }

  lemma RegisterKeeps(s: State, x: Sub)
    requires Inv(s) && Registrable(s, x) && x.owner < |s.proms|
    ensures Inv(Register(s, x)) && Extends(s, Register(s, x))
  {
    hide SubsOk, JobsOk, RanOk, RecordsOk, PublishOnce, Ordered, GathersOk, SubOk;
    RegisterSubs(s, x);
    RegisterRecords(s, x);
    RegisterJobs(s, x);
    RegisterOrder(s, x);
    RegisterGathers(s, x);
  }

  /** `then` keeps the invariants. */
  lemma ThenKeeps(s: State, owner: Id, f: Handler, r: Handler)
    requires Inv(s) && owner < |s.proms|
    requires var x := Sub(|s.made|, owner, |s.proms|, f, r);
      && HandlerOk(s, x, f) && HandlerOk(s, x, r) && !r.Slot?
      && (f.Slot? ==> forall i :: 0 <= i < |s.made| ==> s.made[i].fulfilled != f)
    ensures Inv(Then(s, owner, f, r)) && Extends(s, Then(s, owner, f, r))
  {
    hide Inv;
    var x := Sub(|s.made|, owner, |s.proms|, f, r);
    var t := NewPromise(s, Child);
    NewKeeps(s, Child);
    HandlerStays(s, t, x, f);
    HandlerStays(s, t, x, r);
    assert Registrable(t, x);
    RegisterKeeps(t, x);
    assert Then(s, owner, f, r) == Register(t, x);
    ExtendsJoin(s, t, Register(t, x));
  }

  lemma ExtendsJoin(s: State, t: State, u: State)
    requires Extends(s, t) && Extends(t, u)
    ensures Extends(s, u)
  {
    forall p | 0 <= p < |s.proms| ensures Grows(s.proms[p], u.proms[p]) {
      assert Grows(s.proms[p], t.proms[p]) && Grows(t.proms[p], u.proms[p]);
    }
    forall a | 0 <= a < |s.gathers| ensures SameGather(s.gathers[a], u.gathers[a]) {
      assert SameGather(s.gathers[a], t.gathers[a]) && SameGather(t.gathers[a], u.gathers[a]);
    }
  }
}
