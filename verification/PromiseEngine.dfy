/** The polyfill with its fields and its queue assigned in place (libjs/init/promise.js). */
module PromiseEngine {
  import opened Promise
  import opened PromiseInv
  import opened PromiseSteps
  import opened PromiseRuns
  import opened Runs

  class Engine {
    var proms: seq<Record>
    var asyncQueue: seq<Job>
    var asyncTimer: bool
    var flushing: bool
    var current: Option<Sub>
    var gathers: seq<Gather>
    ghost var made: seq<Sub>
    ghost var ran: seq<Sub>
    var nextSub: nat
    /** How many jobs of the queue the flush has taken up, and which subscribers of the publication in progress it has
        still to serve: the loop variables of `asyncFlush` and `publish`. */
    ghost var taken: nat
    ghost var pending: seq<Sub>

    ghost function Now(): State
      reads this
    {
      State(proms, Work(), asyncTimer, flushing, current, gathers, made, ran)
    }

    /** What the flush still has to do: the rest of the publication in progress, then the rest of the queue. */
    ghost function Work(): seq<Job>
      reads this
    {
      Invokes(pending) + if taken <= |asyncQueue| then asyncQueue[taken..] else []
    }

    ghost predicate Tidy()
      reads this
    {
      nextSub == |made| && taken <= |asyncQueue|
    }

    ghost predicate Valid()
      reads this
    {
      Inv(Now()) && Tidy()
    }

    constructor ()
      ensures Valid() && Now() == Start() && taken == 0 && pending == []
    {
      proms, asyncQueue, asyncTimer, flushing, current, gathers := [], [], false, false, None, [];
      made, ran, nextSub, taken, pending := [], [], 0, 0, [];
      new;
      StartInv();
    }

    method AsyncCall(job: Job)
      requires Tidy()
      modifies `asyncQueue, `asyncTimer
      ensures Tidy() && Now() == Promise.AsyncCall(old(Now()), job)
    {
      ghost var work := Work();
      asyncQueue := asyncQueue + [job];
      assert Work() == work + [job];
      if !asyncTimer {
        asyncTimer := true;
      }
    }

    method Make(role: Role) returns (p: Id)
      modifies `proms
      ensures p == |old(proms)| && Now() == NewPromise(old(Now()), role)
    {
      p := |proms|;
      proms := proms + [Record(Pending, UNDEFINED, Some([]), role)];
    }

    method Fulfill(p: Id, v: Value)
      requires p < |proms| && Tidy()
      modifies `proms, `asyncQueue, `asyncTimer
      ensures Tidy() && Now() == Promise.Fulfill(old(Now()), p, v)
    {
      if proms[p].state == Pending {
        proms := proms[p := proms[p].(state := Sealed)];
        proms := proms[p := proms[p].(data := v)];
        AsyncCall(PublishFulfillment(p));
      }
    }

    method Reject(p: Id, v: Value)
      requires p < |proms| && Tidy()
      modifies `proms, `asyncQueue, `asyncTimer
      ensures Tidy() && Now() == Promise.Reject(old(Now()), p, v)
    {
      if proms[p].state == Pending {
        proms := proms[p := proms[p].(state := Sealed)];
        proms := proms[p := proms[p].(data := v)];
        AsyncCall(PublishRejection(p));
      }
    }

    method Then(owner: Id, fulfilled: Handler, rejected: Handler) returns (child: Id)
      requires owner < |proms| && Tidy()
      requires proms[owner].then_.None? <==> Settled(proms[owner])
      modifies `proms, `asyncQueue, `asyncTimer, `made, `nextSub
      ensures child == |old(proms)| && Tidy() && Now() == Promise.Then(old(Now()), owner, fulfilled, rejected)
    {
      child := Make(Child);
      var x := Sub(nextSub, owner, child, fulfilled, rejected);
      made := made + [x];
      nextSub := nextSub + 1;
      if proms[owner].state == Fulfilled || proms[owner].state == Rejected {
        AsyncCall(Invoke(x));
      } else {
        proms := proms[owner := proms[owner].(then_ := Some(proms[owner].then_.value + [x]))];
      }
    }

    ghost predicate Usable(v: Value)
      reads this
    {
      && Tidy()
      && (v.Prom? ==> v.p < |proms| && (proms[v.p].then_.None? <==> Settled(proms[v.p])))
    }

    method HandleThenable(p: Id, v: Value) returns (handled: bool)
      requires p < |proms| && Usable(v)
      modifies `proms, `asyncQueue, `asyncTimer, `made, `nextSub
      ensures Tidy() && (Now(), handled) == Promise.HandleThenable(old(Now()), p, v)
    {
      if v == Prom(p) {
        Reject(p, TYPE_ERROR);
        return true;
      }
      if v.Prom? {
        var _ := Then(v.p, AdoptValue(p, v.p), AdoptReason(p));
        return true;
      }
      return false;
    }

    method Resolve(p: Id, v: Value)
      requires p < |proms| && Usable(v)
      modifies `proms, `asyncQueue, `asyncTimer, `made, `nextSub
      ensures Tidy() && Now() == Promise.Resolve(old(Now()), p, v)
    {
      if v == Prom(p) {
        Fulfill(p, v);
        return;
      }
      var handled := HandleThenable(p, v);
      if !handled {
        Fulfill(p, v);
      }
    }

    method Settle(child: Id, v: Value, rejecting: bool)
      requires child < |proms| && Usable(v)
      modifies `proms, `asyncQueue, `asyncTimer, `made, `nextSub
      ensures Tidy() && Now() == Promise.Settle(old(Now()), child, v, rejecting)
    {
      var handled := HandleThenable(child, v);
      if !handled {
        if !rejecting {
          Resolve(child, v);
        } else {
          Reject(child, v);
        }
      }
    }

    method FillSlot(all: nat, index: nat, v: Value)
      requires all < |gathers| && index < |gathers[all].results| && gathers[all].target < |proms| && Tidy()
      modifies `proms, `asyncQueue, `asyncTimer, `made, `nextSub, `gathers
      ensures Tidy() && Now() == Promise.FillSlot(old(Now()), all, index, v)
    {
      var g := gathers[all];
      g := g.(results := g.results[index := Some(v)]);
      g := g.(remaining := g.remaining - 1);
      gathers := gathers[all := g];
      if g.remaining == 0 {
        Resolve(g.target, Results(all));
      }
    }

    /** `Promise.all`. */
    method All(inputs: seq<Value>) returns (target: Id)
      requires Valid() && forall i :: 0 <= i < |inputs| ==> Known(Now(), inputs[i])
      modifies `proms, `asyncQueue, `asyncTimer, `made, `nextSub, `gathers
      ensures Valid() && target == |old(proms)| && Now() == Promise.All(old(Now()), inputs)
    {
      hide Inv, Gathering, GatherFrom, Slots, Empty, Promise.All, Promise.Fulfill, Extends, SlotsBelow;
      AllParts(Now(), inputs);
      AllKeeps(Now(), inputs);
      var all, remaining;
      all, target, remaining := OpenGather(inputs);
      WaitFor(inputs, all, target);
      if remaining == 0 {
        Fulfill(target, Results(all));
      }
    }

    /** The promise for all and its record of results. */
    method OpenGather(inputs: seq<Value>) returns (all: nat, target: Id, remaining: int)
      requires Tidy()
      modifies `proms, `gathers
      ensures Tidy() && all == |old(gathers)| && target == |old(proms)| && remaining == Empty(Slots(inputs))
      ensures Now() == Gathering(old(Now()), inputs)
    {
      all := |gathers|;
      target := Make(Gathers(all));
      var results;
      results, remaining := CountInputs(inputs);
      gathers := gathers + [Gather(inputs, results, remaining, target)];
    }

    /** Each promise among the inputs is waited for. */
    method WaitFor(inputs: seq<Value>, all: nat, target: Id)
      requires Valid() && Awaits(Now(), inputs, all, target)
      modifies `proms, `asyncQueue, `asyncTimer, `made, `nextSub
      ensures Tidy() && Now() == GatherFrom(old(Now()), inputs, all, target, |inputs|)
    {
      hide Inv, Promise.Then, GatherFrom, SlotsBelow, Extends;
      ghost var gathered := Now();
      GatherStart(gathered, inputs, all, target);
      for i := 0 to |inputs|
        invariant Tidy() && Inv(Now()) && Now() == GatherFrom(gathered, inputs, all, target, i)
      {
        GatherNext(gathered, inputs, all, target, i);
        if inputs[i].Prom? {
          InvRecord(Now(), inputs[i].p);
          var _ := Then(inputs[i].p, Slot(all, i), GatherReason(target));
        }
      }
    }

    /** Plain inputs are results at once, and each promise is waited for. */
    method CountInputs(inputs: seq<Value>) returns (results: seq<Option<Value>>, remaining: int)
      ensures results == Slots(inputs) && remaining == Empty(Slots(inputs))
    {
      results, remaining := [], 0;
      for i := 0 to |inputs|
        invariant results == Slots(inputs)[..i] && remaining == Empty(results)
      {
        ghost var front := results;
        if inputs[i].Prom? {
          remaining := remaining + 1;
          results := results + [None];
        } else {
          results := results + [Some(inputs[i])];
        }
        assert results[..i] == front;
      }
      assert Slots(inputs)[..|inputs|] == Slots(inputs);
    }

    /** The callbacks that are not the program's. */
    method RunInternal(h: Handler, v: Value)
      requires HandlerIn(Now(), h) && Usable(v)
      modifies `proms, `asyncQueue, `asyncTimer, `made, `nextSub, `gathers
      ensures Tidy() && |proms| >= |old(proms)| && Now() == Promise.RunInternal(old(Now()), h, v)
    {
      hide Promise.Fulfill, Promise.Resolve, Promise.Reject, Promise.FillSlot;
      InternalLength(Now(), h, v);
      match h
      case AdoptValue(target, source) =>
        if v == Prom(source) {
          Fulfill(target, v);
        } else {
          Resolve(target, v);
        }
      case AdoptReason(target) => Reject(target, v);
      case Slot(all, index) => FillSlot(all, index, v);
      case GatherReason(target) => Reject(target, v);
      case _ =>
    }

    /** `invokeCallback` up to the call of a function of the program: which callback it is, and with what value. */
    method InvokeCallback(x: Sub) returns (callback: Handler, value: Value)
      requires Servable(Now(), x) && Usable(proms[x.owner].data)
      modifies `proms, `asyncQueue, `asyncTimer, `made, `nextSub, `gathers, `ran, `current
      ensures Tidy() && Now() == Serve(old(Now()), x)
      ensures callback == CallbackOf(x, old(proms)[x.owner]) && value == old(proms)[x.owner].data
      ensures current == if callback.User? then Some(x) else old(current)
    {
      var settled := proms[x.owner].state;
      value := proms[x.owner].data;
      callback := if settled == Fulfilled then x.fulfilled else x.rejected;
      ran := ran + [x];
      if callback.User? {
        current := Some(x);
      } else if callback.NoHandler? {
        Settle(x.child, value, settled != Fulfilled);
      } else {
        RunInternal(callback, value);
        Settle(x.child, UNDEFINED, false);
      }
    }

    /** A function of the program has returned. */
    method Returned(v: Value)
      requires Valid() && current.Some? && Known(Now(), v)
      modifies `proms, `asyncQueue, `asyncTimer, `made, `nextSub, `current
      ensures Valid() && current.None? && Now() == Next(old(Now()), Op.Returned(v))
    {
      hide Inv, Promise.Settle, Servable;
      RunningServable(Now());
      ReturnReady(Now());
      NextKeeps(Now(), Op.Returned(v));
      if v.Prom? {
        InvRecord(Now(), v.p);
      }
      var x := current.value;
      current := None;
      Settle(x.child, v, false);
    }

    /** A function of the program has thrown. */
    method Thrown(e: Value)
      requires Valid() && current.Some? && Known(Now(), e)
      modifies `proms, `asyncQueue, `asyncTimer, `made, `nextSub, `current
      ensures Valid() && current.None? && Now() == Next(old(Now()), Op.Thrown(e))
    {
      hide Inv, Promise.Settle, Promise.Reject, Next, Servable;
      ThrowReady(Now(), e);
      var x := current.value;
      var value := proms[x.owner].data;
      current := None;
      Reject(x.child, e);
      Settle(x.child, value, false);
    }

    /** What the program does at one moment, if it can. */
    method Perform(op: Op)
      requires Valid() && OpOfProgram(op) && ProgramRuns(Now())
      modifies `proms, `asyncQueue, `asyncTimer, `made, `nextSub, `gathers
      ensures Valid() && Now() == Next(old(Now()), op)
    {
      hide Inv, Promise.Then, Promise.Resolve, Seal, Promise.All;
      NextKeeps(Now(), op);
      match op
      case New =>
        var _ := Make(Owned);
      case Subscribe(p, fulfilled, rejected) =>
        if p < |proms| && OfProgram(fulfilled) && OfProgram(rejected) {
          InvRecord(Now(), p);
          var _ := Then(p, fulfilled, rejected);
        }
      case ResolveOwned(p, v) =>
        if p < |proms| && proms[p].role == Owned && (v.Prom? ==> v.p < |proms|) {
          if v.Prom? {
            InvRecord(Now(), v.p);
          }
          Resolve(p, v);
        }
      case RejectOwned(p, v) =>
        if p < |proms| && proms[p].role == Owned && (v.Prom? ==> v.p < |proms|) {
          Reject(p, v);
        }
      case GatherAll(inputs) =>
        if forall i :: 0 <= i < |inputs| ==> (inputs[i].Prom? ==> inputs[i].p < |proms|) {
          assert forall i :: 0 <= i < |inputs| ==> Known(Now(), inputs[i]);
          var _ := All(inputs);
        }
    }

    /** A function of the program runs to its end: what it does, and what it returns or throws. */
    method RunFunction(act: Act) returns (ghost ops: seq<Op>)
      requires Valid() && current.Some? && forall op :: op in act.ops ==> OpOfProgram(op)
      modifies `proms, `asyncQueue, `asyncTimer, `made, `nextSub, `gathers, `current
      ensures Valid() && current.None? && Now() == After(old(Now()), ops) && Inside(ops) && Plays(ops, act)
    {
      hide Inv, Next, After;
      ops := [];
      AfterNone(Now());
      for i := 0 to |act.ops|
        invariant Valid() && current.Some? && Now() == After(old(Now()), ops) && Inside(ops) && ops == act.ops[..i]
      {
        AfterStep(old(Now()), ops, act.ops[i]);
        ops := ops + [act.ops[i]];
        Perform(act.ops[i]);
      }
      var v := act.outcome.v;
      if v.Prom? && v.p >= |proms| {
        v := UNDEFINED;
      }
      if act.outcome.Gives? {
        AfterStep(old(Now()), ops, Op.Returned(v));
        ops := ops + [Op.Returned(v)];
        Returned(v);
      } else {
        AfterStep(old(Now()), ops, Op.Thrown(v));
        ops := ops + [Op.Thrown(v)];
        Thrown(v);
      }
    }

    /** `invokeCallback` on the subscriber whose turn it is; `k` functions of the program have been called before. The
        one that is called now is the callback for the owner's state, with the owner's data, and what it does is
        played to its end. */
    method Call(x: Sub, calls: (nat, nat, Value) -> Act, k: nat) returns (next: nat, ghost ops: seq<Op>)
      requires Valid() && flushing && current.None? && Work() != [] && Work()[0] == Invoke(x) && AllOfProgram(calls)
      modifies this
      ensures Valid() && flushing && current.None? && Now() == After(old(Now()), ops) && Inside(ops)
      ensures pending == (if old(pending) == [] then [] else old(pending)[1..])
      ensures taken == old(taken) + if old(pending) == [] then 1 else 0
      ensures x.owner < |old(proms)| && |ops| > 0 && ops[0] == Op.RunJob
      ensures var r := old(proms)[x.owner]; var callback := CallbackOf(x, r);
        if callback.User? then next == k + 1 && Plays(ops[1..], calls(k, callback.tag, r.data)) else next == k && |ops| == 1
    {
      hide Inv, After, Plays;
      var callback, value := TakeUp(x);
      ops := [Op.RunJob];
      AfterOne(old(Now()), Op.RunJob);
      next := k;
      if callback.User? {
        var more := RunFunction(calls(k, callback.tag, value));
        assert ([Op.RunJob] + more)[1..] == more;
        AfterJoin(old(Now()), ops, more);
        ops := ops + more;
        next := k + 1;
      }
    }

    /** The subscriber whose turn it is, up to the call of a function of the program. */
    method TakeUp(x: Sub) returns (callback: Handler, value: Value)
      requires Valid() && flushing && current.None? && Work() != [] && Work()[0] == Invoke(x)
      modifies this
      ensures Valid() && flushing && Now() == Next(old(Now()), Op.RunJob)
      ensures x.owner < |old(proms)|
      ensures callback == CallbackOf(x, old(proms)[x.owner]) && value == old(proms)[x.owner].data
      ensures current.Some? <==> callback.User?
      ensures pending == (if old(pending) == [] then [] else old(pending)[1..])
      ensures taken == old(taken) + if old(pending) == [] then 1 else 0
    {
      hide Inv, Serve, Servable, Next;
      ghost var before := Now();
      TakenReady(before, x);
      NextKeeps(before, Op.RunJob);
      Shift();
      callback, value := InvokeCallback(x);
    }

    /** The first of the work is taken off. */
    ghost method Shift()
      requires Tidy() && Work() != []
      requires pending == [] ==> taken < |asyncQueue|
      modifies `taken, `pending
      ensures Tidy() && Now() == old(Now().(work := Work()[1..]))
      ensures pending == (if old(pending) == [] then [] else old(pending)[1..])
      ensures taken == old(taken) + if old(pending) == [] then 1 else 0
    {
      RestOfWork(pending, asyncQueue[taken..]);
      if pending != [] {
        pending := pending[1..];
      } else {
        assert asyncQueue[taken..][1..] == asyncQueue[taken + 1..];
        taken := taken + 1;
      }
    }

    /** The first half of a publication: the state is set and the list taken off. */
    method Unlist(p: Id, status: Status) returns (callbacks: seq<Sub>)
      requires p < |proms| && proms[p].then_.Some? && Tidy() && pending == []
      modifies `proms, `pending
      ensures Tidy() && pending == callbacks && Now() == PublishWith(old(Now()), p, status)
    {
      proms := proms[p := proms[p].(state := status)];
      callbacks := proms[p].then_.value;
      proms := proms[p := proms[p].(then_ := None)];
      pending := callbacks;
    }

    /** `publishFulfillment` and `publishRejection`: the state is set, the list is taken off, and a loop serves every
        subscriber on it before the flush goes on. */
    method Publish(p: Id, status: Status, calls: (nat, nat, Value) -> Act, k: nat) returns (next: nat, ghost ops: seq<Op>)
      requires Valid() && flushing && current.None? && pending == [] && taken < |asyncQueue| && AllOfProgram(calls)
      requires asyncQueue[taken] == if status == Fulfilled then PublishFulfillment(p) else PublishRejection(p)
      requires status == Fulfilled || status == Rejected
      modifies this
      ensures Valid() && flushing && current.None? && pending == [] && taken == old(taken) + 1
      ensures Now() == After(old(Now()), ops) && Inside(ops)
    {
      hide Inv, Serve, PublishWith, After;
      ghost var before := Now();
      assert Work()[0] == asyncQueue[taken];
      StateGoesOn(before);
      NextKeeps(before, Op.RunJob);
      JobReady(before);
      taken := taken + 1;
      assert Work() == before.work[1..];
      var callbacks := Unlist(p, status);
      next, ops := k, [Op.RunJob];
      AfterOne(before, Op.RunJob);
      for i := 0 to |callbacks|
        invariant Valid() && flushing && current.None? && pending == callbacks[i..] && taken == old(taken) + 1
        invariant Now() == After(before, ops) && Inside(ops)
      {
        ghost var more;
        next, more := Call(callbacks[i], calls, next);
        AfterJoin(before, ops, more);
        ops := ops + more;
      }
    }

    /** One job of the queue. */
    method RunJob(job: Job, calls: (nat, nat, Value) -> Act, k: nat) returns (next: nat, ghost ops: seq<Op>)
      requires Valid() && flushing && current.None? && pending == [] && AllOfProgram(calls)
      requires taken < |asyncQueue| && job == asyncQueue[taken]
      modifies this
      ensures Valid() && flushing && current.None? && pending == [] && taken == old(taken) + 1
      ensures Now() == After(old(Now()), ops) && Inside(ops)
    {
      hide Inv, After;
      assert Work()[0] == job;
      match job {
        case PublishFulfillment(p) => next, ops := Publish(p, Fulfilled, calls, k);
        case PublishRejection(p) => next, ops := Publish(p, Rejected, calls, k);
        case Invoke(x) => next, ops := Call(x, calls, k);
      }
    }

    /** `asyncFlush`, observed for as many jobs of the queue as wanted, because callbacks may keep it busy for ever. For
        whatever the functions of the program do, the loop over the growing queue, with the loops of the publications
        inside it, is a run of the specified machine from the start of the flush, one job of its work after the other;
        and when the loop ends nothing is left. */
    method AsyncFlush(calls: (nat, nat, Value) -> Act, turns: nat) returns (done: bool, ghost ops: seq<Op>)
      requires Valid() && asyncTimer && !flushing && taken == 0 && pending == [] && AllOfProgram(calls)
      modifies this
      ensures Valid() && pending == [] && Now() == After(old(Now()), ops)
      ensures ops != [] && ops[0] == BeginFlush
      ensures done ==> |ops| > 1 && ops[|ops| - 1] == EndFlush && Inside(ops[1..|ops| - 1])
      ensures done ==> Now().work == [] && !flushing && !asyncTimer && taken == 0
      ensures !done ==> Inside(ops[1..]) && flushing && current.None? && taken == turns < |asyncQueue|
    {
      hide Inv, After, Next;
      ghost var before := Now();
      ghost var inside: seq<Op> := [];
      Begin(before);
      flushing := true;
      AfterOne(before, BeginFlush);
      assert [BeginFlush] + inside == [BeginFlush];
      var i: nat, k: nat := 0, 0;
      while i < |asyncQueue| && i < turns
        invariant Valid() && flushing && current.None? && pending == [] && taken == i <= |asyncQueue| && i <= turns
        invariant Now() == After(before, [BeginFlush] + inside) && Inside(inside)
        decreases turns - i
      {
        ghost var more;
        k, more := RunJob(asyncQueue[i], calls, k);
        AfterJoin(before, [BeginFlush] + inside, more);
        assert [BeginFlush] + inside + more == [BeginFlush] + (inside + more);
        inside := inside + more;
        i := i + 1;
      }
      ops := [BeginFlush] + inside;
      done := i >= |asyncQueue|;
      assert ops[1..] == inside;
      if done {
        End(Now());
        AfterStep(before, ops, EndFlush);
        ops := ops + [EndFlush];
        assert ops[1..|ops| - 1] == inside;
        asyncQueue := [];
        taken := 0;
        asyncTimer := false;
        flushing := false;
        assert Work() == [];
      }
    }
  }

  // ---------------------------------------------------------------------------------------------
  // What the functions of the program do

  datatype Outcome = Gives(v: Value) | Throws(v: Value)

  /** One call of a function of the program: its operations, and how it ends. */
  datatype Act = Act(ops: seq<Op>, outcome: Outcome)

  predicate OpOfProgram(op: Op) {
    op.New? || op.Subscribe? || op.ResolveOwned? || op.RejectOwned? || op.GatherAll?
  }

  /** The callback for the state of the owner. */
  function CallbackOf(x: Sub, owner: Record): Handler {
    if owner.state == Fulfilled then x.fulfilled else x.rejected
  }

  /** The operations of the act, and its end; a promise that the program cannot know counts as undefined. */
  ghost predicate Plays(ops: seq<Op>, act: Act) {
    && |ops| == |act.ops| + 1 && ops[..|act.ops|] == act.ops
    && match act.outcome
       case Gives(v) => ops[|act.ops|] == Op.Returned(v) || (v.Prom? && ops[|act.ops|] == Op.Returned(UNDEFINED))
       case Throws(v) => ops[|act.ops|] == Op.Thrown(v) || (v.Prom? && ops[|act.ops|] == Op.Thrown(UNDEFINED))
  }

  ghost predicate AllOfProgram(calls: (nat, nat, Value) -> Act) {
    forall k: nat, tag: nat, v, op :: op in calls(k, tag, v).ops ==> OpOfProgram(op)
  }

  /** Nothing in it begins or ends a flush. */
  ghost predicate Inside(ops: seq<Op>) {
    BeginFlush !in ops && EndFlush !in ops
  }

  ghost function After(s: State, ops: seq<Op>): State {
    Last(Next, s, ops)
  }

  /** The first of the work is the next subscriber of a publication, or the next job of the queue. */
  lemma RestOfWork(pending: seq<Sub>, queue: seq<Job>)
    ensures pending == [] ==> Invokes(pending) + queue == queue
    ensures pending != [] ==> (Invokes(pending) + queue)[1..] == Invokes(pending[1..]) + queue
  {
  }

  lemma AfterNone(s: State)
    ensures After(s, []) == s
  {
  }

  lemma AfterStep(s: State, ops: seq<Op>, op: Op)
    ensures After(s, ops + [op]) == Next(After(s, ops), op)
  {
    hide Next;
    LastStep(Next, s, ops, op);
  }

  lemma AfterOne(s: State, op: Op)
    ensures After(s, [op]) == Next(s, op)
  {
    hide Next;
    LastStep(Next, s, [], op);
    assert [] + [op] == [op];
  }

  lemma AfterJoin(s: State, a: seq<Op>, b: seq<Op>)
    ensures After(s, a + b) == After(After(s, a), b)
  {
    hide Next;
    LastJoin(Next, s, a, b);
  }

  lemma Begin(s: State)
    requires Inv(s) && s.timer && !s.flushing
    ensures Next(s, BeginFlush) == s.(flushing := true) && Inv(Next(s, BeginFlush)) && s.current.None?
  {
    hide SubsOk, RanOk, RecordsOk, PublishOnce, Ordered, GathersOk;
    NextKeeps(s, BeginFlush);
  }

  lemma End(s: State)
    requires Inv(s) && s.flushing && s.current.None? && s.work == []
    ensures Next(s, EndFlush) == s.(flushing := false, timer := false) && Inv(Next(s, EndFlush))
  {
    hide Inv;
    NextKeeps(s, EndFlush);
  }

  /** What the first job needs is there. */
  lemma JobReady(s: State)
    requires Inv(s) && s.work != []
    ensures match s.work[0]
            case Invoke(x) =>
              Servable(s, x) && x.owner < |s.proms|
              && (s.proms[x.owner].data.Prom? ==>
                    var q := s.proms[x.owner].data.p; q < |s.proms| && (s.proms[q].then_.None? <==> Settled(s.proms[q])))
            case _ => s.work[0].p < |s.proms| && s.proms[s.work[0].p].then_.Some?
  {
    hide SubsOk, RanOk, PublishOnce, Ordered, GathersOk;
    assert JobOk(s, s.work[0]);
    match s.work[0]
    case Invoke(x) =>
      TakenServable(s, x);
      var v := s.proms[x.owner].data;
      if v.Prom? {
        assert RecordOk(s, v.p);
      }
    case _ => assert RecordOk(s, s.work[0].p);
  }

  lemma TakenReady(s: State, x: Sub)
    requires Inv(s) && s.flushing && s.current.None? && s.work != [] && s.work[0] == Invoke(x)
    ensures var t := s.(work := s.work[1..]);
      && Servable(t, x) && x.owner < |t.proms| && Next(s, Op.RunJob) == Serve(t, x)
      && (t.proms[x.owner].data.Prom? ==>
            var q := t.proms[x.owner].data.p; q < |t.proms| && (t.proms[q].then_.None? <==> Settled(t.proms[q])))
  {
    hide Inv, Serve;
    StateGoesOn(s);
    JobReady(s);
  }

  lemma ReturnReady(s: State)
    requires s.current.Some? && Servable(s, s.current.value)
    ensures s.current.value.child < |s.proms| && s.current.value.owner < |s.proms|
    ensures Known(s, s.proms[s.current.value.owner].data)
  {
  }

  /** Throwing rejects the child, and then the owner's value settles what is no longer pending. */
  lemma ThrowReady(s: State, e: Value)
    requires Inv(s) && s.current.Some? && Known(s, e)
    ensures var x := s.current.value; var t := s.(current := None);
      && x.child < |s.proms| && x.owner < |s.proms|
      && var value, u := s.proms[x.owner].data, Promise.Reject(t, x.child, e);
      && x.child < |u.proms| && Known(u, value) && (value.Prom? ==> (u.proms[value.p].then_.None? <==> Settled(u.proms[value.p])))
      && Inv(Next(s, Op.Thrown(e))) && Next(s, Op.Thrown(e)) == Promise.Settle(u, x.child, value, false)
      && Next(s, Op.Thrown(e)).current.None?
  {
    hide Inv, Seal, Promise.Settle, Servable;
    RunningServable(s);
    ReturnReady(s);
    NextKeeps(s, Op.Thrown(e));
    Stopped(s);
    var x := s.current.value;
    var t, value := s.(current := None), s.proms[x.owner].data;
    RejectKeeps(t, x.child, e);
    SealLength(t, x.child, e, PublishRejection(x.child));
    var u := Promise.Reject(t, x.child, e);
    if value.Prom? {
      InvRecord(u, value.p);
    }
    StillStopped(u, x.child, value);
  }

  lemma StillStopped(s: State, child: Id, v: Value)
    requires child < |s.proms| && Known(s, v) && s.current.None?
    ensures Promise.Settle(s, child, v, false).current.None?
  {
  }

  lemma InternalLength(s: State, h: Handler, v: Value)
    requires HandlerIn(s, h) && Known(s, v)
    ensures |Promise.RunInternal(s, h, v).proms| >= |s.proms|
  {
    hide Promise.Resolve, Seal;
    match h
    case AdoptValue(target, _) =>
      SealLength(s, target, v, PublishFulfillment(target));
      ResolveLength(s, target, v);
    case AdoptReason(target) => SealLength(s, target, v, PublishRejection(target));
    case GatherReason(target) => SealLength(s, target, v, PublishRejection(target));
    case Slot(all, index) =>
      var g := s.gathers[all];
      var t := s.(gathers := s.gathers[all := g.(results := g.results[index := Some(v)], remaining := g.remaining - 1)]);
      ResolveLength(t, g.target, Results(all));
    case _ =>
  }

  lemma ResolveLength(s: State, p: Id, v: Value)
    requires p < |s.proms| && Known(s, v)
    ensures |Promise.Resolve(s, p, v).proms| >= |s.proms|
  {
  }

  lemma SealLength(s: State, p: Id, v: Value, job: Job)
    requires p < |s.proms|
    ensures |Seal(s, p, v, job).proms| == |s.proms| && Seal(s, p, v, job).current == s.current
  {
  }

  /** The record of results is there, none of its slots is taken, and every input is known. */
  ghost predicate Awaits(s: State, inputs: seq<Value>, all: nat, target: Id) {
    && (forall i :: 0 <= i < |inputs| ==> Known(s, inputs[i]))
    && all < |s.gathers| && s.gathers[all].inputs == inputs && s.gathers[all].target == target < |s.proms|
    && SlotsBelow(s, all, 0)
  }

  lemma AllParts(s: State, inputs: seq<Value>)
    requires Inv(s) && forall i :: 0 <= i < |inputs| ==> Known(s, inputs[i])
    ensures var t, all, target := Gathering(s, inputs), |s.gathers|, |s.proms|;
      && Inv(t) && Awaits(t, inputs, all, target)
      && var u := GatherFrom(t, inputs, all, target, |inputs|);
         Promise.All(s, inputs) == if Empty(Slots(inputs)) == 0 then Promise.Fulfill(u, target, Results(all)) else u
  {
    hide Inv, GatherFrom, Slots, Empty, Promise.Fulfill, SlotsBelow, Extends;
    GatheringKeeps(s, inputs);
    NoSlotsYetGathering(s, inputs);
    forall i | 0 <= i < |inputs| ensures Known(Gathering(s, inputs), inputs[i]) {
      assert Known(s, inputs[i]);
    }
  }

  lemma NoSlotsYetGathering(s: State, inputs: seq<Value>)
    requires Inv(s)
    ensures SlotsBelow(Gathering(s, inputs), |s.gathers|, 0)
  {
    hide Inv, Slots, Empty, SubsOk;
    InvSubs(s);
    NoSlotsYet(s);
  }

  lemma GatherStart(s: State, inputs: seq<Value>, all: nat, target: Id)
    ensures GatherFrom(s, inputs, all, target, 0) == s
  {
  }

  lemma GatherNext(s: State, inputs: seq<Value>, all: nat, target: Id, i: nat)
    requires Inv(s) && Awaits(s, inputs, all, target) && i < |inputs|
    ensures var t := GatherFrom(s, inputs, all, target, i);
      && (inputs[i].Prom? ==> inputs[i].p < |t.proms|)
      && Inv(GatherFrom(s, inputs, all, target, i + 1))
      && GatherFrom(s, inputs, all, target, i + 1) ==
         if inputs[i].Prom? then Promise.Then(t, inputs[i].p, Slot(all, i), GatherReason(target)) else t
  {
    hide Inv, Promise.Then, SlotsBelow;
    GatherFromKeeps(s, inputs, all, i + 1);
    assert Known(s, inputs[i]);
  }

  lemma InvRecord(s: State, p: Id)
    requires Inv(s) && p < |s.proms|
    ensures s.proms[p].then_.None? <==> Settled(s.proms[p])
  {
    assert RecordOk(s, p);
  }
}
