/** The promise polyfill as a state machine (libjs/init/promise.js). */
module Promise {
  type Id = nat

  datatype Option<T> = None | Some(value: T)

  /** JavaScript values as far as the code looks at them: anything that is no thenable, a promise, or the array that
      `Promise.all` fills. */
  datatype Value = Plain(n: int) | Prom(p: Id) | Results(all: nat)

  const UNDEFINED: Value := Plain(0)
  const TYPE_ERROR: Value := Plain(1)

  datatype Status = Pending | Sealed | Fulfilled | Rejected

  /** Who can settle a promise: the program through its resolver, a subscription, or `Promise.all`. */
  datatype Role = Owned | Child | Gathers(all: nat)

  /** What a subscription does: nothing, run a function of the program, pass the outcome of a promise on to the promise
      that was resolved with it, or take part in `Promise.all`. */
  datatype Handler =
    | NoHandler
    | User(tag: nat)
    | AdoptValue(target: Id, source: Id)
    | AdoptReason(target: Id)
    | Slot(all: nat, index: nat)
    | GatherReason(target: Id)

  datatype Sub = Sub(id: nat, owner: Id, child: Id, fulfilled: Handler, rejected: Handler)

  /** `then_` holds the subscribers until the promise is published. */
  datatype Record = Record(state: Status, data: Value, then_: Option<seq<Sub>>, role: Role)

  datatype Job = PublishFulfillment(p: Id) | PublishRejection(p: Id) | Invoke(sub: Sub)

  /** One call of `Promise.all`. */
  datatype Gather = Gather(inputs: seq<Value>, results: seq<Option<Value>>, remaining: int, target: Id)

  /** `work` is what the flush still has to do: the callbacks of the publication in progress, then the rest of the
      queue. `current` is the subscriber whose function is running. `made` and `ran` record all subscriptions in the
      order they were made and in the order they were served. */
  datatype State = State(
    proms: seq<Record>, work: seq<Job>, timer: bool, flushing: bool, current: Option<Sub>, gathers: seq<Gather>,
    made: seq<Sub>, ran: seq<Sub>)

  function Start(): State {
    State([], [], false, false, None, [], [], [])
  }

  predicate Known(s: State, v: Value) {
    v.Prom? ==> v.p < |s.proms|
  }

  // ---------------------------------------------------------------------------------------------
  // The functions of the polyfill

  function AsyncCall(s: State, job: Job): State {
    s.(work := s.work + [job], timer := true)
  }

  function NewPromise(s: State, role: Role): State {
    s.(proms := s.proms + [Record(Pending, UNDEFINED, Some([]), role)])
  }

  function Seal(s: State, p: Id, v: Value, job: Job): State
    requires p < |s.proms|
  {
    if s.proms[p].state == Pending
    then AsyncCall(s.(proms := s.proms[p := s.proms[p].(state := Sealed, data := v)]), job)
    else s
  }

  function Fulfill(s: State, p: Id, v: Value): State
    requires p < |s.proms|
  {
    Seal(s, p, v, PublishFulfillment(p))
  }

  function Reject(s: State, p: Id, v: Value): State
    requires p < |s.proms|
  {
    Seal(s, p, v, PublishRejection(p))
  }

  predicate Settled(r: Record) {
    r.state == Fulfilled || r.state == Rejected
  }

  /** `then`: a promise for the outcome, and a subscription that waits or is served soon. */
  function Then(s: State, owner: Id, fulfilled: Handler, rejected: Handler): State
    requires owner < |s.proms|
  {
    var x := Sub(|s.made|, owner, |s.proms|, fulfilled, rejected);
    var t := NewPromise(s, Child).(made := s.made + [x]);
    if s.proms[owner].then_.None? then AsyncCall(t, Invoke(x))
    else t.(proms := t.proms[owner := t.proms[owner].(then_ := Some(t.proms[owner].then_.value + [x]))])
  }

  /** A value that is a promise settles `p` later, when it is settled itself; the flag says whether it is one. */
  function HandleThenable(s: State, p: Id, v: Value): (State, bool)
    requires p < |s.proms| && Known(s, v)
  {
    if v == Prom(p) then (Reject(s, p, TYPE_ERROR), true)
    else if v.Prom? then (Then(s, v.p, AdoptValue(p, v.p), AdoptReason(p)), true)
    else (s, false)
  }

  function Resolve(s: State, p: Id, v: Value): State
    requires p < |s.proms| && Known(s, v)
  {
    if v == Prom(p) then Fulfill(s, p, v)
    else
      var (t, handled) := HandleThenable(s, p, v);
      if handled then t else Fulfill(s, p, v)
  }

  function PublishWith(s: State, p: Id, status: Status): State
    requires p < |s.proms|
  {
    var subs := if s.proms[p].then_.Some? then s.proms[p].then_.value else [];
    s.(proms := s.proms[p := s.proms[p].(state := status, then_ := None)], work := Invokes(subs) + s.work)
  }

  function Invokes(subs: seq<Sub>): (r: seq<Job>)
    ensures |r| == |subs| && forall i :: 0 <= i < |r| ==> r[i] == Invoke(subs[i])
  {
    seq(|subs|, i requires 0 <= i < |subs| => Invoke(subs[i]))
  }

  /** The rest of `invokeCallback` once the callback, if any, has produced `v`. */
  function Settle(s: State, child: Id, v: Value, rejecting: bool): State
    requires child < |s.proms| && Known(s, v)
  {
    var (t, handled) := HandleThenable(s, child, v);
    if handled then t else if rejecting then Reject(s, child, v) else Resolve(s, child, v)
  }

  // ---------------------------------------------------------------------------------------------
  // Promise.all

  function Slots(inputs: seq<Value>): (r: seq<Option<Value>>)
    ensures |r| == |inputs| && forall i :: 0 <= i < |r| ==> r[i] == if inputs[i].Prom? then None else Some(inputs[i])
  {
    seq(|inputs|, i requires 0 <= i < |inputs| => if inputs[i].Prom? then None else Some(inputs[i]))
  }

  /** How many slots are still empty. */
  function Empty(results: seq<Option<Value>>): nat {
    if results == [] then 0
    else Empty(results[..|results| - 1]) + if results[|results| - 1].None? then 1 else 0
  }

  /** Subscribes to the first `n` inputs. */
  function GatherFrom(s: State, inputs: seq<Value>, all: nat, target: Id, n: nat): (t: State)
    requires n <= |inputs| && forall i :: 0 <= i < n ==> Known(s, inputs[i])
    ensures |t.proms| >= |s.proms|
  {
    if n == 0 then s
    else
      var t := GatherFrom(s, inputs, all, target, n - 1);
      assert Known(s, inputs[n - 1]);
      if inputs[n - 1].Prom? then Then(t, inputs[n - 1].p, Slot(all, n - 1), GatherReason(target)) else t
  }

  function All(s: State, inputs: seq<Value>): State
    requires forall i :: 0 <= i < |inputs| ==> Known(s, inputs[i])
  {
    var all, target, empty := |s.gathers|, |s.proms|, Empty(Slots(inputs));
    var t := NewPromise(s, Gathers(all)).(gathers := s.gathers + [Gather(inputs, Slots(inputs), empty, target)]);
    assert forall i :: 0 <= i < |inputs| ==> Known(s, inputs[i]) ==> Known(t, inputs[i]);
    var u := GatherFrom(t, inputs, all, target, |inputs|);
    if empty == 0 then Fulfill(u, target, Results(all)) else u
  }

  /** A slot's callback: the value is stored, and with the last one the promise for all is resolved. */
  function FillSlot(s: State, all: nat, index: nat, v: Value): State
    requires all < |s.gathers| && index < |s.gathers[all].results| && s.gathers[all].target < |s.proms|
  {
    var g := s.gathers[all];
    var h := g.(results := g.results[index := Some(v)], remaining := g.remaining - 1);
    var t := s.(gathers := s.gathers[all := h]);
    if h.remaining == 0 then Resolve(t, h.target, Results(all)) else t
  }

  // ---------------------------------------------------------------------------------------------
  // Serving a subscriber

  /** Runs a callback that is not the program's; it returns nothing. */
  function RunInternal(s: State, h: Handler, v: Value): State
    requires HandlerIn(s, h) && Known(s, v)
  {
    match h
    case AdoptValue(target, source) => if v == Prom(source) then Fulfill(s, target, v) else Resolve(s, target, v)
    case AdoptReason(target) => Reject(s, target, v)
    case Slot(all, index) => FillSlot(s, all, index, v)
    case GatherReason(target) => Reject(s, target, v)
    case _ => s
  }

  predicate HandlerIn(s: State, h: Handler) {
    match h
    case AdoptValue(target, _) => target < |s.proms|
    case AdoptReason(target) => target < |s.proms|
    case GatherReason(target) => target < |s.proms|
    case Slot(all, index) => all < |s.gathers| && index < |s.gathers[all].results| && s.gathers[all].target < |s.proms|
    case _ => true
  }

  function Chosen(s: State, x: Sub): Handler
    requires x.owner < |s.proms|
  {
    if s.proms[x.owner].state == Fulfilled then x.fulfilled else x.rejected
  }

  predicate Servable(s: State, x: Sub) {
    && x.owner < |s.proms| && x.child < |s.proms| && Known(s, s.proms[x.owner].data)
    && HandlerIn(s, x.fulfilled) && HandlerIn(s, x.rejected)
  }

  /** `invokeCallback` up to the point where a function of the program would run. */
  function Serve(s: State, x: Sub): State
    requires Servable(s, x)
  {
    var h, v := Chosen(s, x), s.proms[x.owner].data;
    var t := s.(ran := s.ran + [x]);
    match h
    case User(_) => t.(current := Some(x))
    case NoHandler => Settle(t, x.child, v, s.proms[x.owner].state != Fulfilled)
    case _ => AfterInternal(RunInternal(t, h, v), x)
  }

  function AfterInternal(t: State, x: Sub): State {
    if x.child < |t.proms| then Settle(t, x.child, UNDEFINED, false) else t
  }

  /** The function of the program returns `v`. */
  function Return(s: State, x: Sub, v: Value): State
    requires x.child < |s.proms| && Known(s, v)
  {
    Settle(s.(current := None), x.child, v, false)
  }

  /** It throws: the child is rejected, and then treated as if the owner's own value had been returned. */
  function Throw(s: State, x: Sub, e: Value): State
    requires x.child < |s.proms| && x.owner < |s.proms| && Known(s, s.proms[x.owner].data)
  {
    Settle(Reject(s.(current := None), x.child, e), x.child, s.proms[x.owner].data, false)
  }

  // ---------------------------------------------------------------------------------------------
  // Steps

  datatype Op =
    | New
    | Subscribe(p: Id, fulfilled: Handler, rejected: Handler)
    | ResolveOwned(p: Id, v: Value)
    | RejectOwned(p: Id, v: Value)
    | GatherAll(inputs: seq<Value>)
    | BeginFlush
    | RunJob
    | Returned(v: Value)
    | Thrown(e: Value)
    | EndFlush

  predicate OfProgram(h: Handler) {
    h.NoHandler? || h.User?
  }

  /** The program acts outside the flush or within a function that the flush runs. */
  predicate ProgramRuns(s: State) {
    !s.flushing || s.current.Some?
  }

  predicate Enabled(s: State, op: Op) {
    match op
    case New => ProgramRuns(s)
    case Subscribe(p, f, r) => ProgramRuns(s) && p < |s.proms| && OfProgram(f) && OfProgram(r)
    case ResolveOwned(p, v) => ProgramRuns(s) && p < |s.proms| && s.proms[p].role == Owned && Known(s, v)
    case RejectOwned(p, v) => ProgramRuns(s) && p < |s.proms| && s.proms[p].role == Owned && Known(s, v)
    case GatherAll(inputs) => ProgramRuns(s) && forall i :: 0 <= i < |inputs| ==> Known(s, inputs[i])
    case BeginFlush => s.timer && !s.flushing
    case RunJob => s.flushing && s.current.None? && s.work != [] && JobIn(s, s.work[0])
    case Returned(v) => s.current.Some? && s.current.value.child < |s.proms| && Known(s, v)
    case Thrown(e) => s.current.Some? && Servable(s, s.current.value) && Known(s, e)
    case EndFlush => s.flushing && s.current.None? && s.work == []
  }

  predicate JobIn(s: State, job: Job) {
    match job
    case Invoke(x) => Servable(s, x)
    case _ => job.p < |s.proms|
  }

  function RunFirst(s: State): State
    requires s.work != [] && JobIn(s, s.work[0])
  {
    var t := s.(work := s.work[1..]);
    match s.work[0]
    case PublishFulfillment(p) => PublishWith(t, p, Fulfilled)
    case PublishRejection(p) => PublishWith(t, p, Rejected)
    case Invoke(x) => Serve(t, x)
  }

  /** One step; an operation that is not possible changes nothing. */
  function Next(s: State, op: Op): State {
    if !Enabled(s, op) then s
    else
      match op
      case New => NewPromise(s, Owned)
      case Subscribe(p, f, r) => Then(s, p, f, r)
      case ResolveOwned(p, v) => Resolve(s, p, v)
      case RejectOwned(p, v) => Reject(s, p, v)
      case GatherAll(inputs) => All(s, inputs)
      case BeginFlush => s.(flushing := true)
      case RunJob => RunFirst(s)
      case Returned(v) => Return(s, s.current.value, v)
      case Thrown(e) => Throw(s, s.current.value, e)
      case EndFlush => s.(flushing := false, timer := false)
  }
}
