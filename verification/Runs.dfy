/** Runs of a state machine, whatever its states and operations are. */
module Runs {
  /** The states a run goes through, first to last. */
  ghost function States<S, O>(step: (S, O) -> S, s: S, ops: seq<O>): (r: seq<S>)
    ensures |r| == |ops| + 1 && r[0] == s
    decreases |ops|
  {
    if ops == [] then [s] else [s] + States(step, step(s, ops[0]), ops[1..])
  }

  ghost function Last<S, O>(step: (S, O) -> S, s: S, ops: seq<O>): S {
    States(step, s, ops)[|ops|]
  }

  lemma {:induction false} StatesChain<S, O>(step: (S, O) -> S, s: S, ops: seq<O>)
    ensures forall i :: 0 <= i < |ops| ==> States(step, s, ops)[i + 1] == step(States(step, s, ops)[i], ops[i])
    decreases |ops|
  {
    if ops != [] {
      var r, rest := States(step, s, ops), States(step, step(s, ops[0]), ops[1..]);
      StatesChain(step, step(s, ops[0]), ops[1..]);
      forall i | 0 <= i < |ops| ensures r[i + 1] == step(r[i], ops[i]) {
        if i > 0 {
          assert r[i] == rest[i - 1] && r[i + 1] == rest[i] && ops[i] == ops[1..][i - 1];
        }
      }
    }
  }

  /** One step more. */
  lemma {:induction false} LastStep<S, O>(step: (S, O) -> S, s: S, ops: seq<O>, op: O)
    ensures Last(step, s, ops + [op]) == step(Last(step, s, ops), op)
    decreases |ops|
  {
    LastJoin(step, s, ops, [op]);
    assert [op][1..] == [];
    assert States(step, Last(step, s, ops), [op])[1] == step(Last(step, s, ops), op);
  }

  /** The states of one run after another. */
  lemma {:induction false} StatesJoin<S, O>(step: (S, O) -> S, s: S, a: seq<O>, b: seq<O>)
    ensures States(step, s, a + b) == States(step, s, a)[..|a|] + States(step, Last(step, s, a), b)
    decreases |a|
  {
    if a == [] {
      assert a + b == b;
    } else {
      assert (a + b)[0] == a[0] && (a + b)[1..] == a[1..] + b;
      StatesJoin(step, step(s, a[0]), a[1..], b);
    }
  }

  /** One run after another. */
  lemma {:induction false} LastJoin<S, O>(step: (S, O) -> S, s: S, a: seq<O>, b: seq<O>)
    ensures Last(step, s, a + b) == Last(step, Last(step, s, a), b)
    decreases |a|
  {
    if a == [] {
      assert a + b == b;
    } else {
      assert (a + b)[0] == a[0] && (a + b)[1..] == a[1..] + b;
      LastJoin(step, step(s, a[0]), a[1..], b);
    }
  }

  /** What every step keeps holds in every state of a run. */
  lemma {:induction false} RunKeeps<S(!new), O(!new)>(step: (S, O) -> S, inv: S -> bool, s: S, ops: seq<O>)
    requires inv(s)
    requires forall t, i {:trigger step(t, ops[i])} :: 0 <= i < |ops| && inv(t) ==> inv(step(t, ops[i]))
    ensures forall i :: 0 <= i <= |ops| ==> inv(States(step, s, ops)[i])
    decreases |ops|
  {
    if ops != [] {
      var t := step(s, ops[0]);
      assert ops[1..] == ops[1..|ops|];
      forall u, i {:trigger step(u, ops[1..][i])} | 0 <= i < |ops| - 1 && inv(u) ensures inv(step(u, ops[1..][i])) {
        assert ops[1..][i] == ops[i + 1];
      }
      RunKeeps(step, inv, t, ops[1..]);
      var r, rest := States(step, s, ops), States(step, t, ops[1..]);
      forall i | 0 <= i <= |ops| ensures inv(r[i]) {
        if i > 0 {
          assert r[i] == rest[i - 1];
        }
      }
    }
  }
}
