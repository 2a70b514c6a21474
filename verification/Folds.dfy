/** Registers fed one symbol at a time, as every checksum loop of the repository does. */
module Folds {
  /** The register after the symbols of `s`, fed first to last. */
  function Fold<R, B>(step: (R, B) -> R, init: R, s: seq<B>): R {
    if s == [] then init else step(Fold(step, init, s[..|s| - 1]), s[|s| - 1])
  }

  lemma {:induction false} FoldAppend<R, B>(step: (R, B) -> R, init: R, s: seq<B>, t: seq<B>)
    ensures Fold(step, init, s + t) == Fold(step, Fold(step, init, s), t)
  {
    if t == [] {
      assert s + t == s;
    } else {
      FoldAppend(step, init, s, t[..|t| - 1]);
      assert (s + t)[..|s + t| - 1] == s + t[..|t| - 1];
    }
  }

  /** Different registers stay different, and different symbols make different registers. */
  ghost predicate Separating<R(!new), B(!new)>(step: (R, B) -> R) {
    && (forall x, y, b :: x != y ==> step(x, b) != step(y, b))
    && (forall x, b, d :: b != d ==> step(x, b) != step(x, d))
  }

  lemma {:induction false} DifferenceSurvives<R(!new), B(!new)>(step: (R, B) -> R, x: R, y: R, tail: seq<B>)
    requires Separating(step) && x != y
    ensures Fold(step, x, tail) != Fold(step, y, tail)
  {
    if tail != [] {
      DifferenceSurvives(step, x, y, tail[..|tail| - 1]);
    }
  }

  /** Replacing one symbol by another, anywhere in a message of any length, changes the register. */
  lemma OneSymbolShows<R(!new), B(!new)>(step: (R, B) -> R, init: R, s: seq<B>, i: nat, b: B)
    requires Separating(step)
    requires i < |s| && s[i] != b
    ensures Fold(step, init, s[i := b]) != Fold(step, init, s)
  {
    var p, q := s[..i] + [s[i]], s[..i] + [b];
    assert p[..i] == s[..i] && q[..i] == s[..i];
    DifferenceSurvives(step, Fold(step, init, p), Fold(step, init, q), s[i + 1..]);
    FoldAppend(step, init, p, s[i + 1..]);
    FoldAppend(step, init, q, s[i + 1..]);
    assert p + s[i + 1..] == s && q + s[i + 1..] == s[i := b];
  }
}
