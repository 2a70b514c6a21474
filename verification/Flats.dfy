/** Concatenating what a function makes of each element of a sequence. */
module Flats {
  function Flat<T, B>(f: T -> seq<B>, xs: seq<T>): seq<B> {
    if xs == [] then [] else Flat(f, xs[..|xs| - 1]) + f(xs[|xs| - 1])
  }

  lemma FlatLast<T, B>(f: T -> seq<B>, xs: seq<T>, x: T)
    ensures Flat(f, xs + [x]) == Flat(f, xs) + f(x)
  {
    assert (xs + [x])[..|xs|] == xs;
  }

  lemma {:induction false} FlatAppend<T, B>(f: T -> seq<B>, xs: seq<T>, ys: seq<T>)
    ensures Flat(f, xs + ys) == Flat(f, xs) + Flat(f, ys)
    decreases |ys|
  {
    if ys == [] {
      assert xs + ys == xs;
    } else {
      var n := |ys| - 1;
      FlatAppend(f, xs, ys[..n]);
      FlatLast(f, xs + ys[..n], ys[n]);
      assert xs + ys == xs + ys[..n] + [ys[n]];
    }
  }

  lemma FlatFirst<T, B>(f: T -> seq<B>, xs: seq<T>)
    requires xs != []
    ensures Flat(f, xs) == f(xs[0]) + Flat(f, xs[1..])
  {
    FlatAppend(f, [xs[0]], xs[1..]);
    assert [xs[0]][..0] == [] && [xs[0]] + xs[1..] == xs;
  }
}
