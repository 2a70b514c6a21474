/** The command history of the console (engine/duktape_engine/repl.c): lines in a ring of 256 bytes. */
module ReplHistory {
  newtype Byte = x: int | 0 <= x < 256
  type Line = seq<Byte>

  const RING: nat := 256

  /** A line that can be submitted: not empty, no zero byte, and its terminator fits too. */
  predicate Submittable(s: Line) {
    0 < |s| < RING && 0 !in s
  }

  predicate AllSubmittable(lines: seq<Line>) {
    forall i :: 0 <= i < |lines| ==> Submittable(lines[i])
  }

  function Zeros(n: nat): (r: Line)
    ensures |r| == n && forall i :: 0 <= i < n ==> r[i] == 0
  {
    seq(n, _ => 0)
  }

  /** Lines one after the other, each with its terminator. */
  function Packed(lines: seq<Line>): Line {
    if lines == [] then [] else lines[0] + [0] + Packed(lines[1..])
  }

  lemma {:induction false} PackedJoin(a: seq<Line>, b: seq<Line>)
    ensures Packed(a + b) == Packed(a) + Packed(b)
  {
    if a == [] {
      assert a + b == b;
    } else {
      assert (a + b)[1..] == a[1..] + b;
      PackedJoin(a[1..], b);
    }
  }

  lemma PackedOne(x: Line)
    ensures Packed([x]) == x + [0]
  {
    assert [x][1..] == [];
    assert x + [0] + Packed([]) == x + [0];
  }

  // ---------------------------------------------------------------------------------------------
  // Which lines stay

  /** The longest suffix of `lines` that takes at most `room` bytes. */
  function Kept(lines: seq<Line>, room: nat): (r: seq<Line>)
    ensures |r| <= |lines| && |Packed(r)| <= room
    ensures AllSubmittable(lines) ==> AllSubmittable(r)
  {
    if |Packed(lines)| <= room then lines else Kept(lines[1..], room)
  }

  /** It is a suffix, and no longer one takes so little. */
  lemma {:induction false} KeptIsSuffix(lines: seq<Line>, room: nat)
    ensures Kept(lines, room) == lines[|lines| - |Kept(lines, room)|..]
    decreases |lines|
  {
    if |Packed(lines)| > room {
      KeptIsSuffix(lines[1..], room);
    }
  }

  lemma {:induction false} KeptIsLongest(lines: seq<Line>, room: nat, k: nat)
    requires k <= |lines| && |Packed(lines[k..])| <= room
    ensures k >= |lines| - |Kept(lines, room)|
    decreases |lines|
  {
    if |Packed(lines)| > room {
      if k > 0 {
        assert lines[1..][k - 1..] == lines[k..];
        KeptIsLongest(lines[1..], room, k - 1);
      }
    }
  }

  /** What a submission makes of the lines in the ring. */
  function Submitted(lines: seq<Line>, s: Line): seq<Line>
    requires |s| < RING
  {
    Kept(lines, RING - 1 - |s|) + [s]
  }

  function AfterAll(inputs: seq<Line>): seq<Line>
    requires AllSubmittable(inputs)
  {
    if inputs == [] then [] else Submitted(AfterAll(inputs[..|inputs| - 1]), inputs[|inputs| - 1])
  }

  lemma {:induction false} KeptTwice(lines: seq<Line>, room: nat, less: nat)
    requires less <= room
    ensures Kept(Kept(lines, room), less) == Kept(lines, less)
    decreases |lines|
  {
    if |Packed(lines)| > room {
      KeptTwice(lines[1..], room, less);
    }
  }

  lemma {:induction false} KeptWithLast(lines: seq<Line>, s: Line, room: nat)
    requires |s| + 1 <= room
    ensures Kept(lines + [s], room) == Kept(lines, room - 1 - |s|) + [s]
    decreases |lines|
  {
    PackedJoin(lines, [s]);
    PackedOne(s);
    assert lines == [] ==> |Packed(lines)| == 0;
    if |Packed(lines)| + |s| + 1 > room {
      assert (lines + [s])[1..] == lines[1..] + [s];
      KeptWithLast(lines[1..], s, room);
    }
  }

  /** After any submissions the ring holds the longest suffix of them that fits into it. */
  lemma {:induction false} LongestSuffixKept(inputs: seq<Line>)
    requires AllSubmittable(inputs)
    ensures AfterAll(inputs) == Kept(inputs, 256)
    decreases |inputs|
  {
    hide Packed, Kept;
    if inputs == [] {
      NothingKept(RING);
    } else {
      var n := |inputs| - 1;
      var front, s := inputs[..n], inputs[n];
      assert Submittable(s) && inputs == front + [s];
      LongestSuffixKept(front);
      KeptTwice(front, RING, RING - 1 - |s|);
      KeptWithLast(front, s, RING);
    }
  }

  lemma NothingKept(room: nat)
    ensures Kept([], room) == []
  {
  }

  // ---------------------------------------------------------------------------------------------
  // The ring

  function Rotated(a: Line, c: nat): (r: Line)
    requires |a| == RING && c < RING
    ensures |r| == RING
  {
    a[c..] + a[..c]
  }

  lemma RotatedAt(a: Line, c: nat, j: nat)
    requires |a| == RING && c < RING && j < RING
    ensures Rotated(a, c)[j] == a[(c + j) % RING]
  {
  }

  lemma RotatedMore(a: Line, c: nat, n: nat)
    requires |a| == RING && c < RING && n <= RING
    ensures Rotated(a, (c + n) % RING) == Rotated(a, c)[n..] + Rotated(a, c)[..n]
  {
    var r, d := Rotated(a, c), (c + n) % RING;
    if c + n < RING {
      assert d == c + n && r[n..] == a[d..] + a[..c] && r[..n] == a[c..d];
    } else {
      assert d == c + n - RING && r[n..] == a[d..c] && r[..n] == a[c..] + a[..d];
    }
  }

  lemma RotatedUpdate(a: Line, c: nat, j: nat, b: Byte)
    requires |a| == RING && c < RING && j < RING
    ensures Rotated(a[(c + j) % RING := b], c) == Rotated(a, c)[j := b]
  {
    var k := (c + j) % RING;
    assert k == if c + j < RING then c + j else c + j - RING;
  }

  /** The ring from the next free place on: free bytes, then the lines. */
  function View(lines: seq<Line>): (r: Line)
    ensures |Packed(lines)| <= RING ==> |r| == RING
  {
    Zeros(RING - Min(|Packed(lines)|, RING)) + Packed(lines)
  }

  function Min(a: nat, b: nat): nat {
    if a < b then a else b
  }

  // ---------------------------------------------------------------------------------------------
  // A submission overwrites from the free place on

  /** Clears what is left of an overwritten line. */
  function Cleared(t: Line): (r: Line)
    ensures |r| == |t|
  {
    if t == [] || t[0] == 0 then t else [0] + Cleared(t[1..])
  }

  lemma {:induction false} ClearedLine(x: Line, t: Line)
    requires 0 !in x
    ensures Cleared(x + [0] + t) == Zeros(|x| + 1) + t
  {
    if x == [] {
      assert x + [0] + t == [0] + t;
      assert Zeros(1) == [0];
    } else {
      assert (x + [0] + t)[1..] == x[1..] + [0] + t && (x + [0] + t)[0] == x[0];
      ClearedLine(x[1..], t);
      assert [0] + Zeros(|x|) == Zeros(|x| + 1);
    }
  }

  /** The ring behind an overwritten part of `n` bytes, with the remnant of a cut line cleared. */
  function Remains(r: Line, n: nat): Line
    requires 0 < n <= |r|
  {
    if r[n - 1] == 0 then r[n..] else Cleared(r[n..])
  }

  /** The lines behind the overwritten part stay whole, and nothing else does. */
  lemma {:induction false} RemainsKept(g: nat, lines: seq<Line>, n: nat)
    requires AllSubmittable(lines) && 0 < n <= g + |Packed(lines)|
    ensures var room := g + |Packed(lines)| - n; var kept := Kept(lines, room);
      Remains(Zeros(g) + Packed(lines), n) == Zeros(room - |Packed(kept)|) + Packed(kept)
    decreases |lines|
  {
    hide Cleared, Zeros, Remains, Submittable;
    if n <= g {
      GapCut(g, Packed(lines), n);
    } else {
      var x, rest := lines[0], lines[1..];
      assert Packed(lines) == x + [0] + Packed(rest);
      if n > g + |x| {
        LineAsGap(g, x, Packed(rest), n);
        RemainsKept(g + |x| + 1, rest, n);
      } else {
        LineCut(g, x, Packed(rest), n);
      }
    }
  }

  lemma GapCut(g: nat, t: Line, n: nat)
    requires 0 < n <= g
    ensures Remains(Zeros(g) + t, n) == Zeros(g - n) + t
  {
    assert (Zeros(g) + t)[n..] == Zeros(g - n) + t;
    assert (Zeros(g) + t)[n - 1] == 0;
  }

  lemma LineAsGap(g: nat, x: Line, t: Line, n: nat)
    requires g + |x| < n <= g + |x| + 1 + |t|
    ensures Remains(Zeros(g) + (x + [0] + t), n) == Remains(Zeros(g + |x| + 1) + t, n)
  {
    var r, q := Zeros(g) + (x + [0] + t), Zeros(g + |x| + 1) + t;
    assert r[n..] == q[n..];
    assert r[n - 1] == q[n - 1];
  }

  lemma LineCut(g: nat, x: Line, t: Line, n: nat)
    requires Submittable(x) && g < n <= g + |x|
    ensures Remains(Zeros(g) + (x + [0] + t), n) == Zeros(g + |x| + 1 - n) + t
  {
    var r := Zeros(g) + (x + [0] + t);
    assert r[n - 1] == x[n - 1 - g];
    assert r[n..] == x[n - g..] + [0] + t;
    ClearedLine(x[n - g..], t);
  }

  lemma SubmitView(lines: seq<Line>, s: Line)
    requires AllSubmittable(lines) && |Packed(lines)| <= RING && Submittable(s)
    ensures |Packed(Submitted(lines, s))| <= RING && AllSubmittable(Submitted(lines, s))
    ensures View(Submitted(lines, s)) == Remains(View(lines), |s| + 1) + (s + [0])
  {
    hide Cleared, Packed, Zeros, Remains, Kept;
    var kept := Kept(lines, RING - 1 - |s|);
    RemainsKept(RING - |Packed(lines)|, lines, |s| + 1);
    PackedJoin(kept, [s]);
    PackedOne(s);
    assert Zeros(RING - |Packed(Submitted(lines, s))|) + (Packed(kept) + (s + [0]))
        == Zeros(RING - |Packed(Submitted(lines, s))|) + Packed(kept) + (s + [0]);
  }
}
