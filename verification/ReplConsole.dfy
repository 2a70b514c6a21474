/** The history ring in place, with its free position and its browsing position (engine/duktape_engine/repl.c). */
module ReplConsole {
  import Bits
  import opened ReplHistory

  // ---------------------------------------------------------------------------------------------
  // The ring seen from the browsing position

  /** From the start of line `p` on: it and the newer lines, the free bytes, the older lines. */
  function CursorView(lines: seq<Line>, p: nat): Line
    requires p < |lines| && |Packed(lines)| <= RING
  {
    Packed(lines[p..]) + Zeros(RING - |Packed(lines)|) + Packed(lines[..p])
  }

  /** The line an upward move goes to, and a downward one. */
  function Older(n: nat, p: nat): nat
    requires p < n
  {
    if p == 0 then n - 1 else p - 1
  }

  function Newer(n: nat, p: nat): nat
    requires p < n
  {
    if p == n - 1 then 0 else p + 1
  }

  /** The bytes `v` end in the line `x`, before which there is nothing or the end of another line. */
  ghost predicate EndsIn(v: Line, front: Line, x: Line, z: nat) {
    && v == front + x + Zeros(z) && z >= 1 && x != [] && 0 !in x && |v| == RING
    && (front != [] ==> front[|front| - 1] == 0)
  }

  /** The bytes `v` begin with the line `x`, and after `z` zero bytes comes another line or nothing. */
  ghost predicate BeginsWith(v: Line, x: Line, z: nat, rest: Line) {
    && v == x + Zeros(z) + rest && z >= 1 && x != [] && 0 !in x && |v| == RING
    && (rest != [] ==> rest[0] != 0)
  }

  lemma {:induction false} PackedEnd(lines: seq<Line>)
    requires lines != []
    ensures Packed(lines) != [] && Packed(lines)[|Packed(lines)| - 1] == 0
    decreases |lines|
  {
    if |lines| > 1 {
      PackedEnd(lines[1..]);
    }
  }

  lemma PackedSplit(lines: seq<Line>, p: nat)
    requires p < |lines|
    ensures Packed(lines[p..]) == lines[p] + [0] + Packed(lines[p + 1..])
    ensures Packed(lines[..p + 1]) == Packed(lines[..p]) + (lines[p] + [0])
    ensures Packed(lines) == Packed(lines[..p]) + Packed(lines[p..])
  {
    assert lines[p..][1..] == lines[p + 1..];
    PackedFront(lines, p);
    PackedHalves(lines, p);
  }

  lemma PackedNone()
    ensures Packed([]) == []
  {
  }

  lemma PackedFront(lines: seq<Line>, p: nat)
    requires p < |lines|
    ensures Packed(lines[..p + 1]) == Packed(lines[..p]) + (lines[p] + [0])
  {
    hide Packed;
    assert lines[..p + 1] == lines[..p] + [lines[p]];
    PackedJoin(lines[..p], [lines[p]]);
    PackedOne(lines[p]);
  }

  lemma PackedHalves(lines: seq<Line>, p: nat)
    requires p <= |lines|
    ensures Packed(lines) == Packed(lines[..p]) + Packed(lines[p..])
  {
    hide Packed;
    assert lines == lines[..p] + lines[p..];
    PackedJoin(lines[..p], lines[p..]);
  }

  lemma OlderParts(lines: seq<Line>, p: nat) returns (front: Line, z: nat)
    requires AllSubmittable(lines) && |Packed(lines)| <= RING && p < |lines|
    ensures var v, q := CursorView(lines, p), Older(|lines|, p);
      && EndsIn(v, front, lines[q], z) && |front| < RING
      && v[|front|..] + v[..|front|] == CursorView(lines, q)
  {
    hide Packed, Zeros;
    var q, g := Older(|lines|, p), RING - |Packed(lines)|;
    assert Submittable(lines[q]);
    PackedSplit(lines, q);
    if p > 0 {
      front, z := Packed(lines[p..]) + Zeros(g) + Packed(lines[..q]), 1;
      PackedSplit(lines, p);
      OlderFront(lines, p, g, front);
      FrontAppend(Packed(lines[p..]) + Zeros(g), Packed(lines[..q]), lines[q]);
      RotateParts(Packed(lines[p..]), Zeros(g), Packed(lines[..q]), lines[q] + [0]);
    } else {
      front, z := Packed(lines[..q]), g + 1;
      assert lines[0..] == lines && lines[..0] == [] && lines[q + 1..] == [];
      PackedNone();
      if q > 0 {
        PackedEnd(lines[..q]);
      }
      LastLine(front, lines[q], g);
    }
  }

  lemma OlderFront(lines: seq<Line>, p: nat, g: nat, front: Line)
    requires 0 < p < |lines| && front == Packed(lines[p..]) + Zeros(g) + Packed(lines[..p - 1])
    ensures front != [] && front[|front| - 1] == 0
  {
    PackedEnd(lines[p..]);
    if p > 1 {
      PackedEnd(lines[..p - 1]);
    }
  }

  lemma FrontAppend(a: Line, b: Line, x: Line)
    ensures a + (b + (x + [0])) == (a + b) + x + Zeros(1)
  {
    assert Zeros(1) == [0];
  }

  lemma RotateParts(a: Line, g: Line, b: Line, x: Line)
    ensures var v := a + g + (b + x); var n := |a + g + b|;
      v[n..] + v[..n] == (x + a) + g + b
  {
  }

  lemma LastLine(front: Line, x: Line, g: nat)
    ensures var v := (front + (x + [0])) + Zeros(g) + [];
      v == front + x + Zeros(g + 1) && v[|front|..] + v[..|front|] == (x + [0] + []) + Zeros(g) + front
  {
    assert Zeros(g + 1) == [0] + Zeros(g);
  }

  lemma NewerParts(lines: seq<Line>, p: nat) returns (z: nat, rest: Line)
    requires AllSubmittable(lines) && |Packed(lines)| <= RING && p < |lines|
    ensures var v, q := CursorView(lines, p), Newer(|lines|, p);
      && BeginsWith(v, lines[p], z, rest) && |lines[p]| + z <= RING
      && v[|lines[p]| + z..] + v[..|lines[p]| + z] == CursorView(lines, q)
  {
    hide Packed, Zeros;
    var g, x := RING - |Packed(lines)|, lines[p];
    PackedNone();
    assert Submittable(x);
    PackedSplit(lines, p);
    if p < |lines| - 1 {
      z, rest := 1, Packed(lines[p + 1..]) + Zeros(g) + Packed(lines[..p]);
      FirstByte(lines, p + 1);
      NextLine(x, Packed(lines[p + 1..]), Zeros(g), Packed(lines[..p]));
    } else {
      z, rest := g + 1, Packed(lines[..p]);
      assert lines[p + 1..] == [] && lines[0..] == lines && lines[..0] == [];
      if p > 0 {
        assert lines[..p][0..] == lines[..p];
        FirstByte(lines[..p], 0);
      }
      WrapLine(x, g, rest);
    }
  }

  lemma FirstByte(lines: seq<Line>, p: nat)
    requires AllSubmittable(lines) && p < |lines|
    ensures Packed(lines[p..]) != [] && Packed(lines[p..])[0] != 0
  {
    assert Submittable(lines[p]);
    PackedSplit(lines, p);
    assert lines[p][0] in lines[p];
  }

  lemma NextLine(x: Line, b: Line, g: Line, a: Line)
    ensures var v, n := (x + [0] + b) + g + a, |x| + 1;
      v == x + Zeros(1) + (b + g + a) && v[n..] + v[..n] == b + g + (a + (x + [0]))
  {
    assert Zeros(1) == [0];
  }

  lemma WrapLine(x: Line, g: nat, a: Line)
    ensures var v, n := (x + [0] + []) + Zeros(g) + a, |x| + (g + 1);
      v == x + Zeros(g + 1) + a && v[n..] + v[..n] == (a + (x + [0])) + Zeros(g) + []
  {
    assert Zeros(g + 1) == [0] + Zeros(g);
  }

  // ---------------------------------------------------------------------------------------------
  // Presses of the Up key

  datatype Key = UpKey | DownKey

  /** How far some presses move the browsing position towards the newer lines. */
  function Moves(keys: seq<Key>): int {
    if keys == [] then 0 else Moves(keys[..|keys| - 1]) + (if keys[|keys| - 1] == UpKey then -1 else 1)
  }

  lemma MovesNext(keys: seq<Key>, i: nat)
    requires i < |keys|
    ensures Moves(keys[..i + 1]) == Moves(keys[..i]) + (if keys[i] == UpKey then -1 else 1)
  {
    assert keys[..i + 1][..i] == keys[..i];
  }

  lemma {:induction false} MovesUp(keys: seq<Key>)
    requires forall i :: 0 <= i < |keys| ==> keys[i] == UpKey
    ensures Moves(keys) == -|keys|
  {
    if keys != [] {
      MovesUp(keys[..|keys| - 1]);
    }
  }

  /** The line some moves away, around the ring of lines. */
  function Around(n: nat, p: nat, moves: int): (q: nat)
    requires p < n
    ensures q < n
  {
    (p + moves) % n
  }

  lemma AroundNext(n: nat, p: nat, m: int)
    requires p < n
    ensures Older(n, Around(n, p, m)) == Around(n, p, m - 1)
    ensures Newer(n, Around(n, p, m)) == Around(n, p, m + 1)
  {
    var q := Around(n, p, m);
    Bits.Remainder(p + m - 1, n, (p + m) / n - (if q == 0 then 1 else 0), Older(n, q));
    Bits.Remainder(p + m + 1, n, (p + m) / n + (if q == n - 1 then 1 else 0), Newer(n, q));
  }

  /** From the newest line on the presses go back line by line, and start again after the oldest. */
  lemma FromNewest(n: nat, i: nat)
    requires n > 0
    ensures i % n < n && Around(n, n - 1, 0 - i) == n - 1 - i % n
  {
    assert i == i / n * n + i % n;
    Bits.Remainder(n - 1 - i, n, -(i / n), n - 1 - i % n);
  }

  /** The lines that get into the history: an empty one is passed over. */
  function Typed(inputs: seq<Line>): seq<Line> {
    if inputs == [] then []
    else Typed(inputs[..|inputs| - 1]) + (if inputs[|inputs| - 1] == [] then [] else [inputs[|inputs| - 1]])
  }

  lemma TypedNext(all: seq<Line>, inputs: seq<Line>, i: nat)
    requires i < |inputs|
    ensures var now, next := Typed(inputs[..i]), Typed(inputs[..i + 1]);
      && (inputs[i] == [] ==> next == now && all + next == all + now)
      && (inputs[i] != [] ==> next != [] && all + next == all + now + [inputs[i]])
  {
    assert inputs[..i + 1][..i] == inputs[..i];
  }

  lemma KeptAgain(all: seq<Line>, s: Line)
    requires |s| < RING
    ensures Submitted(Kept(all, RING), s) == Kept(all + [s], RING)
  {
    hide Kept, Packed, AllSubmittable;
    KeptTwice(all, RING, RING - 1 - |s|);
    KeptWithLast(all, s, RING);
  }

  // ---------------------------------------------------------------------------------------------

  class Console {
    const history: array<Byte>
    var cur: nat
    var idx: nat
    /** The lines in the ring, oldest first, and the one the browsing position is at. */
    ghost var lines: seq<Line>
    ghost var at: nat

    ghost predicate Valid()
      reads this, history
    {
      && history.Length == RING && cur < RING && idx < RING
      && AllSubmittable(lines) && |Packed(lines)| <= RING
      && Rotated(history[..], cur) == View(lines)
      && (lines != [] ==> at < |lines| && Rotated(history[..], idx) == CursorView(lines, at))
      && (lines == [] ==> idx == cur)
    }

    constructor ()
      ensures Valid() && lines == [] && fresh(history)
    {
      history := new Byte[RING](i => 0);
      cur, idx, lines, at := 0, 0, [], 0;
      new;
      assert Rotated(history[..], 0) == Zeros(RING) + [];
    }

    /** `strncpy` into the array. */
    method Copy(from: nat, part: Line)
      requires from + |part| <= history.Length
      modifies history
      ensures history[..] == old(history[..from]) + part + old(history[from + |part|..])
    {
      for k := 0 to |part|
        invariant history[..from + k] == old(history[..from]) + part[..k]
        invariant forall j :: from + k <= j < history.Length ==> history[j] == old(history[j])
      {
        history[from + k] := part[k];
        assert part[..k + 1] == part[..k] + [part[k]];
      }
      assert part[..|part|] == part;
      assert history[..] == history[..from + |part|] + history[from + |part|..];
    }

    /** A line and its terminator go to the free position and on, around the end of the array if need be. */
    method CopyAround(t: Line) returns (lastchar: Byte)
      requires history.Length == RING && cur < RING && 0 < |t| <= RING
      modifies history
      ensures lastchar == Rotated(old(history[..]), cur)[|t| - 1]
      ensures Rotated(history[..], cur) == t + Rotated(old(history[..]), cur)[|t|..]
    {
      hide Rotated;
      lastchar := history[(cur + (|t| - 1)) % RING];
      RotatedAt(history[..], cur, |t| - 1);
      PutLine(t);
    }

    /** One copy, or two around the end of the array. */
    method PutLine(t: Line)
      requires history.Length == RING && cur < RING && |t| <= RING
      modifies history
      ensures Rotated(history[..], cur) == t + Rotated(old(history[..]), cur)[|t|..]
    {
      hide Rotated;
      ghost var a := history[..];
      var left := RING - cur;
      if left >= |t| {
        Copy(cur, t);
        PutStraight(a, cur, t);
      } else {
        Copy(cur, t[..left]);
        Copy(0, t[left..]);
        PutAround(a, cur, t);
      }
    }

    /** Clears from `from` to the next zero byte, which is at the latest `stop` places on. */
    method ClearRemnant(from: nat, ghost stop: nat, ghost n: nat)
      requires history.Length == RING && from < RING && stop < n <= RING && Rotated(history[..], from)[stop] == 0
      modifies history
      ensures Rotated(history[..], from) == Cleared(old(Rotated(history[..], from)[..n])) + old(Rotated(history[..], from)[n..])
    {
      hide Rotated, Cleared, Wrap, Wiped;
      var i := from;
      ghost var v := Rotated(history[..], from);
      ghost var k := 0;
      WipedStart(v, n);
      WrapStart(from);
      while history[i] != 0
        invariant k <= stop && i == Wrap(from, k) && i < RING
        invariant Rotated(history[..], from) == Wiped(v, k)
        invariant Cleared(v[..n]) == Wiped(v, k)[..k] + Cleared(v[k..n])
        decreases stop - k
      {
        WrapSteps(from, k);
        WrapRead(history[..], from, k);
        WipedNext(v, k, n);
        WrapUpdate(history[..], from, k);
        history[i] := 0;
        i := (i + 1) % RING;
        k := k + 1;
      }
      WrapRead(history[..], from, k);
      WipedEnd(v, k, n);
    }

    /** The line goes into the ring, and what is left of a line it has cut is cleared. */
    method Overwrite(s: Line, ghost view: Line) returns (next: nat)
      requires history.Length == RING && cur < RING && |s| + 1 <= RING
      requires Rotated(history[..], cur) == view && view[RING - 1] == 0
      modifies history
      ensures next == (cur + (|s| + 1)) % RING
      ensures Rotated(history[..], next) == Remains(view, |s| + 1) + (s + [0])
    {
      hide Rotated, Cleared, Remains;
      ghost var n := RING - |s| - 1;
      var lastchar := CopyAround(s + [0]);
      assert lastchar == view[|s|];
      next := (cur + (|s| + 1)) % RING;
      Overwritten(history[..], cur, view, s);
      if lastchar != 0 {
        ghost var now := Rotated(history[..], next);
        ClearRemnant(next, n - 1, n);
        ClearedIs(view, s);
        assert Rotated(history[..], next) == Cleared(now[..n]) + now[n..];
      }
    }

    /** A line is submitted. */
    method Submit(s: Line)
      requires Valid() && Submittable(s)
      modifies this, history
      ensures Valid() && lines == Submitted(old(lines), s) && at == |lines| - 1
    {
      hide Rotated, View, CursorView, Packed, Kept, Remains;
      ViewEnds(lines);
      idx := cur;
      var next := Overwrite(s, View(lines));
      Settled(history[..], cur, next, lines, s);
      lines := Submitted(lines, s);
      at := |lines| - 1;
      cur := next;
    }

    /** What both keys show: the line at the browsing position. */
    method ReadLine(from: nat, ghost x: Line, ghost v: Line) returns (s: Line)
      requires history.Length == RING && from < RING && Rotated(history[..], from) == v
      requires |x| < RING && v[..|x|] == x && v[|x|] == 0 && 0 !in x
      ensures s == x
    {
      hide Rotated, Wrap;
      s := [];
      var i := from;
      LineValues(v, x);
      WrapStart(from);
      while history[i] != 0
        invariant |s| <= |x| && s == x[..|s|] && i == Wrap(from, |s|) && i < RING
        decreases |x| - |s|
      {
        WrapSteps(from, |s|);
        WrapRead(history[..], from, |s|);
        s := s + [history[i]];
        i := (i + 1) % RING;
      }
      WrapRead(history[..], from, |s|);
    }

    /** The scan of the Up key: back over zero bytes, then back over the line found. */
    method ScanBack(ghost v: Line, ghost front: Line, ghost x: Line, ghost z: nat) returns (index: nat)
      requires history.Length == RING && idx < RING && Rotated(history[..], idx) == v
      requires (EndsIn(v, front, x, z) && v[0] != 0) || (v == Zeros(RING) && x == [] && front == [])
      ensures index == Wrap(idx, |front|)
    {
      hide Rotated, Wrap, Zeros, EndsIn;
      BackValues(v, front, x, z);
      index := (idx + (RING - 1)) % RING;
      ghost var j := RING - 1;
      WrapStart(idx);
      while history[index] == 0 && index != idx
        invariant 0 <= j < RING && index == Wrap(idx, j) && index < RING && j + 1 >= |front| + |x|
        decreases j
      {
        WrapSteps(idx, j);
        WrapRead(history[..], idx, j);
        index := (index + (RING - 1)) % RING;
        j := j - 1;
      }
      WrapSteps(idx, j);
      WrapRead(history[..], idx, j);
      if index != idx {
        ghost var k := j + RING;
        while history[index] != 0
          invariant |front| + RING - 1 <= k < |front| + |x| + RING && index == Wrap(idx, k) && index < RING
          decreases k
        {
          WrapSteps(idx, k);
          WrapRead(history[..], idx, k);
          index := (index + (RING - 1)) % RING;
          k := k - 1;
        }
        WrapSteps(idx, k);
        WrapRead(history[..], idx, k);
        index := (index + 1) % RING;
        WrapSteps(idx, |front| + RING);
      }
    }

    /** The Up key: the line at the browsing position is shown, and the position moves to the next older line, or from
        the oldest to the newest. */
    method Up() returns (s: Line)
      requires Valid()
      modifies `idx, `at
      ensures Valid() && cur == old(cur)
      ensures lines == [] ==> s == []
      ensures lines != [] ==> s == lines[old(at)] && at == Older(|lines|, old(at))
    {
      hide Rotated, CursorView, View, Packed, Zeros, BeginsWith, Newer;
      ghost var v, x, front, z := Rotated(history[..], idx), [], [], 0;
      if lines != [] {
        x := lines[at];
        ghost var gap, rest := NewerParts(lines, at);
        StartsWith(v, x, gap, rest);
        front, z := OlderParts(lines, at);
      } else {
        EmptyView();
      }
      ghost var older := if lines == [] then [] else lines[Older(|lines|, at)];
      var index := ScanBack(v, front, older, z);
      s := ReadLine(idx, x, v);
      RotatedMore(history[..], idx, |front|);
      idx := index;
      if lines != [] {
        at := Older(|lines|, at);
      }
    }

    /** The scan of the Down key: on over the line, then on over zero bytes. */
    method ScanForward(ghost v: Line, ghost x: Line, ghost z: nat, ghost rest: Line) returns (index: nat)
      requires history.Length == RING && idx < RING && Rotated(history[..], idx) == v
      requires BeginsWith(v, x, z, rest) || (v == Zeros(RING) && x == [] && z == 0)
      ensures index == Wrap(idx, |x| + z)
    {
      hide Rotated, Wrap, Zeros, BeginsWith;
      ForwardValues(v, x, z, rest);
      index := idx;
      ghost var j := 0;
      WrapStart(idx);
      while history[index] != 0
        invariant j <= |x| && index == Wrap(idx, j) && index < RING
        decreases |x| - j
      {
        WrapSteps(idx, j);
        WrapRead(history[..], idx, j);
        index := (index + 1) % RING;
        j := j + 1;
      }
      WrapSteps(idx, j);
      WrapRead(history[..], idx, j);
      if index != idx {
        while history[index] == 0
          invariant |x| <= j <= |x| + z && index == Wrap(idx, j) && index < RING
          decreases |x| + z - j
        {
          WrapSteps(idx, j);
          WrapRead(history[..], idx, j);
          index := (index + 1) % RING;
          j := j + 1;
        }
        WrapRead(history[..], idx, j);
      }
    }

    /** The Down key: the line at the browsing position is shown, and the position moves to the next newer line. */
    method Down() returns (s: Line)
      requires Valid()
      modifies `idx, `at
      ensures Valid() && cur == old(cur)
      ensures lines == [] ==> s == []
      ensures lines != [] ==> s == lines[old(at)] && at == Newer(|lines|, old(at))
    {
      hide Rotated, CursorView, View, Packed, Zeros;
      ghost var v, x, z, rest := Rotated(history[..], idx), [], 0, [];
      if lines != [] {
        x := lines[at];
        z, rest := NewerParts(lines, at);
        StartsWith(v, x, z, rest);
      } else {
        EmptyView();
      }
      var index := ScanForward(v, x, z, rest);
      s := ReadLine(idx, x, v);
      RotatedMore(history[..], idx, |x| + z);
      idx := index;
      if lines != [] {
        at := Newer(|lines|, at);
      }
    }

    /** Any presses of the two keys: each shows the line as many lines away as the presses before it have moved. */
    method Browse(keys: seq<Key>) returns (shown: seq<Line>)
      requires Valid()
      modifies `idx, `at
      ensures Valid() && cur == old(cur) && |shown| == |keys|
      ensures lines == [] ==> forall i :: 0 <= i < |keys| ==> shown[i] == []
      ensures lines != [] ==> at == Around(|lines|, old(at), Moves(keys))
      ensures lines != [] ==> forall i :: 0 <= i < |keys| ==> shown[i] == lines[Around(|lines|, old(at), Moves(keys[..i]))]
    {
      hide Valid, Around, Moves;
      shown := [];
      AtCursor();
      for i := 0 to |keys|
        invariant Valid() && |shown| == i
        invariant lines == [] ==> forall j :: 0 <= j < i ==> shown[j] == []
        invariant lines != [] ==> at == Around(|lines|, old(at), Moves(keys[..i]))
        invariant lines != [] ==>
          forall j :: 0 <= j < i ==> shown[j] == lines[Around(|lines|, old(at), Moves(keys[..j]))]
      {
        MovesNext(keys, i);
        if lines != [] {
          AroundNext(|lines|, old(at), Moves(keys[..i]));
        }
        var s;
        if keys[i] == UpKey {
          s := Up();
        } else {
          s := Down();
        }
        shown := shown + [s];
      }
      assert keys[..|keys|] == keys;
    }

    /** Presses of the Up key after a submission: the newest line first, then back line by line, and from the oldest
        to the newest again. */
    method PressUp(k: nat) returns (shown: seq<Line>)
      requires Valid() && lines != [] && at == |lines| - 1
      modifies `idx, `at
      ensures Valid() && cur == old(cur) && |shown| == k
      ensures forall i :: 0 <= i < k ==> shown[i] == lines[|lines| - 1 - i % |lines|]
    {
      hide Valid, Around, Moves;
      var keys := seq(k, _ => UpKey);
      shown := Browse(keys);
      forall i | 0 <= i < k ensures shown[i] == lines[|lines| - 1 - i % |lines|] {
        MovesUp(keys[..i]);
        FromNewest(|lines|, i);
      }
    }

    /** The console reads any lines: the ring holds the longest suffix of all it held and got that fits into it. */
    method SubmitAll(inputs: seq<Line>)
      requires Valid() && forall i :: 0 <= i < |inputs| ==> inputs[i] == [] || Submittable(inputs[i])
      modifies this, history
      ensures Valid() && lines == Kept(old(lines) + Typed(inputs), 256)
      ensures Typed(inputs) != [] ==> at == |lines| - 1
    {
      hide Valid, Kept, Typed, Submittable, AllSubmittable, Packed, Zeros;
      AllKept();
      TypedNone();
      assert lines + [] == lines;
      for i := 0 to |inputs|
        invariant Valid() && lines == Kept(old(lines) + Typed(inputs[..i]), RING)
        invariant Typed(inputs[..i]) != [] ==> at == |lines| - 1
      {
        TypedNext(old(lines), inputs, i);
        SubmitNext(old(lines) + Typed(inputs[..i]), inputs[i]);
      }
      assert inputs[..|inputs|] == inputs;
    }

    /** One line more, unless it is empty. */
    method SubmitNext(ghost all: seq<Line>, s: Line)
      requires Valid() && lines == Kept(all, RING) && (s == [] || Submittable(s))
      modifies this, history
      ensures Valid() && lines == Kept(if s == [] then all else all + [s], RING)
      ensures at == if s == [] then old(at) else |lines| - 1
    {
      hide Valid, Kept, Submitted;
      if |s| > 0 {
        KeptAgain(all, s);
        Submit(s);
      }
    }

    lemma AtCursor()
      requires Valid()
      ensures lines != [] ==> at < |lines| && Around(|lines|, at, Moves([])) == at
    {
      hide View, CursorView, Rotated;
    }

    lemma AllKept()
      requires Valid()
      ensures Kept(lines, RING) == lines
    {
      hide View, CursorView, Rotated;
    }
  }

  lemma TypedNone()
    ensures Typed([]) == []
  {
  }

  /** A position `k` places on in the ring. */
  function Wrap(c: nat, k: nat): nat {
    (c + k) % RING
  }

  lemma WrapStart(c: nat)
    requires c < RING
    ensures Wrap(c, 0) == c && Wrap(c, RING - 1) == (c + (RING - 1)) % RING
  {
  }

  lemma WrapSteps(c: nat, k: nat)
    requires c < RING
    ensures Wrap(c, k) < RING && (Wrap(c, k) + 1) % RING == Wrap(c, k + 1)
    ensures k > 0 ==> (Wrap(c, k) + (RING - 1)) % RING == Wrap(c, k - 1)
    ensures k >= RING ==> Wrap(c, k) == Wrap(c, k - RING)
    ensures Wrap(c, k + RING) == Wrap(c, k)
    ensures Wrap(c, 0) == c && (0 < k < RING ==> Wrap(c, k) != c)
  {
    hide Wrap;
    WrapNext(c, k);
    if k > 0 {
      WrapBack(c, k);
    }
    if k >= RING {
      WrapTurn(c, k - RING);
    }
    WrapTurn(c, k);
    WrapAway(c, k);
  }

  lemma WrapNext(c: nat, k: nat)
    ensures Wrap(c, k) < RING && (Wrap(c, k) + 1) % RING == Wrap(c, k + 1)
  {
  }

  lemma WrapBack(c: nat, k: nat)
    requires k > 0
    ensures (Wrap(c, k) + (RING - 1)) % RING == Wrap(c, k - 1)
  {
  }

  lemma WrapTurn(c: nat, k: nat)
    ensures Wrap(c, k + RING) == Wrap(c, k)
  {
  }

  lemma WrapAway(c: nat, k: nat)
    requires c < RING
    ensures Wrap(c, 0) == c && (0 < k < RING ==> Wrap(c, k) != c)
  {
  }

  lemma WrapRead(a: Line, c: nat, k: nat)
    requires |a| == RING && c < RING && k < 2 * RING
    ensures Wrap(c, k) < RING && (k < RING ==> a[Wrap(c, k)] == Rotated(a, c)[k])
    ensures k >= RING ==> a[Wrap(c, k)] == Rotated(a, c)[k - RING]
  {
    hide Rotated;
    RotatedAt(a, c, if k < RING then k else k - RING);
  }

  /** Where the backward scan meets zero bytes and where it does not. */
  lemma BackValues(v: Line, front: Line, x: Line, z: nat)
    requires (EndsIn(v, front, x, z) && v[0] != 0) || (v == Zeros(RING) && x == [] && front == [])
    ensures |v| == RING && |front| + |x| < RING
    ensures forall k :: |front| + |x| <= k < RING ==> v[k] == 0
    ensures forall k :: |front| <= k < |front| + |x| ==> v[k] != 0
    ensures front != [] ==> v[|front| - 1] == 0
    ensures x == [] ==> front == []
  {
    forall k | |front| <= k < |front| + |x| ensures v[k] != 0 {
      assert v[k] == x[k - |front|] && x[k - |front|] in x;
    }
  }

  lemma LineValues(v: Line, x: Line)
    requires |x| < |v| && v[..|x|] == x && 0 !in x
    ensures forall k :: 0 <= k < |x| ==> v[k] == x[k] && v[k] != 0
  {
    forall k | 0 <= k < |x| ensures v[k] == x[k] && v[k] != 0 {
      assert v[..|x|][k] == x[k] && x[k] in x;
    }
  }

  lemma ForwardValues(v: Line, x: Line, z: nat, rest: Line)
    requires BeginsWith(v, x, z, rest) || (v == Zeros(RING) && x == [] && z == 0)
    ensures |v| == RING && |x| < RING && |x| + z <= RING
    ensures forall k :: 0 <= k < |x| ==> v[k] != 0
    ensures forall k :: |x| <= k < |x| + z ==> v[k] == 0
    ensures if x == [] then z == 0 && v[0] == 0 else z > 0
    ensures |x| + z < RING && x != [] ==> v[|x| + z] != 0
  {
    forall k | 0 <= k < |x| ensures v[k] != 0 {
      assert v[k] == x[k] && x[k] in x;
    }
  }

  lemma EmptyView()
    ensures View([]) == Zeros(RING)
  {
    assert Zeros(RING) + [] == Zeros(RING);
  }

  lemma PutStraight(a: Line, c: nat, t: Line)
    requires |a| == RING && c < RING && c + |t| <= RING
    ensures Rotated(a[..c] + t + a[c + |t|..], c) == t + Rotated(a, c)[|t|..]
  {
    assert (a[..c] + t + a[c + |t|..])[c..] == t + a[c + |t|..];
    assert (a[..c] + t + a[c + |t|..])[..c] == a[..c];
  }

  lemma PutAround(a: Line, c: nat, t: Line)
    requires |a| == RING && c < RING && RING - c < |t| <= RING
    ensures var left := RING - c; var b := a[..c] + t[..left] + a[c + left..];
      Rotated(b[..0] + t[left..] + b[|t| - left..], c) == t + Rotated(a, c)[|t|..]
  {
    var left := RING - c;
    var b := a[..c] + t[..left] + a[c + left..];
    assert b == a[..c] + t[..left];
    assert b[..0] + t[left..] + b[|t| - left..] == t[left..] + a[|t| - left..c] + t[..left];
    assert Rotated(a, c)[|t|..] == a[|t| - left..c];
    assert t == t[..left] + t[left..];
  }

  /** The first `k` bytes cleared. */
  function Wiped(v: Line, k: nat): (r: Line)
    requires k <= |v|
    ensures |r| == |v| && (k < |v| ==> r[k] == v[k])
  {
    Zeros(k) + v[k..]
  }

  lemma WipedStart(v: Line, n: nat)
    requires n <= |v|
    ensures v == Wiped(v, 0) && Cleared(v[..n]) == Wiped(v, 0)[..0] + Cleared(v[0..n])
    ensures forall k :: 0 <= k < |v| ==> Wiped(v, k)[k] == v[k]
  {
  }

  lemma WipedNext(v: Line, k: nat, n: nat)
    requires k < n <= |v| && v[k] != 0 && Cleared(v[..n]) == Wiped(v, k)[..k] + Cleared(v[k..n])
    ensures Cleared(v[..n]) == Wiped(v, k + 1)[..k + 1] + Cleared(v[k + 1..n])
    ensures Wiped(v, k)[k := 0] == Wiped(v, k + 1)
  {
    assert v[k..n][0] == v[k] && v[k..n][1..] == v[k + 1..n];
    assert Wiped(v, k)[..k] + [0] == Wiped(v, k + 1)[..k + 1];
  }

  lemma WipedEnd(v: Line, k: nat, n: nat)
    requires k < n <= |v| && v[k] == 0 && Cleared(v[..n]) == Wiped(v, k)[..k] + Cleared(v[k..n])
    ensures Wiped(v, k) == Cleared(v[..n]) + v[n..]
  {
    assert v[k..n][0] == 0;
    assert v[k..] == v[k..n] + v[n..];
  }

  /** The ring after the line and its terminator are written over its first bytes. */
  lemma Overwritten(a: Line, cur: nat, view: Line, s: Line)
    requires |a| == RING && cur < RING && |view| == RING && |s| + 1 <= RING && view[RING - 1] == 0
    requires Rotated(a, cur) == s + [0] + view[|s| + 1..]
    ensures var now := Rotated(a, (cur + (|s| + 1)) % RING);
      && (view[|s|] == 0 ==> now == Remains(view, |s| + 1) + (s + [0]))
      && (view[|s|] != 0 ==> |s| + 2 <= RING && now[RING - |s| - 2] == 0)
      && now[..RING - |s| - 1] == view[|s| + 1..] && now[RING - |s| - 1..] == s + [0]
  {
    hide Rotated, Cleared;
    RotatedMore(a, cur, |s| + 1);
    var r, t := Rotated(a, cur), s + [0];
    assert r[|t|..] == view[|t|..] && r[..|t|] == t;
  }

  lemma ClearedIs(view: Line, s: Line)
    requires |view| == RING && |s| + 1 <= RING && view[|s|] != 0
    ensures Remains(view, |s| + 1) == Cleared(view[|s| + 1..])
  {
  }

  /** The ring after a submission. */
  lemma Settled(a: Line, cur: nat, next: nat, lines: seq<Line>, s: Line)
    requires |a| == RING && cur < RING && AllSubmittable(lines) && |Packed(lines)| <= RING && Submittable(s)
    requires next == (cur + (|s| + 1)) % RING && Rotated(a, next) == Remains(View(lines), |s| + 1) + (s + [0])
    ensures var all := Submitted(lines, s);
      && all != [] && AllSubmittable(all) && |Packed(all)| <= RING
      && Rotated(a, next) == View(all) && Rotated(a, cur) == CursorView(all, |all| - 1)
  {
    hide Rotated, View, CursorView, Packed, Kept, Zeros, Remains;
    SubmitView(lines, s);
    RotatedMore(a, next, RING - |s| - 1);
    var remains := Remains(View(lines), |s| + 1);
    assert (next + (RING - |s| - 1)) % RING == cur;
    assert Rotated(a, cur) == (s + [0]) + remains;
    Newest(Kept(lines, RING - 1 - |s|), s, remains);
  }

  lemma WrapUpdate(a: Line, c: nat, k: nat)
    requires |a| == RING && c < RING && k < RING
    ensures Wrap(c, k) < RING && Rotated(a[Wrap(c, k) := 0], c) == Rotated(a, c)[k := 0]
  {
    RotatedUpdate(a, c, k, 0);
  }

  lemma ViewEnds(lines: seq<Line>)
    requires |Packed(lines)| <= RING
    ensures View(lines)[RING - 1] == 0
  {
    if lines != [] {
      PackedEnd(lines);
    }
  }

  lemma Newest(kept: seq<Line>, s: Line, remains: Line)
    requires |Packed(kept + [s])| <= RING && View(kept + [s]) == remains + (s + [0]) && |remains| + |s| + 1 == RING
    ensures (s + [0]) + remains == CursorView(kept + [s], |kept|)
  {
    var all := kept + [s];
    assert all[|kept|..] == [s] && all[..|kept|] == kept;
    PackedJoin(kept, [s]);
    PackedOne(s);
    var g := RING - |Packed(all)|;
    assert remains == (Zeros(g) + Packed(kept)) by {
      assert View(all) == Zeros(g) + Packed(kept) + (s + [0]);
      assert remains == View(all)[..|remains|];
    }
  }

  lemma StartsWith(v: Line, x: Line, z: nat, rest: Line)
    requires BeginsWith(v, x, z, rest)
    ensures |x| < RING && v[..|x|] == x && v[|x|] == 0 && v[0] != 0
  {
    assert v[0] == x[0] && x[0] in x;
  }
}
