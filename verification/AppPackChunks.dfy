/** Where the network cuts the stream does not matter (services/app_mgr/app_mgr.c, apppack_update). */
module AppPackChunks {
  import opened AppPack

  // ---------------------------------------------------------------------------------------------
  // Taking a part in two pieces

  lemma AppendTwice(files: seq<File>, a: Bytes, b: Bytes)
    requires files != []
    ensures AppendLast(AppendLast(files, a), b) == AppendLast(files, a + b)
  {
    var n := |files| - 1;
    var f := files[n].(content := files[n].content + a);
    assert (files[..n] + [f])[..n] == files[..n];
    assert files[n].content + a + b == files[n].content + (a + b);
  }

  lemma EmitTwice(o: Output, name: Bytes, size: nat, offset: nat, a: Bytes, b: Bytes)
    requires offset > 0 ==> o.appOffset == offset && o.open && o.files != []
    requires a != [] && b != [] && offset + |a| + |b| <= size
    ensures Emit(Emit(o, name, size, offset, a), name, size, offset + |a|, b) == Emit(o, name, size, offset, a + b)
  {
    hide CString, AppendLast;
    var files := if offset == 0 then o.files + [File(CString(name), [])] else o.files;
    AppendTwice(files, a, b);
    var fed := if offset == 0 then [] else o.fed;
    assert fed + a + b == fed + (a + b);
    AppendSome(files, a);
  }

  lemma AppendSome(files: seq<File>, a: Bytes)
    requires files != []
    ensures AppendLast(files, a) != []
  {
  }

  lemma DataTwice(h: Digest, s: Parser, a: Bytes, b: Bytes)
    requires Inv(s) && !BadSize(s) && PhaseOf(s) == Data && a != [] && b != []
    requires s.fileOffset + |a| + |b| <= FileSize(s)
    ensures DataStep(h, DataStep(h, s, a), b) == DataStep(h, s, a + b)
  {
    hide Emit, EndOfFile, Le32;
    DataStepIs(h, s, a);
    EmitTwice(s.out, s.name, FileSize(s), s.fileOffset, a, b);
  }

  /** Within one step, taking a part in two pieces leads to the same state. */
  lemma StepTwice(h: Digest, s: Parser, a: Bytes, b: Bytes)
    requires Inv(s) && !BadSize(s) && PhaseOf(s) != Data && a != [] && b != [] && |a| + |b| <= Wanted(s)
    ensures var t := Step(h, s, a);
      && Inv(t) && !BadSize(t) && PhaseOf(t) != Data && Wanted(t) == Wanted(s) - |a|
      && t.done == s.done && t.error == s.error && t.fault == s.fault
      && Step(h, t, b) == Step(h, s, a + b)
  {
    hide Le32, Inv;
    StepInv(h, s, a);
    match PhaseOf(s)
    case PackHeader => assert s.header + a + b == s.header + (a + b);
    case FileHeader => assert s.fileHeader + a + b == s.fileHeader + (a + b);
    case NameRest => assert s.name + a + b == s.name + (a + b);
    case _ =>
  }

  // ---------------------------------------------------------------------------------------------
  // One byte and the rest

  ghost predicate Stopped(s: Parser) {
    s.error || s.fault || s.done
  }

  lemma UpdateOne(h: Digest, s: Parser, x: Byte)
    requires Inv(s) && !Stopped(s) && !BadSize(s) && Wanted(s) > 0
    ensures Inv(Step(h, s, [x])) && Update(h, s, [x]) == Step(h, s, [x])
  {
    hide Step, Wanted, Inv;
    StepInv(h, s, [x]);
    assert [x][..1] == [x];
    assert Update(h, Step(h, s, [x]), []) == Step(h, s, [x]);
  }

  lemma UpdateTakes(h: Digest, s: Parser, p: Bytes)
    requires Inv(s) && !Stopped(s) && !BadSize(s) && p != []
    ensures var n := Min(Wanted(s), |p|);
      Inv(Step(h, s, p[..n])) && Update(h, s, p) == Update(h, Step(h, s, p[..n]), p[n..])
  {
    hide Step, Wanted, Inv, BadSize;
    StepInv(h, s, p[..Min(Wanted(s), |p|)]);
  }

  lemma {:induction false} ByteFirst(h: Digest, s: Parser, x: Byte, p: Bytes)
    requires Inv(s)
    ensures Update(h, s, [x] + p) == Update(h, Update(h, s, [x]), p)
    decreases |p|, PhaseOf(s) == Data
  {
    hide Step, Inv, BadSize, Wanted;
    if Stopped(s) || BadSize(s) {
    } else if Wanted(s) == 0 {
      EmptyFile(h, s, [x] + p);
      EmptyFile(h, s, [x]);
      ByteFirst(h, Step(h, s, []), x, p);
    } else {
      UpdateOne(h, s, x);
      UpdateTakes(h, s, [x] + p);
      if p == [] || Wanted(s) == 1 {
        assert ([x] + p)[..1] == [x] && ([x] + p)[1..] == p;
      } else if PhaseOf(s) == Data {
        DataByteFirst(h, s, x, p);
      } else {
        OtherByteFirst(h, s, x, p);
      }
    }
  }

  /** A file of no bytes is complete as soon as one more byte is there, which then starts the next header. */
  lemma EmptyFile(h: Digest, s: Parser, p: Bytes)
    requires Inv(s) && !Stopped(s) && !BadSize(s) && Wanted(s) == 0 && p != []
    ensures var t := Step(h, s, []);
      Inv(t) && Update(h, s, p) == Update(h, t, p) && PhaseOf(s) == Data && PhaseOf(t) == FileHeader
  {
    hide Step, BadSize, Wanted;
    StepInv(h, s, []);
    UpdateTakes(h, s, p);
    assert p[..0] == [] && p[0..] == p;
  }

  lemma OtherByteFirst(h: Digest, s: Parser, x: Byte, p: Bytes)
    requires Inv(s) && !Stopped(s) && !BadSize(s) && Wanted(s) > 1 && p != [] && PhaseOf(s) != Data
    requires Inv(Step(h, s, [x]))
    ensures Update(h, s, [x] + p) == Update(h, Step(h, s, [x]), p)
  {
    hide Step, Inv, BadSize, Wanted;
    var n := Min(Wanted(s), 1 + |p|);
    var t := Step(h, s, [x]);
    StepTwice(h, s, [x], p[..n - 1]);
    assert ([x] + p)[..n] == [x] + p[..n - 1] && ([x] + p)[n..] == p[n - 1..];
    UpdateTakes(h, s, [x] + p);
    UpdateTakes(h, t, p);
  }

  lemma {:induction false} DataByteFirst(h: Digest, s: Parser, x: Byte, p: Bytes)
    requires Inv(s) && !Stopped(s) && !BadSize(s) && Wanted(s) > 1 && p != [] && PhaseOf(s) == Data
    requires Inv(Step(h, s, [x]))
    ensures Update(h, s, [x] + p) == Update(h, Step(h, s, [x]), p)
    decreases |p|, false
  {
    hide DataStep;
    var n := Min(Wanted(s), 1 + |p|);
    var t := Step(h, s, [x]);
    AfterByte(h, s, x);
    var u := Step(h, s, [x] + p[..n - 1]);
    DataTwice(h, s, [x], p[..n - 1]);
    assert ([x] + p)[..n] == [x] + p[..n - 1] && ([x] + p)[n..] == p[n - 1..];
    UpdateTakes(h, s, [x] + p);
    UpdateTakes(h, t, p);
    if Min(Wanted(t), |p|) > n - 1 {
      BlockLater(h, t, p, n - 1);
      ByteFirst(h, u, p[n - 1], p[n..]);
    }
  }

  lemma AfterByte(h: Digest, s: Parser, x: Byte)
    requires Inv(s) && !Stopped(s) && !BadSize(s) && Wanted(s) > 1 && PhaseOf(s) == Data
    ensures var t := Step(h, s, [x]);
      && Inv(t) && !Stopped(t) && !BadSize(t) && PhaseOf(t) == Data && t.fileOffset == s.fileOffset + 1
      && t.fileHeader == s.fileHeader
      && Step(h, s, [x]) == DataStep(h, s, [x])
  {
    hide Le32, Emit, EndOfFile;
    StepInv(h, s, [x]);
    DataStepIs(h, s, [x]);
  }

  /** A block one byte longer than `n`: the block of `n` and the byte after it. */
  lemma BlockLater(h: Digest, t: Parser, p: Bytes, n: nat)
    requires Inv(t) && !Stopped(t) && !BadSize(t) && PhaseOf(t) == Data && 0 < n < |p|
    requires Min(Wanted(t), |p|) == n + 1
    ensures var u := Step(h, t, p[..n]);
      && Inv(u) && !Stopped(u) && !BadSize(u) && Wanted(u) > 0
      && Update(h, u, [p[n]]) == Step(h, t, p[..n + 1]) && p[n..] == [p[n]] + p[n + 1..]
  {
    hide Le32, Emit, EndOfFile;
    DataStepIs(h, t, p[..n]);
    StepInv(h, t, p[..n]);
    DataTwice(h, t, p[..n], [p[n]]);
    assert p[..n] + [p[n]] == p[..n + 1];
    UpdateOne(h, DataStep(h, t, p[..n]), p[n]);
  }

  // ---------------------------------------------------------------------------------------------
  // Any chunks

  /** Feeding `a` and then `b` is feeding `a + b`: same parser state, same output, same reports. */
  lemma {:induction false} ChunkIndependence(h: Digest, s: Parser, a: Bytes, b: Bytes)
    requires Inv(s)
    ensures Update(h, Update(h, s, a), b) == Update(h, s, a + b)
    decreases |a|
  {
    hide Inv, Update;
    if a == [] {
      assert a + b == b;
      NothingFed(h, s);
    } else {
      var x, p := a[0], a[1..];
      assert a == [x] + p && a + b == [x] + (p + b);
      ByteFirst(h, s, x, p);
      ByteFirst(h, s, x, p + b);
      ChunkIndependence(h, Update(h, s, [x]), p, b);
    }
  }

  lemma NothingFed(h: Digest, s: Parser)
    requires Inv(s)
    ensures Update(h, s, []) == s
  {
  }

  /** All chunks of a download, one call each. */
  function Feed(h: Digest, s: Parser, chunks: seq<Bytes>): (t: Parser)
    requires Inv(s)
    ensures Inv(t)
    decreases |chunks|
  {
    if chunks == [] then s else Feed(h, Update(h, s, chunks[0]), chunks[1..])
  }

  function Joined(chunks: seq<Bytes>): Bytes {
    if chunks == [] then [] else chunks[0] + Joined(chunks[1..])
  }

  lemma {:induction false} AnyChunks(h: Digest, s: Parser, chunks: seq<Bytes>)
    requires Inv(s)
    ensures Feed(h, s, chunks) == Update(h, s, Joined(chunks))
    decreases |chunks|
  {
    if chunks == [] {
      NothingFed(h, s);
    } else {
      AnyChunks(h, Update(h, s, chunks[0]), chunks[1..]);
      ChunkIndependence(h, s, chunks[0], Joined(chunks[1..]));
    }
  }
}
