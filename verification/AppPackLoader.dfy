/** The parser with its static variables and buffers, updated in place (services/app_mgr/app_mgr.c). */
module AppPackLoader {
  import opened AppPack
  import opened AppPackChunks
  import opened AppPackDelivery

  /** `memcpy` into a buffer. */
  method CopyInto(a: array<Byte>, at: nat, part: Bytes)
    requires at + |part| <= a.Length
    modifies a
    ensures a[..at + |part|] == old(a[..at]) + part
    ensures forall j :: at + |part| <= j < a.Length ==> a[j] == old(a[j])
  {
    for k := 0 to |part|
      invariant a[..at + k] == old(a[..at]) + part[..k]
      invariant forall j :: at + k <= j < a.Length ==> a[j] == old(a[j])
    {
      a[at + k] := part[k];
      assert part[..k + 1] == part[..k] + [part[k]];
    }
    assert part[..|part|] == part;
  }

  /** The part of a buffer that has been filled. */
  ghost function Front(a: array<Byte>, n: nat): (r: Bytes)
    requires n <= a.Length
    reads a
    ensures |r| == n
  {
    a[..n]
  }

  lemma NothingIn(a: array<Byte>)
    ensures Front(a, 0) == []
  {
  }

  class Loader {
    const digest: Digest
    const header: array<Byte>
    const fileHeader: array<Byte>
    var packSize: nat
    var headerOffset: nat
    var headerSize: nat
    /** The bytes of the name buffer received so far; the rest of it is zero. */
    var name: Bytes
    var fileOffset: nat
    var fileCount: int
    var done: bool
    var error: bool
    var fault: bool
    var fed: Bytes
    var appOffset: nat
    var files: seq<File>
    var open: bool
    var verdicts: seq<(Bytes, int)>

    ghost predicate Shape()
      reads this
    {
      header.Length == PACK_HEADER_SIZE && fileHeader.Length == FILE_HEADER && header != fileHeader
    }

    ghost function Out(): Output
      reads this
    {
      Output(fed, appOffset, files, open, verdicts)
    }

    ghost function State(): Parser
      requires Shape()
      reads this, header, fileHeader
    {
      Parser(packSize, Front(header, Min(packSize, PACK_HEADER_SIZE)), Front(fileHeader, Min(headerOffset, FILE_HEADER)),
             headerOffset, headerSize, name, fileOffset, fileCount, done, error, fault, Out())
    }

    ghost predicate Valid()
      reads this, header, fileHeader
    {
      Shape() && Inv(State())
    }

    /** `apppack_init`, the first time. */
    constructor (digest: Digest)
      ensures Valid() && this.digest == digest && fresh(header) && fresh(fileHeader)
      ensures State() == Init(FILE_HEADER + 1, [], [], 0, false)
    {
      this.digest := digest;
      header := new Byte[PACK_HEADER_SIZE](i => 0);
      fileHeader := new Byte[FILE_HEADER](i => 0);
      packSize, headerOffset, headerSize := 0, 0, FILE_HEADER + 1;
      name, fileOffset, fileCount := [], 0, 0;
      done, error, fault := false, false, false;
      fed, appOffset, files, open, verdicts := [], 0, [], false, [];
    }

    /** `apppack_init` before any further download. The record of files and reports starts again, because the
        directory of the old files is removed; the open handle, the digest and the name buffer are left as they are. */
    method Restart()
      requires Shape()
      modifies this
      ensures Shape() && State() == Init(old(headerSize), old(name), old(fed), old(appOffset), old(open))
      ensures Valid()
    {
      hide Le32, Front, Inv;
      ResetCounters();
      files, verdicts := [], [];
      NothingIn(header);
      NothingIn(fileHeader);
    }

    method ResetCounters()
      modifies `packSize, `fileOffset, `headerOffset, `fileCount, `done, `error, `fault
      ensures packSize == fileOffset == headerOffset == fileCount == 0 && !done && !error && !fault
    {
      packSize, fileOffset, headerOffset, fileCount := 0, 0, 0, 0;
      done, error, fault := false, false, false;
    }

    /** `write_app_pack`. */
    method WriteAppPack(size: nat, offset: nat, buf: Bytes, complete: int)
      modifies `files, `open, `verdicts
      ensures Out() == WritePack(old(Out()), name, size, offset, buf, complete)
    {
      var filename := NameString();
      if offset == 0 {
        files := files + [File(filename, [])];
        open := true;
      }
      if open {
        files := AppendLast(files, buf);
        if offset + |buf| == size {
          open := false;
        }
      }
      if complete != 0 {
        open := false;
        verdicts := verdicts + [(filename, complete)];
      }
    }

    /** The bytes of the name buffer up to its first zero byte. */
    method NameString() returns (s: Bytes)
      ensures s == CString(name)
    {
      s := [];
      var i := 0;
      assert s + CString(name[0..]) == CString(name);
      while i < |name| && name[i] != 0
        invariant 0 <= i <= |name| && s + CString(name[i..]) == CString(name)
      {
        assert name[i..][1..] == name[i + 1..];
        assert s + CString(name[i..]) == s + [name[i]] + CString(name[i + 1..]);
        s := s + [name[i]];
        i := i + 1;
      }
      assert s + [] == s;
    }

    /** The first half of `jspackoutput`: digest and data callback. */
    method EmitPart(size: nat, offset: nat, buf: Bytes)
      modifies `fed, `appOffset, `files, `open, `verdicts
      ensures Out() == Emit(old(Out()), name, size, offset, buf)
    {
      hide WritePack, CString;
      if offset == 0 {
        fed := [];
        appOffset := 0;
      }
      fed := fed + buf;
      if |buf| > 0 {
        WriteAppPack(size, appOffset, buf, 0);
        appOffset := appOffset + |buf|;
      }
    }

    ghost predicate InFile()
      reads this
    {
      Shape() && headerOffset >= FILE_HEADER
    }

    /** The second half of `jspackoutput`: at the end of a file its digest is checked and reported. */
    method FinishFile(size: nat)
      requires InFile() && size == FileSize(State())
      modifies `fileCount, `done, `error, `files, `open, `verdicts
      ensures State() == CheckFile(digest, old(State()))
    {
      hide EndOfFile, Le32, Front;
      if size == appOffset {
        EndFile();
      }
    }

    method EndFile()
      requires InFile()
      modifies `fileCount, `done, `error, `files, `open, `verdicts
      ensures State() == EndOfFile(digest, old(State()))
    {
      hide WritePack, EndOfFile, Front;
      EndIs(digest, State());
      var complete := Compare();
      CountDown(complete == 1);
      WriteAppPack(appOffset, appOffset, [], complete);
    }

    /** One file less to come; the last one and a failed one end the parse. */
    method CountDown(good: bool)
      modifies `fileCount, `done, `error
      ensures fileCount == old(fileCount) - 1 && error == (old(error) || !good)
      ensures done == (old(done) || old(fileCount) == 1 || !good)
    {
      fileCount := fileCount - 1;
      if fileCount == 0 {
        done := true;
      }
      if !good {
        error := true;
        done := true;
      }
    }

    /** The digest of what was fed against the one in the file header. */
    method Compare() returns (complete: int)
      requires InFile()
      ensures complete == if digest(fed) == Md5(State()) then 1 else -1
    {
      hide Le32;
      assert fileHeader[..FILE_HEADER][8..24] == fileHeader[8..24];
      complete := if digest(fed) == fileHeader[8..24] then 1 else -1;
    }

    ghost predicate Running()
      reads this, header, fileHeader
    {
      Valid() && !BadSize(State())
    }

    method TakePackHeader(p: Bytes) returns (n: nat)
      requires Running() && PhaseOf(State()) == PackHeader
      modifies this, header
      ensures Shape() && n == Min(Wanted(old(State())), |p|)
      ensures State() == Step(digest, old(State()), p[..n])
    {
      hide DataStep, Le32;
      n := PACK_HEADER_SIZE - packSize;
      if n > |p| {
        n := |p|;
      }
      CopyInto(header, packSize, p[..n]);
      packSize := packSize + n;
    }

    method TakeFirstHeader(p: Bytes) returns (n: nat)
      requires Running() && PhaseOf(State()) == FirstHeader
      modifies this, fileHeader
      ensures Shape() && n == Min(Wanted(old(State())), |p|)
      ensures State() == Step(digest, old(State()), p[..n])
    {
      hide BadSize, DataStep, Le32, Le16, HeaderSize, FileSize;
      assert header[..PACK_HEADER_SIZE] == header[..];
      fileCount := Le16(header[..], 0);
      n := FILE_HEADER;
      if n > |p| {
        n := |p|;
      }
      CopyInto(fileHeader, 0, p[..n]);
      headerOffset := n;
      packSize := packSize + n;
      fileOffset := 0;
    }

    method TakeFileHeader(p: Bytes) returns (n: nat)
      requires Running() && PhaseOf(State()) == FileHeader
      modifies this, fileHeader
      ensures Shape() && n == Min(Wanted(old(State())), |p|)
      ensures State() == Step(digest, old(State()), p[..n])
    {
      hide DataStep, Le32, Le16;
      n := FILE_HEADER - headerOffset;
      if n > |p| {
        n := |p|;
      }
      CopyInto(fileHeader, headerOffset, p[..n]);
      headerOffset := headerOffset + n;
      packSize := packSize + n;
      fileOffset := 0;
    }

    method TakeNameStart(p: Bytes) returns (n: nat)
      requires Running() && PhaseOf(State()) == NameStart
      modifies this
      ensures Shape() && n == Min(Wanted(old(State())), |p|)
      ensures State() == Step(digest, old(State()), p[..n])
    {
      hide DataStep, Le32, Le16;
      assert fileHeader[..FILE_HEADER] == fileHeader[..];
      headerSize := Le32(fileHeader[..], 0);
      n := headerSize - FILE_HEADER;
      if n > |p| {
        n := |p|;
      }
      name := p[..n];
      headerOffset := headerOffset + n;
      packSize := packSize + n;
    }

    method TakeNameRest(p: Bytes) returns (n: nat)
      requires Running() && PhaseOf(State()) == NameRest
      modifies this
      ensures Shape() && n == Min(Wanted(old(State())), |p|)
      ensures State() == Step(digest, old(State()), p[..n])
    {
      hide DataStep, Le32, Le16;
      n := headerSize - headerOffset;
      if n > |p| {
        n := |p|;
      }
      name := name[..headerOffset - FILE_HEADER] + p[..n];
      headerOffset := headerOffset + n;
      packSize := packSize + n;
    }

    method PutData(size: nat, part: Bytes)
      requires InFile() && size == FileSize(State())
      modifies `fed, `appOffset, `files, `open, `verdicts, `packSize, `fileOffset
      ensures packSize >= old(packSize) && fileOffset == old(fileOffset) + |part|
      ensures old(packSize) >= PACK_HEADER_SIZE ==> State() == PutPart(old(State()), part)
    {
      hide Emit, CString, Le32;
      EmitPart(size, fileOffset, part);
      packSize := packSize + |part|;
      fileOffset := fileOffset + |part|;
    }

    method TakeData(p: Bytes) returns (n: nat)
      requires Running() && PhaseOf(State()) == Data
      modifies this
      ensures Shape() && n == Min(Wanted(old(State())), |p|)
      ensures State() == Step(digest, old(State()), p[..n])
    {
      hide Step, Wanted, DataStep, Le32, Front, BadSize, PutPart, CheckFile, NextFile;
      InData(digest, State());
      var size;
      n, size := DataLength(p);
      PutData(size, p[..n]);
      FinishFile(size);
      NextIfEnded(size);
    }

    /** How much of a file the step takes: what is there, up to the end of the file and one block. */
    method DataLength(p: Bytes) returns (n: nat, size: nat)
      requires Running() && PhaseOf(State()) == Data
      ensures n == Min(Wanted(State()), |p|) && size == FileSize(State())
    {
      hide Le32;
      assert fileHeader[..FILE_HEADER] == fileHeader[..];
      size := Le32(fileHeader[..], 4);
      n := if fileOffset == 0 then size else size - fileOffset;
      if n > |p| {
        n := |p|;
      }
      if n > BLOCK_SIZE {
        n := BLOCK_SIZE;
      }
    }

    /** After the last byte of a file the next header is awaited. */
    method NextIfEnded(size: nat)
      requires InFile() && size == FileSize(State())
      modifies `headerOffset, `fileOffset, `headerSize
      ensures State() == NextFile(old(State()))
    {
      hide Le32;
      if fileOffset == size {
        headerOffset := 0;
        fileOffset := 0;
        headerSize := FILE_HEADER + 1;
      }
    }

    /** `apppack_update`. */
    method Update(p: Bytes) returns (code: int)
      requires Valid()
      modifies this, header, fileHeader
      ensures Valid()
      ensures State() == AppPack.Update(digest, old(State()), p) && (!fault ==> code == ReturnCode(State()))
      decreases |p|, PhaseOf(State()) == Data
    {
      hide Step, BadSize, Wanted;
      if error {
        return -1;
      }
      if |p| < 1 || done || fault {
        return 0;
      }
      var bad := SizeFault();
      if bad {
        fault := true;
        return 0;
      }
      ghost var before := State();
      var n;
      if packSize < PACK_HEADER_SIZE {
        n := TakePackHeader(p);
      } else if packSize == PACK_HEADER_SIZE {
        n := TakeFirstHeader(p);
      } else if headerOffset < FILE_HEADER {
        n := TakeFileHeader(p);
      } else if headerOffset == FILE_HEADER {
        n := TakeNameStart(p);
      } else if headerOffset < headerSize {
        n := TakeNameRest(p);
      } else {
        n := TakeData(p);
      }
      StepInv(digest, before, p[..n]);
      UpdateTakes(digest, before, p);
      code := Update(p[n..]);
    }

    /** A download, chunk by chunk: after a whole pack its files are written in order up to the first that fails its
        check, each is reported once, no handle is open, and the last call has returned -1 exactly if some digest does
        not match. */
    method Receive(chunks: seq<Bytes>, ghost es: seq<Entry>, ghost version: nat, ghost size: nat, ghost extra: Bytes)
      returns (code: int)
      requires Valid() && packSize == 0 && fileOffset == 0 && !error && !done && !fault
      requires 1 <= |es| < 0x1_0000 && version < 0x1_0000 && size < 0x1_0000_0000 && forall e :: e in es ==> WellFormed(e)
      requires Joined(chunks) == PackHeaderOf(|es|, version, size) + Body(es) + extra
      modifies this, header, fileHeader
      ensures Valid() && done && !open
      ensures var m := Accepted(digest, es);
        files == old(files) + FilesOf(es[..m]) && verdicts == old(verdicts) + ReportsOf(digest, es[..m])
      ensures code == if forall i :: 0 <= i < |es| ==> digest(es[i].content) == es[i].md5 then 0 else -1
    {
      hide Inv, AppPack.Update, Joined, PackHeaderOf, Body, WellFormed, Ready, Feed;
      ghost var before := State();
      PackDelivered(digest, before, es, version, size, extra, chunks);
      code := 0;
      FeedNone(digest, before);
      for i := 0 to |chunks|
        invariant Valid() && State() == Feed(digest, before, chunks[..i])
        invariant i > 0 && !fault ==> code == ReturnCode(State())
      {
        FeedLast(digest, before, chunks, i);
        code := Update(chunks[i]);
      }
      assert chunks[..|chunks|] == chunks;
      SomeChunk(chunks, |es|, version, size, Body(es), extra);
    }

    /** Where the model stops; the program has no such test. */
    method SizeFault() returns (bad: bool)
      requires Valid()
      ensures bad == BadSize(State())
    {
      assert headerOffset >= FILE_HEADER ==> fileHeader[..FILE_HEADER] == fileHeader[..];
      if packSize <= PACK_HEADER_SIZE || headerOffset < FILE_HEADER {
        return false;
      }
      if headerOffset == FILE_HEADER {
        var size := Le32(fileHeader[..], 0);
        return !(FILE_HEADER < size < FILE_HEADER + INT_LIMIT);
      }
      bad := headerOffset >= headerSize && Le32(fileHeader[..], 4) >= INT_LIMIT;
    }
  }

  lemma InData(h: Digest, s: Parser)
    requires Inv(s) && PhaseOf(s) == Data
    ensures s.headerOffset >= FILE_HEADER && s.packSize > PACK_HEADER_SIZE && |s.fileHeader| == FILE_HEADER
    ensures forall part :: Step(h, s, part) == NextFile(CheckFile(h, PutPart(s, part)))
  {
    hide Le32, NextFile, CheckFile, PutPart;
  }

  /** The end of a file, variable by variable. */
  lemma EndIs(h: Digest, s: Parser)
    requires |s.fileHeader| == FILE_HEADER
    ensures var good := h(s.out.fed) == Md5(s);
      EndOfFile(h, s) ==
        Parser(s.packSize, s.header, s.fileHeader, s.headerOffset, s.headerSize, s.name, s.fileOffset, s.fileCount - 1,
               s.done || s.fileCount == 1 || !good, s.error || !good, s.fault,
               WritePack(s.out, s.name, s.out.appOffset, s.out.appOffset, [], if good then 1 else -1))
  {
    hide WritePack, Md5;
  }

  lemma FeedNone(h: Digest, s: Parser)
    requires Inv(s)
    ensures Feed(h, s, []) == s
  {
  }

  lemma {:induction false} JoinedLast(chunks: seq<Bytes>, last: Bytes)
    ensures Joined(chunks + [last]) == Joined(chunks) + last
  {
    if chunks == [] {
      assert (chunks + [last])[1..] == [];
    } else {
      assert (chunks + [last])[1..] == chunks[1..] + [last];
      JoinedLast(chunks[1..], last);
    }
  }

  lemma FeedMore(h: Digest, s: Parser, a: seq<Bytes>, last: Bytes)
    requires Inv(s)
    ensures Feed(h, s, a + [last]) == AppPack.Update(h, Feed(h, s, a), last)
  {
    hide Inv, AppPack.Update, Feed, Joined;
    AnyChunks(h, s, a);
    AnyChunks(h, s, a + [last]);
    JoinedLast(a, last);
    ChunkIndependence(h, s, Joined(a), last);
  }

  lemma FeedLast(h: Digest, s: Parser, chunks: seq<Bytes>, i: nat)
    requires Inv(s) && i < |chunks|
    ensures Feed(h, s, chunks[..i + 1]) == AppPack.Update(h, Feed(h, s, chunks[..i]), chunks[i])
  {
    hide Inv, AppPack.Update, Feed;
    OneMore(chunks, i);
    FeedMore(h, s, chunks[..i], chunks[i]);
  }

  lemma OneMore<T>(s: seq<T>, i: nat)
    requires i < |s|
    ensures s[..i + 1] == s[..i] + [s[i]]
  {
  }

  lemma SomeChunk(chunks: seq<Bytes>, n: nat, version: nat, size: nat, body: Bytes, extra: Bytes)
    requires n < 0x1_0000 && version < 0x1_0000 && size < 0x1_0000_0000
    requires Joined(chunks) == PackHeaderOf(n, version, size) + body + extra
    ensures chunks != []
  {
    hide PackHeaderOf;
  }
}
