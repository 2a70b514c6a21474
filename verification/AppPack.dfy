/** The streaming parser of application packs (services/app_mgr/app_mgr.c). */
module AppPack {
  newtype Byte = x: int | 0 <= x < 256
  type Bytes = seq<Byte>

  const PACK_HEADER_SIZE: nat := 8
  const FILE_HEADER: nat := 24
  const BLOCK_SIZE: nat := 2048
  const INT_LIMIT: nat := 0x8000_0000

  /** A file as it ends up in the file system. */
  datatype File = File(name: Bytes, content: Bytes)

  /** The output side: the running digest (as the bytes fed to it), the offset in the current file, the files written
      so far (the last one through the open handle, if it is open) and the reports of complete files. */
  datatype Output = Output(fed: Bytes, appOffset: nat, files: seq<File>, open: bool, verdicts: seq<(Bytes, int)>)

  /** The static variables of the parser. `header` and `fileHeader` hold the bytes received so far of the structure
      being filled; `fault` marks sizes outside the range the arithmetic of the program is made for. */
  datatype Parser = Parser(
    packSize: nat, header: Bytes, fileHeader: Bytes, headerOffset: nat, headerSize: nat, name: Bytes,
    fileOffset: nat, fileCount: int, done: bool, error: bool, fault: bool, out: Output)

  type Digest = Bytes -> Bytes

  function Le16(b: Bytes, i: nat): nat
    requires i + 2 <= |b|
  {
    b[i] as nat + 256 * b[i + 1] as nat
  }

  function Le32(b: Bytes, i: nat): nat
    requires i + 4 <= |b|
  {
    Le16(b, i) + 0x1_0000 * Le16(b, i + 2)
  }

  /** A C string: the bytes before the first zero byte. */
  function CString(s: Bytes): Bytes {
    if s == [] || s[0] == 0 then [] else [s[0]] + CString(s[1..])
  }

  /** It has no zero byte, and ends with the text or before one. */
  lemma {:induction false} CStringIs(s: Bytes)
    ensures var r := CString(s); 0 !in r && r <= s && (|r| < |s| ==> s[|r|] == 0)
  {
    if s != [] && s[0] != 0 {
      CStringIs(s[1..]);
    }
  }

  function Min(a: nat, b: nat): nat {
    if a < b then a else b
  }

  // ---------------------------------------------------------------------------------------------
  // Output

  /** `write_app_pack`, the callback. */
  function WritePack(o: Output, name: Bytes, size: nat, offset: nat, buf: Bytes, complete: int): Output {
    Verdict(Write(Open(o, name, offset), size, offset, buf), name, complete)
  }

  function Open(o: Output, name: Bytes, offset: nat): Output {
    if offset == 0 then o.(files := o.files + [File(CString(name), [])], open := true) else o
  }

  function Write(o: Output, size: nat, offset: nat, buf: Bytes): Output {
    if !o.open then o else o.(files := AppendLast(o.files, buf), open := offset + |buf| != size)
  }

  function AppendLast(files: seq<File>, buf: Bytes): seq<File> {
    if files == [] then []
    else files[..|files| - 1] + [files[|files| - 1].(content := files[|files| - 1].content + buf)]
  }

  function Verdict(o: Output, name: Bytes, complete: int): Output {
    if complete == 0 then o else o.(open := false, verdicts := o.verdicts + [(CString(name), complete)])
  }

  // ---------------------------------------------------------------------------------------------
  // One step

  datatype Phase = PackHeader | FirstHeader | FileHeader | NameStart | NameRest | Data

  function PhaseOf(s: Parser): Phase {
    if s.packSize < PACK_HEADER_SIZE then PackHeader
    else if s.packSize == PACK_HEADER_SIZE then FirstHeader
    else if s.headerOffset < FILE_HEADER then FileHeader
    else if s.headerOffset == FILE_HEADER then NameStart
    else if s.headerOffset < s.headerSize then NameRest
    else Data
  }

  /** Fields of the file header, once it is complete. */
  function HeaderSize(s: Parser): nat
    requires |s.fileHeader| == FILE_HEADER
  {
    Le32(s.fileHeader, 0)
  }

  function FileSize(s: Parser): nat
    requires |s.fileHeader| == FILE_HEADER
  {
    Le32(s.fileHeader, 4)
  }

  function Md5(s: Parser): Bytes
    requires |s.fileHeader| == FILE_HEADER
  {
    s.fileHeader[8..24]
  }

  /** What holds of the static variables from start-up on. */
  ghost predicate Inv(s: Parser) {
    && |s.header| == Min(s.packSize, PACK_HEADER_SIZE)
    && |s.fileHeader| == Min(s.headerOffset, FILE_HEADER)
    && (s.packSize <= PACK_HEADER_SIZE ==> s.headerOffset == 0)
    && (s.headerOffset > FILE_HEADER ==>
          && s.headerSize == HeaderSize(s) && FILE_HEADER < s.headerSize < FILE_HEADER + INT_LIMIT
          && s.headerOffset <= s.headerSize && |s.name| == s.headerOffset - FILE_HEADER)
    && (s.fileOffset > 0 ==>
          && s.headerOffset > FILE_HEADER && s.headerOffset == s.headerSize && FileSize(s) < INT_LIMIT
          && s.fileOffset < FileSize(s) && s.out.appOffset == s.fileOffset && s.out.open && s.out.files != [])
  }

  /** Sizes the program cannot handle, on which the model stops with its fault flag set: the length it computes from
      them is zero for ever or negative (module AppPackProgress says which of the two, and when). */
  predicate BadSize(s: Parser)
    requires Inv(s)
  {
    (PhaseOf(s) == NameStart && !(FILE_HEADER < HeaderSize(s) < FILE_HEADER + INT_LIMIT)) || (PhaseOf(s) == Data && FileSize(s) >= INT_LIMIT)
  }

  /** How many bytes the step at `s` takes if they are there. */
  function Wanted(s: Parser): nat
    requires Inv(s) && !BadSize(s)
  {
    match PhaseOf(s)
    case PackHeader => PACK_HEADER_SIZE - s.packSize
    case FirstHeader => FILE_HEADER
    case FileHeader => FILE_HEADER - s.headerOffset
    case NameStart => HeaderSize(s) - FILE_HEADER
    case NameRest => s.headerSize - s.headerOffset
    case Data => Min(FileSize(s) - s.fileOffset, BLOCK_SIZE)
  }

  /** A block of content is never longer than 2048 bytes, nor than the rest of its file. */
  lemma BlockAtMost(s: Parser)
    requires Inv(s) && !BadSize(s) && PhaseOf(s) == Data
    ensures Wanted(s) <= 2048 && (Wanted(s) == 2048 || Wanted(s) == FileSize(s) - s.fileOffset)
  {
    hide Le32;
  }

  /** The digest and the data callback of `jspackoutput`. */
  function Emit(o: Output, name: Bytes, size: nat, offset: nat, part: Bytes): Output {
    var o1 := if offset == 0 then o.(fed := [], appOffset := 0) else o;
    var o2 := o1.(fed := o1.fed + part);
    if part == [] then o2
    else WritePack(o2, name, size, o2.appOffset, part, 0).(appOffset := o2.appOffset + |part|)
  }

  /** The end of a file: the digest is compared and reported, and the file count goes down. */
  function EndOfFile(h: Digest, s: Parser): Parser
    requires |s.fileHeader| == FILE_HEADER
  {
    var match_ := h(s.out.fed) == Md5(s);
    var o := WritePack(s.out, s.name, s.out.appOffset, s.out.appOffset, [], if match_ then 1 else -1);
    s.(fileCount := s.fileCount - 1, out := o, error := s.error || !match_,
       done := s.done || s.fileCount == 1 || !match_)
  }

  function PutPart(s: Parser, part: Bytes): (t: Parser)
    requires |s.fileHeader| == FILE_HEADER
    ensures |t.fileHeader| == FILE_HEADER
  {
    s.(out := Emit(s.out, s.name, FileSize(s), s.fileOffset, part), packSize := s.packSize + |part|,
       fileOffset := s.fileOffset + |part|)
  }

  function CheckFile(h: Digest, s: Parser): (t: Parser)
    requires |s.fileHeader| == FILE_HEADER
    ensures |t.fileHeader| == FILE_HEADER
  {
    if s.out.appOffset == FileSize(s) then EndOfFile(h, s) else s
  }

  /** After the last byte of a file the next header is awaited. */
  function NextFile(s: Parser): Parser
    requires |s.fileHeader| == FILE_HEADER
  {
    if s.fileOffset == FileSize(s)
    then s.(headerOffset := 0, fileHeader := [], fileOffset := 0, headerSize := FILE_HEADER + 1)
    else s
  }

  function DataStep(h: Digest, s: Parser, part: Bytes): Parser
    requires |s.fileHeader| == FILE_HEADER
  {
    NextFile(CheckFile(h, PutPart(s, part)))
  }

  /** One step of the parser, taking `part`. */
  function Step(h: Digest, s: Parser, part: Bytes): Parser
    requires Inv(s)
  {
    var more := s.packSize + |part|;
    match PhaseOf(s)
    case PackHeader => s.(header := s.header + part, packSize := more)
    case FirstHeader =>
      s.(fileCount := Le16(s.header, 0), fileHeader := part, headerOffset := |part|, packSize := more, fileOffset := 0)
    case FileHeader =>
      s.(fileHeader := s.fileHeader + part, headerOffset := s.headerOffset + |part|, packSize := more, fileOffset := 0)
    case NameStart =>
      s.(headerSize := HeaderSize(s), name := part, headerOffset := s.headerOffset + |part|, packSize := more)
    case NameRest =>
      s.(name := s.name + part, headerOffset := s.headerOffset + |part|, packSize := more)
    case Data => DataStep(h, s, part)
  }

  /** What a data step leaves: the file goes on, or it has ended and its handle is closed. */
  lemma DataStepIs(h: Digest, s: Parser, part: Bytes)
    requires Inv(s) && !BadSize(s) && PhaseOf(s) == Data && |part| <= FileSize(s) - s.fileOffset
    requires part == [] ==> FileSize(s) == 0
    ensures var t, end := DataStep(h, s, part), s.fileOffset + |part|;
      && (end < FileSize(s) ==>
            && t == s.(out := Emit(s.out, s.name, FileSize(s), s.fileOffset, part), packSize := s.packSize + |part|,
                       fileOffset := end)
            && t.out.appOffset == end && t.out.open && t.out.files != [])
      && (end == FileSize(s) ==>
            && !t.out.open && t.fileOffset == 0 && t.headerOffset == 0 && t.fileHeader == []
            && t.header == s.header && t.packSize >= s.packSize && t.fault == s.fault)
  {
    hide Emit, Le32;
    EmitOpen(s.out, s.name, FileSize(s), s.fileOffset, part);
  }

  lemma EmitOpen(o: Output, name: Bytes, size: nat, offset: nat, part: Bytes)
    requires offset > 0 ==> o.appOffset == offset && o.open && o.files != []
    requires offset + |part| <= size && (part == [] ==> size == 0)
    ensures var t := Emit(o, name, size, offset, part);
      && t.appOffset == offset + |part|
      && (part != [] ==> t.files != [] && t.open == (offset + |part| != size))
  {
    hide CString;
  }

  lemma StepInv(h: Digest, s: Parser, part: Bytes)
    requires Inv(s) && !BadSize(s) && |part| <= Wanted(s) && (part == [] ==> Wanted(s) == 0)
    ensures Inv(Step(h, s, part))
    ensures part == [] ==> PhaseOf(s) == Data && PhaseOf(Step(h, s, part)) == FileHeader
    ensures Step(h, s, part).fault == s.fault
  {
    hide DataStep, Le32, Le16;
    if PhaseOf(s) == Data {
      DataStepIs(h, s, part);
    }
  }

  /** `apppack_update`. */
  function Update(h: Digest, s: Parser, p: Bytes): (t: Parser)
    requires Inv(s)
    ensures Inv(t)
    decreases |p|, PhaseOf(s) == Data
  {
    if s.error || s.fault || s.done || p == [] then s
    else if BadSize(s) then s.(fault := true)
    else
      var n := Min(Wanted(s), |p|);
      StepInv(h, s, p[..n]);
      Update(h, Step(h, s, p[..n]), p[n..])
  }

  /** The return code: -1 once a file has failed its check. */
  function ReturnCode(s: Parser): int {
    if s.error then -1 else 0
  }

  /** `apppack_init` on whatever an earlier download left behind in the variables it does not reset: among them the
      handle of an aborted download, which stays open until the first file of the new one takes its place. The
      directory of the old files is removed, so the files written begin anew. */
  function Init(headerSize: nat, name: Bytes, fed: Bytes, appOffset: nat, open: bool): (s: Parser)
    ensures Inv(s)
  {
    Parser(0, [], [], 0, headerSize, name, 0, 0, false, false, false, Output(fed, appOffset, [], open, []))
  }
}
