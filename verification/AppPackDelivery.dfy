/** What a well-formed pack delivers, however it is cut into chunks (services/app_mgr/app_mgr.c). */
module AppPackDelivery {
  import opened AppPack
  import opened AppPackChunks

  /** One file of a pack. */
  datatype Entry = Entry(name: Bytes, content: Bytes, md5: Bytes)

  predicate WellFormed(e: Entry) {
    && 1 <= |e.name| < 0x8000_0000
    && 1 <= |e.content| < 0x8000_0000 && |e.md5| == 16
  }

  function ToLe16(n: nat): (r: Bytes)
    requires n < 0x1_0000
    ensures |r| == 2 && Le16(r, 0) == n
  {
    [(n % 256) as Byte, (n / 256) as Byte]
  }

  function ToLe32(n: nat): (r: Bytes)
    requires n < 0x1_0000_0000
    ensures |r| == 4 && Le32(r, 0) == n
  {
    var lo, hi := ToLe16(n % 0x1_0000), ToLe16(n / 0x1_0000);
    var r := lo + hi;
    assert Le16(r, 0) == Le16(lo, 0) && Le16(r, 2) == Le16(hi, 0);
    r
  }

  function EntryHeader(e: Entry): (r: Bytes)
    requires WellFormed(e)
    ensures |r| == FILE_HEADER
  {
    ToLe32(FILE_HEADER + |e.name|) + ToLe32(|e.content|) + e.md5
  }

  function EncodeEntry(e: Entry): Bytes
    requires WellFormed(e)
  {
    EntryHeader(e) + e.name + e.content
  }

  function Body(es: seq<Entry>): Bytes
    requires forall e :: e in es ==> WellFormed(e)
  {
    if es == [] then [] else EncodeEntry(es[0]) + Body(es[1..])
  }

  function PackHeaderOf(n: nat, version: nat, size: nat): (r: Bytes)
    requires n < 0x1_0000 && version < 0x1_0000 && size < 0x1_0000_0000
    ensures |r| == PACK_HEADER_SIZE
  {
    ToLe16(n) + ToLe16(version) + ToLe32(size)
  }

  lemma HeaderFields(e: Entry)
    requires WellFormed(e)
    ensures var r := EntryHeader(e);
      Le32(r, 0) == FILE_HEADER + |e.name| && Le32(r, 4) == |e.content| && r[8..24] == e.md5
  {
    var a, b, r := ToLe32(FILE_HEADER + |e.name|), ToLe32(|e.content|), EntryHeader(e);
    assert r[0] == a[0] && r[1] == a[1] && r[2] == a[2] && r[3] == a[3];
    assert r[4] == b[0] && r[5] == b[1] && r[6] == b[2] && r[7] == b[3];
  }

  // ---------------------------------------------------------------------------------------------
  // One file

  /** The next byte starts a file header, and `k` files are still to come. */
  ghost predicate Ready(s: Parser, k: int) {
    && Inv(s) && !Stopped(s) && s.headerOffset == 0 && s.fileOffset == 0 && s.packSize >= PACK_HEADER_SIZE
    && k == if s.packSize == PACK_HEADER_SIZE then Le16(s.header, 0) else s.fileCount
  }

  /** What the file at hand will be. */
  ghost predicate Named(s: Parser, k: nat, e: Entry) {
    && WellFormed(e) && Inv(s) && !Stopped(s) && s.packSize > PACK_HEADER_SIZE && s.fileCount == k && s.fileOffset == 0
    && s.headerOffset >= FILE_HEADER && s.fileHeader == EntryHeader(e)
  }

  lemma HeaderFed(h: Digest, s: Parser, k: nat, e: Entry)
    requires Ready(s, k) && WellFormed(e)
    ensures var t := Update(h, s, EntryHeader(e));
      Named(t, k, e) && t.headerOffset == FILE_HEADER && t.out == s.out
  {
    hide Le32, ToLe32, EntryHeader;
    var p := EntryHeader(e);
    UpdateTakes(h, s, p);
    assert p[..24] == p && p[24..] == [];
    assert s.fileHeader + p == p;
    NothingFed(h, Step(h, s, p));
  }

  lemma NameFed(h: Digest, s: Parser, k: nat, e: Entry)
    requires Named(s, k, e) && s.headerOffset == FILE_HEADER
    ensures var t := Update(h, s, e.name);
      Named(t, k, e) && t.headerOffset == t.headerSize > FILE_HEADER && t.out == s.out && t.name == e.name
  {
    hide Le32, ToLe32, EntryHeader;
    HeaderFields(e);
    var p := e.name;
    UpdateTakes(h, s, p);
    assert p[..|p|] == p && p[|p|..] == [];
    NothingFed(h, Step(h, s, p));
  }

  /** The blocks of a file come to one step over all of its remaining content. */
  lemma {:induction false} ContentFed(h: Digest, s: Parser, c: Bytes)
    requires Inv(s) && !Stopped(s) && !BadSize(s) && PhaseOf(s) == Data
    requires c != [] && |c| == FileSize(s) - s.fileOffset
    ensures Inv(DataStep(h, s, c)) && Update(h, s, c) == DataStep(h, s, c)
    decreases |c|
  {
    hide Le32, Emit, EndOfFile;
    var n := Min(Wanted(s), |c|);
    UpdateTakes(h, s, c);
    DataStepIs(h, s, c[..n]);
    if n == |c| {
      assert c[..n] == c && c[n..] == [];
      NothingFed(h, DataStep(h, s, c));
    } else {
      ContentFed(h, DataStep(h, s, c[..n]), c[n..]);
      DataTwice(h, s, c[..n], c[n..]);
      assert c[..n] + c[n..] == c;
    }
  }

  /** Whether the digest of the content is the one the header announces. */
  predicate Matches(h: Digest, e: Entry) {
    h(e.content) == e.md5
  }

  function Written(e: Entry): File {
    File(CString(e.name), e.content)
  }

  function Report(h: Digest, e: Entry): (Bytes, int) {
    (CString(e.name), if Matches(h, e) then 1 else -1)
  }

  /** A whole file: it is written and closed, and its check is reported; a failed check or the last file ends the
      parse. */
  ghost predicate Delivered(h: Digest, s: Parser, t: Parser, k: nat, e: Entry) {
    && t.out.files == s.out.files + [Written(e)] && t.out.verdicts == s.out.verdicts + [Report(h, e)]
    && !t.out.open && !t.fault
    && t.error == !Matches(h, e) && t.done == (k == 1 || !Matches(h, e))
    && (!t.done ==> Ready(t, k - 1))
  }

  lemma EmitWhole(o: Output, name: Bytes, c: Bytes)
    requires c != []
    ensures Emit(o, name, |c|, 0, c) ==
      Output(c, |c|, o.files + [File(CString(name), c)], false, o.verdicts)
  {
    hide CString;
    var files := o.files + [File(CString(name), [])];
    assert files[..|files| - 1] == o.files && [] + c == c;
  }

  lemma ContentDelivers(h: Digest, s: Parser, k: nat, e: Entry)
    requires Named(s, k, e) && s.headerOffset == s.headerSize > FILE_HEADER && s.name == e.name && k >= 1
    ensures Delivered(h, s, Update(h, s, e.content), k, e)
  {
    hide Le32, ToLe32, EntryHeader, CString, Emit;
    HeaderFields(e);
    ContentFed(h, s, e.content);
    EmitWhole(s.out, e.name, e.content);
  }

  lemma EntryDelivers(h: Digest, s: Parser, k: nat, e: Entry)
    requires Ready(s, k) && WellFormed(e) && k >= 1
    ensures Delivered(h, s, Update(h, s, EncodeEntry(e)), k, e)
  {
    hide Inv, Update, EntryHeader;
    HeaderFed(h, s, k, e);
    var t := Update(h, s, EntryHeader(e));
    NameFed(h, t, k, e);
    ContentDelivers(h, Update(h, t, e.name), k, e);
    ChunkIndependence(h, s, EntryHeader(e), e.name);
    ChunkIndependence(h, s, EntryHeader(e) + e.name, e.content);
  }

  // ---------------------------------------------------------------------------------------------
  // Whole packs

  /** How many files are written: all up to and including the first whose check fails. */
  function Accepted(h: Digest, es: seq<Entry>): (n: nat)
    ensures n <= |es|
  {
    if es == [] then 0 else if !Matches(h, es[0]) then 1 else 1 + Accepted(h, es[1..])
  }

  function FilesOf(es: seq<Entry>): (r: seq<File>)
    ensures |r| == |es|
  {
    if es == [] then [] else [Written(es[0])] + FilesOf(es[1..])
  }

  function ReportsOf(h: Digest, es: seq<Entry>): (r: seq<(Bytes, int)>)
    ensures |r| == |es|
  {
    if es == [] then [] else [Report(h, es[0])] + ReportsOf(h, es[1..])
  }

  predicate AllMatch(h: Digest, es: seq<Entry>) {
    forall i :: 0 <= i < |es| ==> Matches(h, es[i])
  }

  ghost predicate DeliveredAll(h: Digest, s: Parser, t: Parser, k: nat, es: seq<Entry>) {
    var m := Accepted(h, es);
    && t.out.files == s.out.files + FilesOf(es[..m])
    && t.out.verdicts == s.out.verdicts + ReportsOf(h, es[..m])
    && !t.out.open && !t.fault
    && t.error == !AllMatch(h, es) && t.done == (k == |es| || !AllMatch(h, es))
    && (!t.done ==> Ready(t, k - |es|))
  }

  lemma StoppedStays(h: Digest, s: Parser, p: Bytes)
    requires Inv(s) && Stopped(s)
    ensures Update(h, s, p) == s
  {
  }

  /** At the end of each file: the files so far are written and closed, and every one of them is reported. */
  lemma {:induction false} FilesDelivered(h: Digest, s: Parser, k: nat, es: seq<Entry>)
    requires Ready(s, k) && 1 <= |es| <= k && forall e :: e in es ==> WellFormed(e)
    ensures DeliveredAll(h, s, Update(h, s, Body(es)), k, es)
    decreases |es|
  {
    hide Inv, Update, EncodeEntry, WellFormed, Matches, Written, Report;
    var t := Update(h, s, EncodeEntry(es[0]));
    EntryDelivers(h, s, k, es[0]);
    ChunkIndependence(h, s, EncodeEntry(es[0]), Body(es[1..]));
    if !Matches(h, es[0]) || |es| == 1 {
      FirstDelivered(h, s, t, k, es);
      if |es| == 1 {
        NothingFed(h, t);
      } else {
        StoppedStays(h, t, Body(es[1..]));
      }
    } else {
      FilesDelivered(h, t, k - 1, es[1..]);
      MoreDelivered(h, s, t, Update(h, t, Body(es[1..])), k, es);
    }
  }

  lemma FirstDelivered(h: Digest, s: Parser, t: Parser, k: nat, es: seq<Entry>)
    requires 1 <= |es| <= k && Delivered(h, s, t, k, es[0]) && (!Matches(h, es[0]) || |es| == 1)
    ensures DeliveredAll(h, s, t, k, es)
  {
    hide Inv, Ready, Matches, Written, Report;
    assert es[..1] == [es[0]] && [es[0]][1..] == [];
    assert AllMatch(h, es) == Matches(h, es[0]);
    assert Accepted(h, es) == 1 by {
      if |es| == 1 {
        assert es[1..] == [];
      }
    }
    assert FilesOf([]) == [] && ReportsOf(h, []) == [];
  }

  lemma MoreDelivered(h: Digest, s: Parser, t: Parser, u: Parser, k: nat, es: seq<Entry>)
    requires 1 < |es| <= k && Delivered(h, s, t, k, es[0]) && Matches(h, es[0])
    requires DeliveredAll(h, t, u, k - 1, es[1..])
    ensures DeliveredAll(h, s, u, k, es)
  {
    hide Inv, Ready, Matches, Written, Report;
    var m := Accepted(h, es[1..]);
    assert es[..m + 1][1..] == es[1..][..m] && es[..m + 1][0] == es[0];
    assert AllMatch(h, es) == AllMatch(h, es[1..]) by {
      if AllMatch(h, es[1..]) {
        forall i | 0 <= i < |es| ensures Matches(h, es[i]) {
          if i > 0 {
            assert es[i] == es[1..][i - 1];
          }
        }
      }
    }
    assert s.out.files + [Written(es[0])] + FilesOf(es[1..][..m]) == s.out.files + ([Written(es[0])] + FilesOf(es[1..][..m]));
    assert s.out.verdicts + [Report(h, es[0])] + ReportsOf(h, es[1..][..m])
        == s.out.verdicts + ([Report(h, es[0])] + ReportsOf(h, es[1..][..m]));
  }

  lemma PackHeaderFed(h: Digest, s: Parser, n: nat, version: nat, size: nat)
    requires Inv(s) && s.packSize == 0 && !Stopped(s) && 0 < n < 0x1_0000 && version < 0x1_0000 && size < 0x1_0000_0000
    requires s.fileOffset == 0
    ensures var t := Update(h, s, PackHeaderOf(n, version, size)); Ready(t, n) && t.out == s.out
  {
    hide Le32, ToLe32;
    var p := PackHeaderOf(n, version, size);
    UpdateTakes(h, s, p);
    assert p[..8] == p && p[8..] == [] && s.header + p == p;
    assert p[0] == ToLe16(n)[0] && p[1] == ToLe16(n)[1];
    NothingFed(h, Step(h, s, p));
  }

  /** The download of a whole pack of at least one file, in any chunks and with anything behind it: the files are
      written in order up to the first one that fails its check, each is reported once, with 1 exactly if its digest
      matches, no handle stays open, nothing more happens after the first mismatch or the last file, and the code
      returned is -1 exactly if some digest does not match. */
  lemma PackDelivered(h: Digest, s: Parser, es: seq<Entry>, version: nat, size: nat, extra: Bytes, chunks: seq<Bytes>)
    requires Inv(s) && s.packSize == 0 && s.fileOffset == 0 && !Stopped(s)
    requires 1 <= |es| < 0x1_0000 && version < 0x1_0000 && size < 0x1_0000_0000 && forall e :: e in es ==> WellFormed(e)
    requires Joined(chunks) == PackHeaderOf(|es|, version, size) + Body(es) + extra
    ensures var t := Feed(h, s, chunks);
      && DeliveredAll(h, s, t, |es|, es) && t.done
      && ReturnCode(t) == if AllMatch(h, es) then 0 else -1
  {
    hide Inv, Update, Ready, WellFormed, Feed, Joined, PackHeaderOf;
    var head := PackHeaderOf(|es|, version, size);
    AnyChunks(h, s, chunks);
    PackHeaderFed(h, s, |es|, version, size);
    var t := Update(h, s, head);
    FilesDelivered(h, t, |es|, es);
    var u := Update(h, t, Body(es));
    ChunkIndependence(h, s, head, Body(es));
    ChunkIndependence(h, s, head + Body(es), extra);
    StoppedStays(h, u, extra);
  }

  /** After each whole file of the stream, in any chunks: what is written so far. */
  lemma FileEnds(h: Digest, s: Parser, es: seq<Entry>, j: nat, version: nat, size: nat, chunks: seq<Bytes>)
    requires Inv(s) && s.packSize == 0 && s.fileOffset == 0 && !Stopped(s)
    requires 1 <= j <= |es| < 0x1_0000 && version < 0x1_0000 && size < 0x1_0000_0000
    requires forall e :: e in es ==> WellFormed(e)
    requires Joined(chunks) == PackHeaderOf(|es|, version, size) + Body(es[..j])
    ensures var t := Feed(h, s, chunks);
      DeliveredAll(h, s, t, |es|, es[..j]) && ReturnCode(t) == if AllMatch(h, es[..j]) then 0 else -1
  {
    hide Inv, Update, Ready, WellFormed, Feed, Joined, PackHeaderOf;
    var head := PackHeaderOf(|es|, version, size);
    AnyChunks(h, s, chunks);
    PackHeaderFed(h, s, |es|, version, size);
    FilesDelivered(h, Update(h, s, head), |es|, es[..j]);
    ChunkIndependence(h, s, head, Body(es[..j]));
  }
}
