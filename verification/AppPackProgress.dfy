/** Which header sizes let the recursion of the pack parser end (services/app_mgr/app_mgr.c, apppack_update). */
module AppPackProgress {
  import opened AppPack
  import opened AppPackChunks

  const UINT_LIMIT: nat := 0x1_0000_0000

  /** An unsigned number put into a signed 32-bit variable. */
  function Signed(n: nat): int
    requires n < UINT_LIMIT
  {
    if n < 0x8000_0000 then n else n - UINT_LIMIT
  }

  /** `len` before it is compared with the bytes at hand: the difference with an unsigned size wraps around. */
  function Length(s: Parser): int
    requires Inv(s)
  {
    match PhaseOf(s)
    case NameStart => Signed((HeaderSize(s) - FILE_HEADER) % UINT_LIMIT)
    case Data => Signed((FileSize(s) - s.fileOffset) % UINT_LIMIT)
    case _ => Wanted(s)
  }

  /** What one call passes on: the first of `Length(s)` and the bytes at hand, and of a block in a file. */
  function Taken(s: Parser, p: Bytes): int
    requires Inv(s)
  {
    var n := if Length(s) > |p| then |p| else Length(s);
    if PhaseOf(s) == Data && n > BLOCK_SIZE then BLOCK_SIZE else n
  }

  /** At the start of a name the program takes something exactly if the header is larger than its fixed part, and not
      by 2^31 or more; at the fixed size it takes nothing, and otherwise the length is negative. */
  lemma NameTakes(s: Parser, p: Bytes)
    requires Inv(s) && PhaseOf(s) == NameStart && p != []
    ensures Taken(s, p) >= 1 <==> FILE_HEADER < HeaderSize(s) < FILE_HEADER + 0x8000_0000
    ensures Taken(s, p) == 0 <==> HeaderSize(s) == FILE_HEADER
    ensures Taken(s, p) < 0 <==> HeaderSize(s) < FILE_HEADER || HeaderSize(s) >= FILE_HEADER + 0x8000_0000
  {
    Le32Bound(s.fileHeader, 0);
  }

  lemma Le32Bound(b: Bytes, i: nat)
    requires i + 4 <= |b|
    ensures Le32(b, i) < UINT_LIMIT
  {
  }

  /** In a file the length is negative for a file of 2^31 bytes or more, and zero only for one of no bytes. */
  lemma DataTakes(s: Parser, p: Bytes)
    requires Inv(s) && PhaseOf(s) == Data && p != []
    ensures Taken(s, p) < 0 <==> FileSize(s) >= 0x8000_0000
    ensures FileSize(s) < 0x8000_0000 ==> Taken(s, p) == Min(Wanted(s), |p|)
    ensures Taken(s, p) == 0 <==> FileSize(s) == 0
  {
    hide Le16, BadSize;
    Le32Bound(s.fileHeader, 4);
  }

  /** The header of the file is no larger than its fixed part, which the step at hand finds out. */
  predicate Stuck(s: Parser)
    requires Inv(s)
  {
    PhaseOf(s) == NameStart && HeaderSize(s) == FILE_HEADER
  }

  /** The next call computes a negative length, which it hands to `memcpy` or to the digest. */
  predicate Negative(s: Parser)
    requires Inv(s)
  {
    BadSize(s) && !Stuck(s)
  }

  lemma NegativeIff(s: Parser, p: Bytes)
    requires Inv(s) && p != []
    ensures Negative(s) <==> Taken(s, p) < 0
    ensures !BadSize(s) ==> Taken(s, p) == Min(Wanted(s), |p|)
    ensures Stuck(s) ==> Taken(s, p) == 0
  {
    if PhaseOf(s) == NameStart {
      NameTakes(s, p);
    } else if PhaseOf(s) == Data {
      DataTakes(s, p);
    }
  }

  /** A step at the fixed header size takes nothing and leads to itself. */
  lemma StuckStays(h: Digest, s: Parser)
    requires Inv(s) && Stuck(s)
    ensures var t := Step(h, s, []);
      && Inv(t) && Stuck(t) && t.headerOffset == s.headerOffset && t.fileHeader == s.fileHeader
      && t.packSize == s.packSize && t.out == s.out && t.error == s.error && t.done == s.done && t.fault == s.fault
      && Step(h, t, []) == t
  {
    hide Le32, Le16;
  }

  // ---------------------------------------------------------------------------------------------
  // The calls of the recursion

  /** Where the recursion is after some calls: returned, given a negative length, or still under way. */
  datatype Progress = Returned(state: Parser) | Overrun(state: Parser) | Pending(state: Parser, rest: Bytes)

  /** The first `n` calls. */
  ghost function Calls(h: Digest, s: Parser, p: Bytes, n: nat): Progress
    requires Inv(s)
    decreases n
  {
    if s.error || s.done || p == [] then Returned(s)
    else if Taken(s, p) < 0 then Overrun(s)
    else if n == 0 then Pending(s, p)
    else
      NegativeIff(s, p);
      var k := Taken(s, p);
      if Stuck(s) then
        StuckStays(h, s);
        Calls(h, Step(h, s, p[..k]), p[k..], n - 1)
      else
        StepInv(h, s, p[..k]);
        Calls(h, Step(h, s, p[..k]), p[k..], n - 1)
  }

  lemma {:induction false} StuckForever(h: Digest, s: Parser, p: Bytes, n: nat)
    requires Inv(s) && Stuck(s) && !s.error && !s.done && p != []
    ensures Calls(h, s, p, n).Pending? && Calls(h, s, p, n).rest == p
    decreases n
  {
    hide Step, Taken, Inv, Stuck;
    NegativeIff(s, p);
    if n > 0 {
      StuckStays(h, s);
      assert p[..0] == [] && p[0..] == p;
      StuckForever(h, Step(h, s, []), p, n - 1);
    }
  }

  /** Enough calls for an input on which the recursion ends. */
  function Enough(s: Parser, p: Bytes): nat {
    2 * |p| + if PhaseOf(s) == Data then 1 else 0
  }

  lemma StuckIsBad(s: Parser)
    requires Inv(s) && Stuck(s)
    ensures BadSize(s)
  {
    hide Le32;
  }

  lemma FaultKeeps(s: Parser)
    requires Inv(s)
    ensures var t := s.(fault := true); Inv(t) && Stuck(t) == Stuck(s)
  {
    hide Le32;
  }

  /** A call on sizes the program can handle makes progress. */
  lemma CallsStep(h: Digest, s: Parser, p: Bytes)
    requires Inv(s) && !Stopped(s) && !BadSize(s) && p != []
    ensures var k := Min(Wanted(s), |p|); var t := Step(h, s, p[..k]);
      && Taken(s, p) == k && Inv(t) && t.fault == s.fault && !Stuck(s)
      && Update(h, s, p) == Update(h, t, p[k..]) && Enough(t, p[k..]) < Enough(s, p)
  {
    hide Step, Taken, Inv, Stuck, BadSize, Wanted;
    var k := Min(Wanted(s), |p|);
    NegativeIff(s, p);
    if Stuck(s) {
      StuckIsBad(s);
    }
    StepInv(h, s, p[..k]);
    UpdateTakes(h, s, p);
  }

  /** The recursion returns if and only if the specified parser ends without a fault, and then with its state, after at
      most two calls a byte and one more. Otherwise it goes on for ever, the same bytes in hand, exactly if it
      met a header of the fixed size; and computes a negative length if it met any other bad size. */
  lemma {:induction false} CallsIff(h: Digest, s: Parser, p: Bytes, n: nat)
    requires Inv(s) && !s.fault
    ensures var t := Update(h, s, p);
      && (!t.fault && n >= Enough(s, p) ==> Calls(h, s, p, n) == Returned(t))
      && (t.fault && Stuck(t) ==> Calls(h, s, p, n).Pending?)
      && (t.fault && !Stuck(t) ==> !Calls(h, s, p, n).Returned?)
      && (t.fault && !Stuck(t) && n >= Enough(s, p) ==> Calls(h, s, p, n).Overrun?)
    decreases n
  {
    hide Step, Taken, Inv, Stuck, BadSize, Wanted;
    if s.error || s.done || p == [] {
    } else if BadSize(s) {
      NegativeIff(s, p);
      FaultKeeps(s);
      if Stuck(s) {
        StuckForever(h, s, p, n);
      }
    } else {
      CallsStep(h, s, p);
      OneCall(h, s, p, n);
      if n > 0 {
        var k := Min(Wanted(s), |p|);
        CallsIff(h, Step(h, s, p[..k]), p[k..], n - 1);
      }
    }
  }

  /** The recursion returns exactly if the specified parser ends without a fault, and never ends exactly if that
      parser stops at a header of the fixed size. */
  lemma ReturnsIff(h: Digest, s: Parser, p: Bytes)
    requires Inv(s) && !s.fault
    ensures var t := Update(h, s, p);
      && ((exists n: nat :: Calls(h, s, p, n) == Returned(t)) <==> !t.fault)
      && ((forall n: nat :: Calls(h, s, p, n).Pending?) <==> t.fault && Stuck(t))
  {
    hide Calls, Update, Inv, Stuck;
    var t := Update(h, s, p);
    forall n: nat
      ensures t.fault ==> !Calls(h, s, p, n).Returned?
      ensures t.fault && Stuck(t) ==> Calls(h, s, p, n).Pending?
    {
      CallsIff(h, s, p, n);
    }
    CallsIff(h, s, p, Enough(s, p));
  }

  /** The start of a pack whose first file header is of the fixed size. */
  function StuckHeader(): (r: Bytes)
    ensures |r| == FILE_HEADER
  {
    [24, 0, 0, 0] + seq(20, i => 0)
  }

  lemma StuckAfterHeader(h: Digest, s: Parser)
    requires Inv(s) && !Stopped(s) && PhaseOf(s) == FirstHeader
    ensures var t := Step(h, s, StuckHeader()); Inv(t) && !Stopped(t) && Stuck(t)
  {
    var r := StuckHeader();
    assert r[0] == 24 && r[1] == 0 && r[2] == 0 && r[3] == 0;
    StepInv(h, s, r);
  }

  /** Such a pack and one byte more: from the third call on the recursion holds that byte for ever. */
  lemma StuckPack(h: Digest, s: Parser, head: Bytes, x: Byte, n: nat)
    requires Inv(s) && !Stopped(s) && s.packSize == 0 && |head| == PACK_HEADER_SIZE
    ensures var p := head + StuckHeader() + [x];
      Calls(h, s, p, n).Pending? && (n >= 2 ==> Calls(h, s, p, n).rest == [x])
  {
    hide Taken, StuckHeader, Le32, Le16, Stuck, DataStep, Calls;
    var r := StuckHeader();
    var p := head + r + [x];
    assert p[..8] == head && p[8..] == r + [x] && (r + [x])[..24] == r && (r + [x])[24..] == [x];
    StepInv(h, s, head);
    var t := Step(h, s, head);
    OneCall(h, s, p, n);
    if n > 0 {
      OneCall(h, t, r + [x], n - 1);
      StuckAfterHeader(h, t);
      if n > 1 {
        StuckForever(h, Step(h, t, r), [x], n - 2);
      }
    }
  }

  /** One call on sizes the program can handle. */
  lemma OneCall(h: Digest, s: Parser, p: Bytes, n: nat)
    requires Inv(s) && !Stopped(s) && !BadSize(s) && p != []
    ensures var k := Min(Wanted(s), |p|); var t := Step(h, s, p[..k]);
      Inv(t) && Calls(h, s, p, n) == if n == 0 then Pending(s, p) else Calls(h, t, p[k..], n - 1)
  {
    hide Step, Taken, Inv, Stuck, BadSize, Wanted;
    CallsStep(h, s, p);
  }
}
