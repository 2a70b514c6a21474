/** The checksum loops and the data packet check of the receiver (services/recovery/ymodem.c). */
module Ymodem {
  import opened Folds
  import opened YmodemCrc

  // ---------------------------------------------------------------------------------------------
  // The loops

  /** The low half of the wide register; what is shifted above it does not matter. */
  function Reg(c: bv32): bv16 {
    (c & 0xFFFF) as bv16
  }

  function Turn(c: bv32, bit: bool): bv32 {
    if bit then Reduce((c << 1) + 1) else Reduce(c << 1)
  }

  function Reduce(c: bv32): bv32 {
    if c & 0x10000 != 0 then c ^ 0x1021 else c
  }

  lemma ReduceIs(c: bv32, r: bv16)
    requires c & 0x10000 != 0 <==> Top(r)
    ensures Reg(Reduce(c)) == if Top(r) then Xor(Reg(c), POLY) else Reg(c)
  {
    hide Reg, Top, Xor;
    RegXor(c);
  }

  lemma TurnIs(c: bv32, bit: bool)
    ensures Reg(Turn(c, bit)) == BitIn(Reg(c), bit)
  {
    hide Reg, Xor, Shl, Top, Reduce;
    RegIn(c);
    TopIn(c);
    ReduceIs(c << 1, Reg(c));
    ReduceIs((c << 1) + 1, Reg(c));
    XorLaws(Shl(Reg(c)), 1, POLY);
    XorLaws(1, POLY, 0);
    XorLaws(Shl(Reg(c)), POLY, 1);
    XorLaws(Shift(Reg(c)), 0, 0);
  }

  lemma RegIn(c: bv32)
    ensures Reg(c << 1) == Shl(Reg(c)) && Reg((c << 1) + 1) == Xor(Shl(Reg(c)), 1)
  {
  }

  lemma TopIn(c: bv32)
    ensures (c << 1) & 0x10000 != 0 <==> Top(Reg(c))
    ensures ((c << 1) + 1) & 0x10000 != 0 <==> Top(Reg(c))
  {
    assert ((c << 1) + 1) & 0x10000 == (c << 1) & 0x10000;
    assert (c << 1) & 0x10000 != 0 <==> Reg(c) & 0x8000 != 0;
  }

  lemma RegXor(d: bv32)
    ensures Reg(d ^ 0x1021) == Xor(Reg(d), POLY)
  {
  }

  /** The byte with its stop bit after `n` shifts. */
  function Window(b: bv8, n: nat): bv32
    requires n <= BITS
  {
    var x := (b as bv32) | 0x100;
    if n == 0 then x
    else if n == 1 then x << 1
    else if n == 2 then x << 2
    else if n == 3 then x << 3
    else if n == 4 then x << 4
    else if n == 5 then x << 5
    else if n == 6 then x << 6
    else if n == 7 then x << 7
    else x << 8
  }

  lemma WindowShl(x: bv32)
    ensures (x << 1) << 1 == x << 2 && (x << 2) << 1 == x << 3 && (x << 3) << 1 == x << 4 && (x << 4) << 1 == x << 5
    ensures (x << 5) << 1 == x << 6 && (x << 6) << 1 == x << 7 && (x << 7) << 1 == x << 8
  {
  }

  /** The bit that comes in at a shift is the next one of the byte, and the stop bit shows after the eighth. */
  lemma WindowBits(b: bv8)
    ensures var x := (b as bv32) | 0x100;
      && ((x << 1) & 0x100 != 0 <==> Bit(b, 0)) && ((x << 2) & 0x100 != 0 <==> Bit(b, 1))
      && ((x << 3) & 0x100 != 0 <==> Bit(b, 2)) && ((x << 4) & 0x100 != 0 <==> Bit(b, 3))
      && ((x << 5) & 0x100 != 0 <==> Bit(b, 4)) && ((x << 6) & 0x100 != 0 <==> Bit(b, 5))
      && ((x << 7) & 0x100 != 0 <==> Bit(b, 6)) && ((x << 8) & 0x100 != 0 <==> Bit(b, 7))
  {
  }

  lemma WindowStop(b: bv8)
    ensures var x := (b as bv32) | 0x100;
      && (x << 1) & 0x10000 == 0 && (x << 2) & 0x10000 == 0 && (x << 3) & 0x10000 == 0 && (x << 4) & 0x10000 == 0
      && (x << 5) & 0x10000 == 0 && (x << 6) & 0x10000 == 0 && (x << 7) & 0x10000 == 0 && (x << 8) & 0x10000 != 0
  {
  }

  /** The bit that has just come to the input, and the stop bit. */
  predicate BitAt(window: bv32) {
    window & 0x100 != 0
  }

  predicate StopAt(window: bv32) {
    window & 0x10000 != 0
  }

  function Begin(b: bv8): bv32 {
    (b as bv32) | 0x100
  }

  function Move(window: bv32): bv32 {
    window << 1
  }

  lemma WindowNext(b: bv8, n: nat)
    requires n < BITS
    ensures BitAt(Window(b, n + 1)) <==> Bit(b, n)
    ensures StopAt(Window(b, n + 1)) <==> n + 1 == BITS
  {
    WindowBits(b);
    WindowStop(b);
  }

  method UpdateCRC16(crcIn: bv16, byte: bv8) returns (r: bv16)
    ensures r == Update(crcIn, byte)
  {
    hide Reg, Turn, Fed, Bit, Window, BitIn, BitAt, StopAt, Begin, Move;
    var crc, window := crcIn as bv32, Begin(byte);
    LoopStart(crcIn, byte);
    ghost var n := 0;
    var more := true;
    while more
      invariant n <= BITS && Reg(crc) == Fed(crcIn, byte, n) && window == Window(byte, n)
      invariant more <==> n < BITS
      decreases BITS - n
    {
      WindowNext(byte, n);
      WindowStep(byte, n);
      TurnIs(crc, Bit(byte, n));
      FedNext(crcIn, byte, n);
      window := Move(window);
      crc := ShiftIn(crc, BitAt(window));
      more := !StopAt(window);
      n := n + 1;
    }
    r := Reg(crc);
    UpdateFed(crcIn, byte);
  }

  lemma UpdateFed(r: bv16, b: bv8)
    ensures Update(r, b) == Fed(r, b, BITS)
  {
  }

  /** The body of the loop: shift, take the bit in, take the polynomial off. */
  method ShiftIn(start: bv32, bit: bool) returns (crc: bv32)
    ensures crc == Turn(start, bit)
  {
    hide Reduce;
    crc := start << 1;
    if bit {
      crc := crc + 1;
    }
    assert crc == if bit then (start << 1) + 1 else start << 1;
    crc := ReduceStep(crc);
  }

  method ReduceStep(start: bv32) returns (crc: bv32)
    ensures crc == Reduce(start)
  {
    crc := start;
    if crc & 0x10000 != 0 {
      crc := crc ^ 0x1021;
    }
  }

  lemma LoopStart(r: bv16, b: bv8)
    ensures Reg(r as bv32) == r && Fed(r, b, 0) == r && Window(b, 0) == Begin(b)
  {
  }

  lemma WindowStep(b: bv8, n: nat)
    requires n < BITS
    ensures Window(b, n + 1) == Move(Window(b, n))
  {
    WindowShl((b as bv32) | 0x100);
  }

  lemma FedNext(r: bv16, b: bv8, n: nat)
    requires n < BITS
    ensures Fed(r, b, n + 1) == BitIn(Fed(r, b, n), Bit(b, n))
  {
  }

  class Context {
    var crc: bv16

    constructor ()
      ensures crc == 0
    {
      crc := 0;
    }

    method Feed(src: Bytes)
      modifies this
      ensures crc == Fold(Update, old(crc), src)
    {
      for i := 0 to |src|
        invariant crc == Fold(Update, old(crc), src[..i])
      {
        assert src[..i + 1][..i] == src[..i];
        crc := UpdateCRC16(crc, src[i]);
      }
      assert src[..|src|] == src;
    }

    method Final() returns (result: bv16)
      modifies this
      ensures result == Update(Update(old(crc), 0), 0)
    {
      crc := UpdateCRC16(crc, 0);
      crc := UpdateCRC16(crc, 0);
      result := crc;
    }
  }

  method ComputeCrc16(src: Bytes) returns (crc: bv16)
    ensures crc == Crc16(src)
  {
    var context := new Context();
    context.Feed(src);
    crc := context.Final();
  }

  // ---------------------------------------------------------------------------------------------
  // Data packets

  datatype Poll = Nothing | Got(b: bv8)

  const SOH: bv8 := 1
  const SOH_DATA_LEN: nat := 128
  const STX_DATA_LEN: nat := 1024
  const OK: int := 0
  const ERR: int := -1

  /** The bytes among the answers of the serial line. */
  function Arrived(polls: seq<Poll>): Bytes {
    if polls == [] then []
    else Arrived(polls[..|polls| - 1]) + if polls[|polls| - 1].Got? then [polls[|polls| - 1].b] else []
  }

  /** The line is asked until enough bytes have come or `timeout` answers are used up. */
  method ReceiveBytes(line: seq<Poll>, nbytes: nat, timeout: nat) returns (buffer: Bytes)
    requires timeout <= |line|
    ensures |buffer| <= nbytes
    ensures |buffer| == nbytes ==> exists t :: 0 <= t <= timeout && buffer == Arrived(line[..t])
    ensures |buffer| < nbytes ==> buffer == Arrived(line[..timeout])
  {
    buffer := [];
    var t := 0;
    while |buffer| < nbytes && t < timeout
      invariant t <= timeout && |buffer| <= nbytes && buffer == Arrived(line[..t])
    {
      assert line[..t + 1][..t] == line[..t];
      if line[t].Got? {
        buffer := buffer + [line[t].b];
      }
      t := t + 1;
    }
  }

  function DataLength(dataType: bv8): nat {
    if dataType == SOH then SOH_DATA_LEN else STX_DATA_LEN
  }

  function Payload(p: Bytes): Bytes
    requires |p| >= 4
  {
    p[2..|p| - 2]
  }

  /** The packet number and its complement. */
  predicate Numbers(n: bv8, m: bv8) {
    n as int + m as int == 0xFF
  }

  /** A packet of this length that the receiver takes: number and complement, and the trailer. */
  predicate Accepted(p: Bytes, length: nat) {
    && |p| == length + 4 && Numbers(p[0], p[1])
    && TrailerMatches(Payload(p), p[length + 2], p[length + 3])
  }

  /** The packet a sender makes. */
  function Packet(number: bv8, payload: Bytes): Bytes {
    [number, 0xFF - number] + payload + [High(Crc16(payload)), Low(Crc16(payload))]
  }

  /** A packet as sent is accepted with its payload. */
  lemma SentAccepted(number: bv8, payload: Bytes)
    ensures Accepted(Packet(number, payload), |payload|) && Payload(Packet(number, payload)) == payload
  {
    hide Crc16, Numbers;
    Complement(number);
    HalvesOf(Crc16(payload));
    assert Payload(Packet(number, payload)) == payload;
  }

  lemma Complement(number: bv8)
    ensures Numbers(number, 0xFF - number)
  {
  }

  lemma HalvesOf(crc: bv16)
    ensures Halves(crc, High(crc), Low(crc))
  {
  }

  /** An accepted packet is one that a sender makes. */
  lemma AcceptedSent(p: Bytes, length: nat)
    requires Accepted(p, length)
    ensures |p| == length + 4 && |Payload(p)| == length && p == Packet(p[0], Payload(p))
  {
    hide Crc16, Halves, Numbers, High, Low;
    var crc := Crc16(Payload(p));
    HalvesOf(crc);
    OneTrailer(crc, p[length + 2], p[length + 3], High(crc), Low(crc));
    Complement(p[0]);
    OneNumber(p[1], p[0], 0xFF - p[0]);
    assert p == [p[0], p[1]] + Payload(p) + [p[length + 2], p[length + 3]];
  }

  /** How much a packet of each type carries: 128 bytes after the type byte 1, and 1024 after 2. */
  predicate Carries(dataType: bv8, payload: Bytes) {
    |payload| == if dataType == 1 then 128 else 1024
  }

  /** The line delivers this packet within the timeout. */
  ghost predicate Delivers(line: seq<Poll>, timeout: nat, number: bv8, payload: Bytes)
    requires timeout <= |line|
  {
    Packet(number, payload) <= Arrived(line[..timeout])
  }

  lemma {:induction false} ArrivedFront(line: seq<Poll>, t: nat, n: nat)
    requires t <= n <= |line|
    ensures Arrived(line[..t]) <= Arrived(line[..n])
    decreases n
  {
    if t < n {
      ArrivedFront(line, t, n - 1);
      assert line[..n][..n - 1] == line[..n - 1];
    }
  }

  /** What was received of a line that delivers a packet is that packet. */
  lemma Received(line: seq<Poll>, timeout: nat, p: Bytes, t: nat, number: bv8, payload: Bytes)
    requires t <= timeout <= |line| && p == Arrived(line[..t]) && |p| <= |payload| + 4
    requires |p| < |payload| + 4 ==> p == Arrived(line[..timeout])
    requires Delivers(line, timeout, number, payload)
    ensures p == Packet(number, payload)
  {
    hide Arrived, Crc16, High, Low;
    ArrivedFront(line, t, timeout);
    var all := Arrived(line[..timeout]);
    assert all[..|p|] == p && all[..|payload| + 4] == Packet(number, payload);
  }

  /** A packet is accepted exactly if the line delivers it, and then it is the one delivered. */
  lemma AcceptedIff(dataType: bv8, line: seq<Poll>, timeout: nat, p: Bytes, t: nat)
    requires t <= timeout <= |line| && p == Arrived(line[..t]) && |p| <= DataLength(dataType) + 4
    requires |p| < DataLength(dataType) + 4 ==> p == Arrived(line[..timeout])
    ensures Accepted(p, DataLength(dataType)) <==>
      exists number, payload :: Carries(dataType, payload) && Delivers(line, timeout, number, payload)
    ensures forall number, payload :: Carries(dataType, payload) && Delivers(line, timeout, number, payload) ==>
      p == Packet(number, payload) && Payload(p) == payload
  {
    hide Accepted, Packet, Arrived, Delivers, Payload;
    var length := DataLength(dataType);
    if Accepted(p, length) {
      AcceptedSent(p, length);
      FrontDelivers(line, timeout, t, p);
      assert Carries(dataType, Payload(p)) && Delivers(line, timeout, p[0], Payload(p));
    }
    forall number, payload | Carries(dataType, payload) && Delivers(line, timeout, number, payload)
      ensures Accepted(p, length) && p == Packet(number, payload) && Payload(p) == payload
    {
      Received(line, timeout, p, t, number, payload);
      SentAccepted(number, payload);
    }
  }

  lemma FrontDelivers(line: seq<Poll>, timeout: nat, t: nat, p: Bytes)
    requires t <= timeout <= |line| && p == Arrived(line[..t]) && |p| >= 4 && p == Packet(p[0], Payload(p))
    ensures Delivers(line, timeout, p[0], Payload(p))
  {
    hide Packet, Payload;
    ArrivedFront(line, t, timeout);
  }

  method CompareTrailer(crc: bv16, hi: bv8, lo: bv8) returns (same: bool)
    ensures same == Halves(crc, hi, lo)
  {
    same := crc >> 8 == hi as bv16 && crc & 0xFF == lo as bv16;
  }

  /** `ymodem_data_parse`: the payload of an accepted packet is written, anything else is dropped. */
  method DataParse(dataType: bv8, line: seq<Poll>, timeout: nat) returns (code: int, written: Bytes, ghost p: Bytes)
    requires timeout <= |line|
    ensures code == OK <==> Accepted(p, DataLength(dataType))
    ensures code == OK ==> written == Payload(p)
    ensures code != OK ==> code == ERR && written == []
    ensures exists t :: 0 <= t <= timeout && p == Arrived(line[..t])
    ensures |p| <= DataLength(dataType) + 4 && (|p| < DataLength(dataType) + 4 ==> p == Arrived(line[..timeout]))
    ensures code == 0 <==> exists number, payload :: Carries(dataType, payload) && Delivers(line, timeout, number, payload)
    ensures forall number, payload :: Carries(dataType, payload) && Delivers(line, timeout, number, payload) ==>
      written == payload
  {
    hide Crc16, Halves, Numbers, Arrived, Delivers, Carries;
    var length := DataLength(dataType);
    var buffer := ReceiveBytes(line, length + 4, timeout);
    p := buffer;
    ghost var t: nat :| t <= timeout && p == Arrived(line[..t]);
    AcceptedIff(dataType, line, timeout, p, t);
    code, written := ERR, [];
    if |buffer| != length + 4 || !Numbers(buffer[0], buffer[1]) {
      return;
    }
    var crc := ComputeCrc16(buffer[2..length + 2]);
    var same := CompareTrailer(crc, buffer[length + 2], buffer[length + 3]);
    if !same {
      return;
    }
    code, written := OK, buffer[2..length + 2];
  }

  lemma OneRegister(crc: bv16, other: bv16, hi: bv8, lo: bv8)
    requires Halves(crc, hi, lo) && Halves(other, hi, lo)
    ensures other == crc
  {
    hide Recomposed;
    Recompose(crc);
    Recompose(other);
  }

  function Recomposed(hi: bv16, lo: bv16): bv16 {
    (hi << 8) | lo
  }

  lemma Recompose(crc: bv16)
    ensures crc == Recomposed(crc >> 8, crc & 0xFF)
  {
  }

  lemma OneTrailer(crc: bv16, hi: bv8, lo: bv8, hi': bv8, lo': bv8)
    requires Halves(crc, hi, lo) && Halves(crc, hi', lo')
    ensures hi' == hi && lo' == lo
  {
    WideByte(hi, hi');
    WideByte(lo, lo');
  }

  lemma OneNumber(a: bv8, b: bv8, c: bv8)
    ensures Numbers(a, b) && Numbers(c, b) ==> a == c
    ensures Numbers(b, a) && Numbers(b, c) ==> a == c
  {
    if a as int == c as int {
      SameByte(a, c);
    }
  }

  lemma SameByte(a: bv8, c: bv8)
    requires a as int == c as int
    ensures a == c
  {
    assert (a as int) as bv8 == a && (c as int) as bv8 == c;
  }

  lemma NumberDecides(p: Bytes, length: nat, i: nat, b: bv8)
    requires Accepted(p, length) && i < 2 && Accepted(p[i := b], length)
    ensures p[i] == b
  {
    hide TrailerMatches, Numbers;
    OneNumber(p[i], p[1 - i], b);
  }

  lemma PayloadDecides(p: Bytes, length: nat, i: nat, b: bv8)
    requires Accepted(p, length) && i < length && Accepted(p[i + 2 := b], length)
    ensures p[i + 2] == b
  {
    hide Crc16, Halves, Numbers;
    var q := p[i + 2 := b];
    assert Payload(q) == Payload(p)[i := b];
    OneRegister(Crc16(Payload(p)), Crc16(Payload(q)), p[length + 2], p[length + 3]);
    if Payload(p)[i] != b {
      OneByteDetected(Payload(p), i, b);
    }
  }

  lemma TrailerDecides(p: Bytes, length: nat, i: nat, b: bv8)
    requires Accepted(p, length) && length + 2 <= i < length + 4 && Accepted(p[i := b], length)
    ensures p[i] == b
  {
    hide Crc16, Halves, Numbers;
    var q := p[i := b];
    assert Payload(q) == Payload(p);
    OneTrailer(Crc16(Payload(p)), p[length + 2], p[length + 3], q[length + 2], q[length + 3]);
  }

  /** An accepted packet with any one byte replaced by another one is not accepted. */
  lemma OneByteRejected(p: Bytes, length: nat, i: nat, b: bv8)
    requires Accepted(p, length) && i < |p| && p[i] != b
    ensures !Accepted(p[i := b], length)
  {
    hide Accepted;
    AcceptedLength(p, length);
    if Accepted(p[i := b], length) {
      if i < 2 {
        NumberDecides(p, length, i, b);
      } else if i < length + 2 {
        PayloadDecides(p, length, i - 2, b);
      } else {
        TrailerDecides(p, length, i, b);
      }
    }
  }

  lemma AcceptedLength(p: Bytes, length: nat)
    requires Accepted(p, length)
    ensures |p| == length + 4
  {
  }
}
