/** String literals: escaping, and decoding with its UTF-16 to UTF-8 conversion
    (utils/cJSON/cJSON.c, print_string_ptr, parse_string, utf16_literal_to_utf8, parse_hex4). */
module JsonString {
  import opened Bits
  import opened JsonTypes
  import opened Flats

  // ---------------------------------------------------------------------------------------------
  // Printing

  function HexDigit(n: nat): Byte
    requires n < 16
  {
    if n < 10 then 48 + n else 97 + (n - 10)
  }

  function Escape(b: Byte): (r: Bytes)
    ensures |r| > 0
  {
    if b > 31 && b != QUOTE && b != BACKSLASH then [b]
    else if b == BACKSLASH then [BACKSLASH, BACKSLASH]
    else if b == QUOTE then [BACKSLASH, QUOTE]
    else if b == 8 then [BACKSLASH, 98]
    else if b == 12 then [BACKSLASH, 102]
    else if b == NEWLINE then [BACKSLASH, 110]
    else if b == RETURN then [BACKSLASH, 114]
    else if b == TAB then [BACKSLASH, 116]
    else [BACKSLASH, 117, 48, 48, HexDigit(b / 16), HexDigit(b % 16)]
  }

  function Quoted(s: Bytes): Bytes {
    [QUOTE] + Flat(Escape, s) + [QUOTE]
  }

  // ---------------------------------------------------------------------------------------------
  // Decoding

  function HexValue(b: Byte): int {
    if 48 <= b <= 57 then b - 48
    else if 65 <= b <= 70 then b - 55
    else if 97 <= b <= 102 then b - 87
    else -1
  }

  predicate IsHex(b: Byte) {
    HexValue(b) >= 0
  }

  /** Four hex digits; 0 if one of them is none. */
  function Hex4(c: Bytes, i: nat): (r: nat)
    requires i + 4 <= |c|
    ensures r < 0x1_0000
  {
    if IsHex(c[i]) && IsHex(c[i + 1]) && IsHex(c[i + 2]) && IsHex(c[i + 3]) then
      HexValue(c[i]) * 4096 + HexValue(c[i + 1]) * 256 + HexValue(c[i + 2]) * 16 + HexValue(c[i + 3])
    else 0
  }

  /** The UTF-8 form of a code point (section 3 of RFC 3629). */
  function Utf8(cp: nat): (r: Bytes)
    requires cp < 0x11_0000
    ensures 1 <= |r| <= 4 && (cp < 0x1_0000 ==> |r| <= 3)
  {
    if cp < 0x80 then [cp]
    else if cp < 0x800 then [0xC0 + cp / 64, 0x80 + cp % 64]
    else if cp < 0x1_0000 then [0xE0 + cp / 4096, 0x80 + cp / 64 % 64, 0x80 + cp % 64]
    else [0xF0 + cp / 262144, 0x80 + cp / 4096 % 64, 0x80 + cp / 64 % 64, 0x80 + cp % 64]
  }

  /** The code point a UTF-8 sequence stands for. */
  function FromUtf8(s: Bytes): int {
    if |s| == 1 then s[0]
    else if |s| == 2 then (s[0] as int - 0xC0) * 64 + (s[1] as int - 0x80)
    else if |s| == 3 then (s[0] as int - 0xE0) * 4096 + (s[1] as int - 0x80) * 64 + (s[2] as int - 0x80)
    else if |s| == 4 then
      (s[0] as int - 0xF0) * 262144 + (s[1] as int - 0x80) * 4096 + (s[2] as int - 0x80) * 64 + (s[3] as int - 0x80)
    else -1
  }

  /** Leading byte of a well-formed sequence of this length, and continuation bytes after it. */
  predicate Utf8Shaped(s: Bytes) {
    && 1 <= |s| <= 4
    && (if |s| == 1 then s[0] < 0x80 else if |s| == 2 then 0xC2 <= s[0] <= 0xDF
        else if |s| == 3 then 0xE0 <= s[0] <= 0xEF else 0xF0 <= s[0] <= 0xF4)
    && forall i :: 1 <= i < |s| ==> 0x80 <= s[i] <= 0xBF
  }

  /** Encoding is inverted by decoding, and is never longer than needed. */
  lemma Utf8Inverse(cp: nat)
    requires cp < 0x11_0000
    ensures Utf8Shaped(Utf8(cp)) && FromUtf8(Utf8(cp)) == cp
    ensures |Utf8(cp)| == if cp < 0x80 then 1 else if cp < 0x800 then 2 else if cp < 0x1_0000 then 3 else 4
  {
    assert cp == cp / 64 * 64 + cp % 64;
    assert cp / 64 == cp / 64 / 64 * 64 + cp / 64 % 64 && cp / 64 / 64 == cp / 4096;
    assert cp / 4096 == cp / 4096 / 64 * 64 + cp / 4096 % 64 && cp / 4096 / 64 == cp / 262144;
  }

  /** The mask arithmetic of the encoder: a continuation byte is the low six bits under the mark 10. */
  lemma Continuation(cp: nat)
    ensures And(Or(cp, 0x80), 0xBF) == 0x80 + cp % 64
  {
    Powers();
    MarkSet(cp, 6);
  }

  /** The mark of a first byte and the bits left over do not meet. */
  lemma Leading(cp: nat, mark: nat)
    requires (mark == 0xC0 && cp < 32) || (mark == 0xE0 && cp < 16) || (mark == 0xF0 && cp < 8)
    ensures And(Or(cp, mark), 0xFF) == mark + cp
  {
    hide And, Or, Pow2;
    Powers();
    if mark == 0xC0 {
      OrAdds(6, cp, 5);
    } else if mark == 0xE0 {
      OrAdds(14, cp, 4);
    } else {
      OrAdds(30, cp, 3);
    }
    OrSym(cp, mark);
    LowBits(mark + cp, 8);
  }

  lemma SevenBits(cp: nat)
    requires cp < 0x80
    ensures And(cp, 0x7F) == cp
  {
    hide And, Pow2;
    Powers();
    LowBits(cp, 7);
  }

  /** The code point of a surrogate pair. */
  lemma PairBits(first: nat, second: nat)
    ensures Or(And(first, 0x3FF) * 1024, And(second, 0x3FF)) == first % 1024 * 1024 + second % 1024
  {
    Powers();
    LowBits(first, 10);
    LowBits(second, 10);
    OrAdds(first % 1024, second % 1024, 10);
  }

  method EncodeUtf8(codepoint: nat) returns (out: Bytes)
    requires codepoint < 0x11_0000
    ensures out == Utf8(codepoint)
  {
    hide And, Or;
    var cp: nat, length: nat, mark: nat := codepoint, 1, 0;
    if cp < 0x80 {
      length := 1;
    } else if cp < 0x800 {
      length, mark := 2, 0xC0;
    } else if cp < 0x1_0000 {
      length, mark := 3, 0xE0;
    } else {
      length, mark := 4, 0xF0;
    }
    out := [];
    var position := length - 1;
    while position > 0
      invariant 0 <= position < length && |out| == length - 1 - position
      invariant cp == if |out| == 0 then codepoint else if |out| == 1 then codepoint / 64
                      else if |out| == 2 then codepoint / 4096 else codepoint / 262144
      invariant |out| >= 1 ==> out[|out| - 1] == 0x80 + codepoint % 64
      invariant |out| >= 2 ==> out[|out| - 2] == 0x80 + codepoint / 64 % 64
      invariant |out| >= 3 ==> out[|out| - 3] == 0x80 + codepoint / 4096 % 64
    {
      Continuation(cp);
      out := [And(Or(cp, 0x80), 0xBF)] + out;
      cp := cp / 64;
      position := position - 1;
    }
    if length > 1 {
      Leading(cp, mark);
      out := [And(Or(cp, mark), 0xFF)] + out;
    } else {
      SevenBits(cp);
      out := [And(cp, 0x7F)] + out;
    }
  }

  /** Bytes written through an advancing output pointer. */
  method WriteAll(output: array<Byte>, start: nat, bytes: Bytes) returns (w: nat)
    requires start + |bytes| <= output.Length
    modifies output
    ensures w == start + |bytes| && output[..w] == old(output[..start]) + bytes
  {
    w := start;
    for k := 0 to |bytes|
      invariant w == start + k && output[..w] == old(output[..start]) + bytes[..k]
    {
      output[w] := bytes[k];
      w := w + 1;
    }
    assert bytes[..|bytes|] == bytes;
  }

  datatype Unit = Unit(bytes: Bytes, length: nat)

  predicate HighSurrogate(code: nat) {
    0xD800 <= code <= 0xDBFF
  }

  predicate LowSurrogate(code: nat) {
    0xDC00 <= code <= 0xDFFF
  }

  /** One escape of the form `\uXXXX` or a pair of them, starting at `i`; the literal ends at `end`. */
  function Utf16Literal(c: Bytes, i: nat, end: nat): (r: Option<Unit>)
    requires i < end < |c|
    ensures r.Some? ==> (r.value.length == 6 && |r.value.bytes| <= 3) || (r.value.length == 12 && |r.value.bytes| <= 4)
    ensures r.Some? ==> i + r.value.length <= end
  {
    if end - i < 6 then None
    else
      var first := Hex4(c, i + 2);
      if LowSurrogate(first) then None
      else if !HighSurrogate(first) then Some(Unit(Utf8(first), 6))
      else if end - (i + 6) < 6 then None
      else if c[i + 6] != BACKSLASH || c[i + 7] != 117 then None
      else
        var second := Hex4(c, i + 8);
        if !LowSurrogate(second) then None
        else Some(Unit(Utf8(0x1_0000 + first % 1024 * 1024 + second % 1024), 12))
  }

  /** What the character after a backslash stands for, `\u` aside. */
  function ShortEscape(b: Byte): Option<Byte> {
    if b == 98 then Some(8)
    else if b == 102 then Some(12)
    else if b == 110 then Some(NEWLINE)
    else if b == 114 then Some(RETURN)
    else if b == 116 then Some(TAB)
    else if b == QUOTE || b == BACKSLASH || b == SLASH then Some(b)
    else None
  }

  /** One step of the decoding loop at `i`. */
  function DecodeUnit(c: Bytes, i: nat, end: nat): (r: Option<Unit>)
    requires i < end < |c|
    ensures r.Some? ==> r.value.length > 0
  {
    if c[i] != BACKSLASH then Some(Unit([c[i]], 1))
    else if c[i + 1] == 117 then Utf16Literal(c, i, end)
    else
      var short := ShortEscape(c[i + 1]);
      if short.Some? then Some(Unit([short.value], 2)) else None
  }

  function Decode(c: Bytes, i: nat, end: nat): Option<Bytes>
    requires end < |c|
    decreases end - i
  {
    if i >= end then Some([])
    else
      var unit := DecodeUnit(c, i, end);
      if unit.None? then None
      else
        var rest := Decode(c, i + unit.value.length, end);
        if rest.None? then None else Some(unit.value.bytes + rest.value)
  }

  /** The first pass: where the literal that starts after `j` closes. */
  function ScanEnd(c: Bytes, j: nat): (r: Option<nat>)
    ensures r.Some? ==> j <= r.value < |c| && c[r.value] == QUOTE
    decreases |c| - j
  {
    if j >= |c| then None
    else if c[j] == QUOTE then Some(j)
    else if c[j] != BACKSLASH then ScanEnd(c, j + 1)
    else if j + 1 >= |c| then None
    else ScanEnd(c, j + 2)
  }

  datatype Parsed<T> = Fail | Ok(value: T, off: nat)

  /** A string literal at `off`: its decoded bytes and the offset after the closing quote. */
  function ParseString(c: Bytes, off: nat): (r: Parsed<Bytes>)
    requires off < |c|
    ensures r.Ok? ==> off < r.off <= |c| && c[r.off - 1] == QUOTE
  {
    if c[off] != QUOTE then Fail
    else
      var end := ScanEnd(c, off + 1);
      if end.None? then Fail
      else
        var s := Decode(c, off + 1, end.value);
        if s.None? then Fail else Ok(s.value, end.value + 1)
  }

  // ---------------------------------------------------------------------------------------------
  // Literals with legal escapes (section 7 of RFC 8259)

  /** The hex digits by their values, in either case. */
  const LOWER: Bytes := [48, 49, 50, 51, 52, 53, 54, 55, 56, 57, 97, 98, 99, 100, 101, 102]
  const UPPER: Bytes := [48, 49, 50, 51, 52, 53, 54, 55, 56, 57, 65, 66, 67, 68, 69, 70]

  predicate SpellsDigit(b: Byte, d: nat) {
    d < 16 && (b == LOWER[d] || b == UPPER[d])
  }

  /** Four hex digits, the highest first, that write `n`. */
  predicate Spells(hex: Bytes, n: nat) {
    && |hex| == 4 && n < 0x1_0000
    && SpellsDigit(hex[0], n / 4096) && SpellsDigit(hex[1], n / 256 % 16)
    && SpellsDigit(hex[2], n / 16 % 16) && SpellsDigit(hex[3], n % 16)
  }

  /** The letters of the short escapes, and what they stand for: backspace, form feed, line feed, carriage return, tab,
      and three characters that stand for themselves. */
  const LETTERS: Bytes := [98, 102, 110, 114, 116, 34, 92, 47]
  const MEANINGS: Bytes := [8, 12, 10, 13, 9, 34, 92, 47]

  datatype Piece =
    | Raw(b: Byte)
    | Short(k: nat)
    | Code(cp: nat, hex: Bytes)
    | Pair(cp: nat, high: Bytes, low: Bytes)
    | Garbled(four: Bytes)

  /** Whether four bytes are hex digits in either case. */
  predicate FourHex(h: Bytes) {
    |h| == 4 && HexByte(h[0]) && HexByte(h[1]) && HexByte(h[2]) && HexByte(h[3])
  }

  predicate HexByte(b: Byte) {
    48 <= b <= 57 || 65 <= b <= 70 || 97 <= b <= 102
  }

  predicate LegalPiece(p: Piece) {
    match p
    case Raw(b) => b != 34 && b != 92
    case Short(k) => k < 8
    case Code(cp, hex) => Spells(hex, cp) && !(0xD800 <= cp < 0xE000)
    case Pair(cp, high, low) =>
      && 0x1_0000 <= cp < 0x11_0000
      && Spells(high, 0xD800 + (cp - 0x1_0000) / 1024) && Spells(low, 0xDC00 + (cp - 0x1_0000) % 1024)
    case Garbled(_) => false
  }

  /** How a piece is written. */
  function Render(p: Piece): (r: Bytes)
    ensures |r| > 0
  {
    match p
    case Raw(b) => [b]
    case Short(k) => if k < 8 then [92, LETTERS[k]] else [92]
    case Code(_, hex) => [92, 117] + hex
    case Pair(_, high, low) => [92, 117] + high + [92, 117] + low
    case Garbled(four) => [92, 117] + four
  }

  /** What a piece stands for. */
  function Meaning(p: Piece): Bytes {
    match p
    case Raw(b) => [b]
    case Short(k) => if k < 8 then [MEANINGS[k]] else []
    case Code(cp, _) => if cp < 0x11_0000 then Utf8(cp) else []
    case Pair(cp, _, _) => if cp < 0x11_0000 then Utf8(cp) else []
    case Garbled(_) => [0]
  }

  lemma DigitIs(b: Byte, d: nat)
    ensures SpellsDigit(b, d) <==> HexValue(b) == d
  {
  }

  lemma HexIs(b: Byte)
    ensures IsHex(b) <==> HexByte(b)
    ensures IsHex(b) ==> 0 <= HexValue(b) < 16
  {
  }

  /** Every spelling of a code by four hex digits, and nothing else, reads as that code. */
  lemma Hex4Is(hex: Bytes, n: nat)
    requires |hex| == 4
    ensures Spells(hex, n) <==> FourHex(hex) && Hex4(hex, 0) == n
    ensures !FourHex(hex) ==> Hex4(hex, 0) == 0
  {
    hide HexValue, SpellsDigit;
    HexDigits(hex);
    DigitIs(hex[0], n / 4096);
    DigitIs(hex[1], n / 256 % 16);
    DigitIs(hex[2], n / 16 % 16);
    DigitIs(hex[3], n % 16);
    DigitsBack(n);
    if FourHex(hex) {
      DigitsOf(HexValue(hex[0]), HexValue(hex[1]), HexValue(hex[2]), HexValue(hex[3]));
    }
  }

  lemma HexDigits(hex: Bytes)
    requires |hex| == 4
    ensures FourHex(hex) <==> IsHex(hex[0]) && IsHex(hex[1]) && IsHex(hex[2]) && IsHex(hex[3])
    ensures FourHex(hex) ==>
      && 0 <= HexValue(hex[0]) < 16 && 0 <= HexValue(hex[1]) < 16 && 0 <= HexValue(hex[2]) < 16 && 0 <= HexValue(hex[3]) < 16
  {
    hide HexByte, IsHex, HexValue;
    HexIs(hex[0]);
    HexIs(hex[1]);
    HexIs(hex[2]);
    HexIs(hex[3]);
  }

  lemma DigitsBack(n: nat)
    ensures n / 4096 * 4096 + n / 256 % 16 * 256 + n / 16 % 16 * 16 + n % 16 == n
  {
    assert n == n / 16 * 16 + n % 16;
    assert n / 16 == n / 256 * 16 + n / 16 % 16;
    assert n / 256 == n / 4096 * 16 + n / 256 % 16;
  }

  lemma DigitsOf(a: int, b: int, c: int, d: int)
    requires 0 <= a < 16 && 0 <= b < 16 && 0 <= c < 16 && 0 <= d < 16
    ensures var n := a * 4096 + b * 256 + c * 16 + d;
      0 <= n < 0x1_0000 && n / 4096 == a && n / 256 % 16 == b && n / 16 % 16 == c && n % 16 == d
  {
    LastDigit(a * 256 + b * 16 + c, d);
    LastDigit(a * 16 + b, c);
    LastDigit(a, b);
  }

  lemma LastDigit(n: int, d: int)
    requires n >= 0 && 0 <= d < 16
    ensures (n * 16 + d) / 16 == n && (n * 16 + d) % 16 == d
  {
  }

  lemma ScanFour(c: Bytes, j: nat, hex: Bytes)
    requires FourHex(hex) && Found(c, j, hex)
    ensures ScanEnd(c, j) == ScanEnd(c, j + 4)
  {
    hide Found;
    FoundAt(c, j, hex, 0);
    FoundAt(c, j, hex, 1);
    FoundAt(c, j, hex, 2);
    FoundAt(c, j, hex, 3);
    assert ScanEnd(c, j) == ScanEnd(c, j + 1) && ScanEnd(c, j + 1) == ScanEnd(c, j + 2);
    assert ScanEnd(c, j + 2) == ScanEnd(c, j + 3) && ScanEnd(c, j + 3) == ScanEnd(c, j + 4);
  }

  /** The first pass steps over a legal piece. */
  lemma ScanPiece(c: Bytes, j: nat, p: Piece)
    requires LegalPiece(p) && Found(c, j, Render(p))
    ensures ScanEnd(c, j) == ScanEnd(c, j + |Render(p)|)
  {
    hide Found, SpellsDigit, FourHex, Hex4;
    FoundAt(c, j, Render(p), 0);
    match p
    case Raw(b) =>
    case Short(k) => FoundAt(c, j, Render(p), 1);
    case Code(cp, hex) =>
      Hex4Is(hex, cp);
      FoundJoin(c, j, [BACKSLASH, 117], hex);
      ScanFour(c, j + 2, hex);
    case Pair(cp, high, low) =>
      Hex4Is(high, 0xD800 + (cp - 0x1_0000) / 1024);
      Hex4Is(low, 0xDC00 + (cp - 0x1_0000) % 1024);
      ScanPair(c, j, high, low);
  }

  lemma ScanPair(c: Bytes, j: nat, high: Bytes, low: Bytes)
    requires FourHex(high) && FourHex(low) && |high| == 4 && |low| == 4
    requires Found(c, j, [BACKSLASH, 117] + high + [BACKSLASH, 117] + low)
    ensures ScanEnd(c, j) == ScanEnd(c, j + 12)
  {
    hide Found, FourHex;
    FoundJoin(c, j, [BACKSLASH, 117] + high + [BACKSLASH, 117], low);
    FoundJoin(c, j, [BACKSLASH, 117] + high, [BACKSLASH, 117]);
    FoundJoin(c, j, [BACKSLASH, 117], high);
    FoundAt(c, j, [BACKSLASH, 117], 0);
    FoundAt(c, j + 6, [BACKSLASH, 117], 0);
    ScanFour(c, j + 2, high);
    ScanFour(c, j + 8, low);
  }

  lemma Hex4Found(c: Bytes, i: nat, hex: Bytes)
    requires |hex| == 4 && Found(c, i, hex)
    ensures Hex4(c, i) == Hex4(hex, 0)
  {
    FoundAt(c, i, hex, 0);
    FoundAt(c, i, hex, 1);
    FoundAt(c, i, hex, 2);
    FoundAt(c, i, hex, 3);
  }

  lemma DecodeCode(c: Bytes, i: nat, end: nat, hex: Bytes, cp: nat)
    requires |hex| == 4 && Hex4(hex, 0) == cp && !HighSurrogate(cp) && !LowSurrogate(cp)
    requires Found(c, i, [BACKSLASH, 117] + hex) && i + 6 <= end < |c|
    ensures DecodeUnit(c, i, end) == Some(Unit(Utf8(cp), 6))
  {
    hide Found, Hex4;
    FoundJoin(c, i, [BACKSLASH, 117], hex);
    FoundAt(c, i, [BACKSLASH, 117], 0);
    FoundAt(c, i, [BACKSLASH, 117], 1);
    Hex4Found(c, i + 2, hex);
    assert Utf16Literal(c, i, end) == Some(Unit(Utf8(cp), 6));
  }

  lemma DecodePair(c: Bytes, i: nat, end: nat, high: Bytes, low: Bytes)
    requires |high| == 4 && |low| == 4 && i + 12 <= end < |c|
    requires HighSurrogate(Hex4(high, 0)) && LowSurrogate(Hex4(low, 0))
    requires Found(c, i, [BACKSLASH, 117] + high + [BACKSLASH, 117] + low)
    ensures DecodeUnit(c, i, end) == Some(Unit(Utf8(0x1_0000 + Hex4(high, 0) % 1024 * 1024 + Hex4(low, 0) % 1024), 12))
  {
    hide Found, Utf8, HexValue, IsHex, Flat;
    FoundJoin(c, i, [BACKSLASH, 117] + high + [BACKSLASH, 117], low);
    FoundJoin(c, i, [BACKSLASH, 117] + high, [BACKSLASH, 117]);
    FoundJoin(c, i, [BACKSLASH, 117], high);
    FoundAt(c, i, [BACKSLASH, 117], 0);
    FoundAt(c, i, [BACKSLASH, 117], 1);
    FoundAt(c, i + 6, [BACKSLASH, 117], 0);
    FoundAt(c, i + 6, [BACKSLASH, 117], 1);
    Hex4Found(c, i + 2, high);
    Hex4Found(c, i + 8, low);
    assert Utf16Literal(c, i, end) ==
      Some(Unit(Utf8(0x1_0000 + Hex4(c, i + 2) % 1024 * 1024 + Hex4(c, i + 8) % 1024), 12));
  }

  /** The halves of a code point beyond the 16-bit ones. */
  lemma Surrogates(cp: nat)
    requires 0x1_0000 <= cp < 0x11_0000
    ensures var high, low := 0xD800 + (cp - 0x1_0000) / 1024, 0xDC00 + (cp - 0x1_0000) % 1024;
      HighSurrogate(high) && LowSurrogate(low) && 0x1_0000 + high % 1024 * 1024 + low % 1024 == cp
  {
  }

  lemma ShortIs(k: nat)
    requires k < 8
    ensures LETTERS[k] != 117 && ShortEscape(LETTERS[k]) == Some(MEANINGS[k])
  {
  }

  lemma DecodeShort(c: Bytes, i: nat, end: nat, k: nat)
    requires k < 8 && Found(c, i, [BACKSLASH, LETTERS[k]]) && i + 2 <= end < |c|
    ensures DecodeUnit(c, i, end) == Some(Unit([MEANINGS[k]], 2))
  {
    hide Found, ShortEscape;
    FoundAt(c, i, [BACKSLASH, LETTERS[k]], 0);
    FoundAt(c, i, [BACKSLASH, LETTERS[k]], 1);
    ShortIs(k);
  }

  /** The second pass turns a legal piece into its meaning. */
  lemma DecodePiece(c: Bytes, i: nat, end: nat, p: Piece)
    requires LegalPiece(p) && Found(c, i, Render(p)) && i + |Render(p)| <= end < |c|
    ensures DecodeUnit(c, i, end) == Some(Unit(Meaning(p), |Render(p)|))
  {
    hide Found, Hex4, Utf8, SpellsDigit, FourHex;
    match p
    case Raw(b) => FoundAt(c, i, [b], 0);
    case Short(k) => DecodeShort(c, i, end, k);
    case Code(cp, hex) =>
      Hex4Is(hex, cp);
      DecodeCode(c, i, end, hex, cp);
    case Pair(cp, high, low) =>
      Hex4Is(high, 0xD800 + (cp - 0x1_0000) / 1024);
      Hex4Is(low, 0xDC00 + (cp - 0x1_0000) % 1024);
      Surrogates(cp);
      DecodePair(c, i, end, high, low);
  }

  predicate LegalLiteral(ps: seq<Piece>) {
    forall i :: 0 <= i < |ps| ==> LegalPiece(ps[i])
  }

  lemma {:induction false} ScanPieces(c: Bytes, j: nat, ps: seq<Piece>)
    requires LegalLiteral(ps) && Found(c, j, Flat(Render, ps) + [QUOTE])
    ensures ScanEnd(c, j) == Some(j + |Flat(Render, ps)|)
    decreases |ps|
  {
    hide Found, Render, LegalPiece;
    if ps == [] {
      FoundAt(c, j, Flat(Render, ps) + [QUOTE], 0);
    } else {
      FlatFirst(Render, ps);
      var first, rest := Render(ps[0]), Flat(Render, ps[1..]);
      assert Flat(Render, ps) + [QUOTE] == first + (rest + [QUOTE]);
      FoundJoin(c, j, first, rest + [QUOTE]);
      ScanPiece(c, j, ps[0]);
      ScanPieces(c, j + |first|, ps[1..]);
    }
  }

  lemma {:induction false} DecodePieces(c: Bytes, i: nat, end: nat, ps: seq<Piece>)
    requires LegalLiteral(ps) && Found(c, i, Flat(Render, ps)) && i + |Flat(Render, ps)| == end < |c|
    ensures Decode(c, i, end) == Some(Flat(Meaning, ps))
    decreases |ps|
  {
    hide Render, Meaning, LegalPiece, DecodeUnit;
    if ps != [] {
      FlatFirst(Render, ps);
      FlatFirst(Meaning, ps);
      FoundJoin(c, i, Render(ps[0]), Flat(Render, ps[1..]));
      DecodePiece(c, i, end, ps[0]);
      DecodePieces(c, i + |Render(ps[0])|, end, ps[1..]);
    }
  }

  /** A literal with legal escapes parses to the raw bytes interleaved with the UTF-8 form of each escaped code
      point. */
  lemma LiteralParses(c: Bytes, off: nat, ps: seq<Piece>)
    requires LegalLiteral(ps) && Found(c, off, [QUOTE] + Flat(Render, ps) + [QUOTE])
    ensures ParseString(c, off) == Ok(Flat(Meaning, ps), off + |Flat(Render, ps)| + 2)
  {
    hide Found, Flat, Render, Meaning, LegalPiece, ScanEnd, Decode;
    var body := Flat(Render, ps);
    QuotedFound(c, off, body);
    ScanPieces(c, off + 1, ps);
    DecodePieces(c, off + 1, off + 1 + |body|, ps);
  }

  lemma QuotedFound(c: Bytes, off: nat, body: Bytes)
    requires Found(c, off, [QUOTE] + body + [QUOTE])
    ensures off + |body| + 2 <= |c| && c[off] == QUOTE
    ensures Found(c, off + 1, body + [QUOTE]) && Found(c, off + 1, body)
  {
    assert [QUOTE] + body + [QUOTE] == [QUOTE] + (body + [QUOTE]);
    FoundJoin(c, off, [QUOTE], body + [QUOTE]);
    FoundAt(c, off, [QUOTE], 0);
    FoundJoin(c, off + 1, body, [QUOTE]);
  }

  // ---------------------------------------------------------------------------------------------
  // What is taken for a literal

  /** Legal pieces, and one more: four bytes that are not all hex digits are taken for the code 0. Behind such bytes a
      quote may be read that does not close the literal. */
  predicate TakenPiece(p: Piece) {
    LegalPiece(p) || (p.Raw? && p.b != 92) || (p.Garbled? && |p.four| == 4 && !FourHex(p.four))
  }

  predicate TakenLiteral(ps: seq<Piece>) {
    forall i :: 0 <= i < |ps| ==> TakenPiece(ps[i])
  }

  lemma LetterOf(b: Byte) returns (k: nat)
    requires ShortEscape(b).Some?
    ensures k < 8 && LETTERS[k] == b && [ShortEscape(b).value] == [MEANINGS[k]]
  {
    k := if b == 98 then 0 else if b == 102 then 1 else if b == 110 then 2 else if b == 114 then 3
         else if b == 116 then 4 else if b == 34 then 5 else if b == 92 then 6 else 7;
  }

  lemma TakenCode(c: Bytes, i: nat, end: nat) returns (p: Piece)
    requires i + 1 < end < |c| && c[i] == BACKSLASH && c[i + 1] == 117 && Utf16Literal(c, i, end).Some?
    requires Utf16Literal(c, i, end).value.length == 6
    ensures TakenPiece(p) && Found(c, i, Render(p)) && Utf16Literal(c, i, end) == Some(Unit(Meaning(p), |Render(p)|))
  {
    hide Hex4, Spells, FourHex, Utf8;
    var hex := c[i + 2..i + 6];
    var cp := Hex4(c, i + 2);
    Hex4Found(c, i + 2, hex);
    Hex4Is(hex, cp);
    p := if FourHex(hex) then Code(cp, hex) else Garbled(hex);
    ZeroCode();
    assert c[i..i + 6] == [92, 117] + hex;
  }

  lemma ZeroCode()
    ensures Utf8(0) == [0]
  {
  }

  lemma TakenPair(c: Bytes, i: nat, end: nat) returns (p: Piece)
    requires i + 1 < end < |c| && c[i] == BACKSLASH && c[i + 1] == 117 && Utf16Literal(c, i, end).Some?
    requires Utf16Literal(c, i, end).value.length == 12
    ensures TakenPiece(p) && Found(c, i, Render(p)) && Utf16Literal(c, i, end) == Some(Unit(Meaning(p), |Render(p)|))
  {
    hide Hex4, Spells, FourHex, Utf8;
    var high, low := c[i + 2..i + 6], c[i + 8..i + 12];
    var first, second := Hex4(c, i + 2), Hex4(c, i + 8);
    var cp := 0x1_0000 + first % 1024 * 1024 + second % 1024;
    Hex4Found(c, i + 2, high);
    Hex4Found(c, i + 8, low);
    Hex4Is(high, first);
    Hex4Is(low, second);
    SurrogatesBack(first, second);
    p := Pair(cp, high, low);
    assert c[i..i + 12] == [92, 117] + high + [92, 117] + low;
  }

  lemma SurrogatesBack(high: nat, low: nat)
    requires HighSurrogate(high) && LowSurrogate(low)
    ensures var cp := 0x1_0000 + high % 1024 * 1024 + low % 1024;
      0x1_0000 <= cp < 0x11_0000 && high == 0xD800 + (cp - 0x1_0000) / 1024 && low == 0xDC00 + (cp - 0x1_0000) % 1024
  {
  }

  /** One step of the second pass has read a piece. */
  lemma TakenUnit(c: Bytes, i: nat, end: nat) returns (p: Piece)
    requires i < end < |c| && DecodeUnit(c, i, end).Some?
    ensures TakenPiece(p) && Found(c, i, Render(p)) && DecodeUnit(c, i, end) == Some(Unit(Meaning(p), |Render(p)|))
  {
    hide ShortEscape, Utf16Literal, Hex4, Spells, FourHex, Utf8;
    if c[i] != BACKSLASH {
      p := Raw(c[i]);
      assert c[i..i + 1] == [c[i]];
    } else if c[i + 1] == 117 {
      CodeInside(c, i, end);
      if Utf16Literal(c, i, end).value.length == 6 {
        p := TakenCode(c, i, end);
      } else {
        p := TakenPair(c, i, end);
      }
    } else {
      var k := LetterOf(c[i + 1]);
      p := Short(k);
      assert c[i..i + 2] == [92, LETTERS[k]];
    }
  }

  lemma CodeInside(c: Bytes, i: nat, end: nat)
    requires i < end < |c| && Utf16Literal(c, i, end).Some?
    ensures i + 6 <= end && Utf16Literal(c, i, end).value.length in {6, 12}
  {
  }

  /** Whatever the second pass decodes is a sequence of pieces, and their meanings are what it makes of them. */
  lemma {:induction false} TakenPieces(c: Bytes, i: nat, end: nat) returns (ps: seq<Piece>)
    requires i <= |c| && end < |c| && Decode(c, i, end).Some?
    ensures TakenLiteral(ps) && Found(c, i, Flat(Render, ps)) && Decode(c, i, end) == Some(Flat(Meaning, ps))
    ensures i <= end + 1 ==> end <= i + |Flat(Render, ps)| <= end + 1
    decreases end - i
  {
    hide Found, Render, Meaning, TakenPiece, DecodeUnit, TakenLiteral, Flat;
    ps := [];
    if i >= end {
      EmptyFound(c, i);
    } else {
      var p := TakenUnit(c, i, end);
      UnitInside(c, i, end);
      FoundLength(c, i, Render(p));
      var rest := TakenPieces(c, i + |Render(p)|, end);
      ps := [p] + rest;
      FlatCons(Render, p, rest);
      FlatCons(Meaning, p, rest);
      TakenCons(p, rest);
      FoundJoin(c, i, Render(p), Flat(Render, rest));
    }
  }

  lemma FlatCons(f: Piece -> Bytes, p: Piece, rest: seq<Piece>)
    ensures Flat(f, [p] + rest) == f(p) + Flat(f, rest)
  {
    FlatFirst(f, [p] + rest);
    assert ([p] + rest)[1..] == rest;
  }

  lemma TakenCons(p: Piece, rest: seq<Piece>)
    requires TakenPiece(p) && TakenLiteral(rest)
    ensures TakenLiteral([p] + rest)
  {
    hide TakenPiece;
  }

  lemma UnitInside(c: Bytes, i: nat, end: nat)
    requires i < end < |c| && DecodeUnit(c, i, end).Some?
    ensures i + DecodeUnit(c, i, end).value.length <= end + 1
  {
    hide Hex4, ShortEscape, Utf8;
  }

  lemma EmptyFound(c: Bytes, i: nat)
    requires i <= |c|
    ensures Found(c, i, Flat(Render, [])) && Flat(Render, []) == [] && Flat(Meaning, []) == [] && TakenLiteral([])
  {
  }

  lemma FoundLength(c: Bytes, i: nat, part: Bytes)
    requires Found(c, i, part)
    ensures i + |part| <= |c|
  {
  }

  /** A literal that parses opens with a quote, is read as pieces with the meaning returned, and ends behind a quote. */
  lemma ParsedLiteral(c: Bytes, off: nat) returns (ps: seq<Piece>)
    requires off < |c| && ParseString(c, off).Ok?
    ensures var r := ParseString(c, off);
      && c[off] == 34 && off + 2 <= r.off <= |c| && c[r.off - 1] == 34
      && TakenLiteral(ps) && Found(c, off + 1, Flat(Render, ps)) && r.value == Flat(Meaning, ps)
      && r.off - 2 <= off + |Flat(Render, ps)| <= r.off - 1
  {
    hide Found, Render, Meaning, TakenPiece, Decode, Flat;
    ps := TakenPieces(c, off + 1, ScanEnd(c, off + 1).value);
  }

  // ---------------------------------------------------------------------------------------------
  // Printed strings

  function PieceOf(b: Byte): Piece {
    if b > 31 && b != QUOTE && b != BACKSLASH then Raw(b)
    else if b == QUOTE then Short(5)
    else if b == BACKSLASH then Short(6)
    else if b == 8 then Short(0)
    else if b == 12 then Short(1)
    else if b == NEWLINE then Short(2)
    else if b == RETURN then Short(3)
    else if b == TAB then Short(4)
    else Code(b, [48, 48, LOWER[b / 16], LOWER[b % 16]])
  }

  function PiecesOf(s: Bytes): seq<Piece> {
    if s == [] then [] else PiecesOf(s[..|s| - 1]) + [PieceOf(s[|s| - 1])]
  }

  lemma EscapeIsPiece(b: Byte)
    ensures LegalPiece(PieceOf(b)) && Render(PieceOf(b)) == Escape(b) && Meaning(PieceOf(b)) == [b]
  {
    hide LegalPiece, HexDigit, SpellsDigit, Utf8;
    if PieceOf(b).Code? {
      ControlPiece(b);
    } else {
      PlainPiece(PieceOf(b));
    }
  }

  lemma PlainPiece(p: Piece)
    ensures p.Raw? && p.b != QUOTE && p.b != BACKSLASH ==> LegalPiece(p)
    ensures p.Short? && p.k < 8 ==> LegalPiece(p)
  {
  }

  lemma ControlPiece(b: Byte)
    requires b < 32
    ensures HexDigit(b / 16) == LOWER[b / 16] && HexDigit(b % 16) == LOWER[b % 16]
    ensures LegalPiece(Code(b, [48, 48, LOWER[b / 16], LOWER[b % 16]])) && Utf8(b) == [b]
  {
    assert b / 4096 == 0 && b / 256 % 16 == 0 && b / 16 % 16 == b / 16;
    LowerSpells(b / 16);
    LowerSpells(b % 16);
    LowerSpells(0);
  }

  lemma LowerSpells(d: nat)
    requires d < 16
    ensures SpellsDigit(LOWER[d], d) && HexDigit(d) == LOWER[d] && LOWER[0] == 48
  {
  }

  lemma {:induction false} EscapeIsPieces(s: Bytes)
    ensures LegalLiteral(PiecesOf(s))
    ensures Flat(Render, PiecesOf(s)) == Flat(Escape, s) && Flat(Meaning, PiecesOf(s)) == s
  {
    hide LegalPiece, PieceOf, Escape, Render, Meaning, Utf8;
    if s != [] {
      hide LegalLiteral, Flat;
      var n := |s| - 1;
      EscapeIsPieces(s[..n]);
      EscapeLast(s[..n], s[n], PiecesOf(s[..n]));
      assert s[..n] + [s[n]] == s;
    }
  }

  lemma EscapeLast(s: Bytes, b: Byte, ps: seq<Piece>)
    requires LegalLiteral(ps) && Flat(Render, ps) == Flat(Escape, s) && Flat(Meaning, ps) == s
    ensures LegalLiteral(ps + [PieceOf(b)])
    ensures Flat(Render, ps + [PieceOf(b)]) == Flat(Escape, s + [b])
    ensures Flat(Meaning, ps + [PieceOf(b)]) == s + [b]
  {
    hide LegalPiece, PieceOf, Escape, Render, Meaning, Flat;
    var p := PieceOf(b);
    EscapeIsPiece(b);
    FlatLast(Render, ps, p);
    FlatLast(Meaning, ps, p);
    FlatLast(Escape, s, b);
  }

  /** Whatever bytes a string holds, its printed form parses back to it. */
  lemma QuotedParses(c: Bytes, off: nat, s: Bytes)
    requires Found(c, off, Quoted(s))
    ensures ParseString(c, off) == Ok(s, off + |Quoted(s)|)
  {
    EscapeIsPieces(s);
    LiteralParses(c, off, PiecesOf(s));
  }
}
