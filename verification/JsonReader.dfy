/** The parse buffer at work: reading values with a moving offset (utils/cJSON/cJSON.c, parse_buffer). */
module JsonReader {
  import opened Bits
  import opened JsonTypes
  import opened JsonString
  import opened JsonNumber
  import opened JsonText

  // ---------------------------------------------------------------------------------------------
  // The room a decoded literal needs

  /** How many backslashes the first pass counts before position `i` when it starts at `j`. */
  function Skipped(c: Bytes, j: nat, i: nat): (r: nat)
    requires i <= |c|
    decreases i - j
  {
    if j >= i then 0 else if c[j] == BACKSLASH then 1 + Skipped(c, j + 2, i) else Skipped(c, j + 1, i)
  }

  /** Among `k` further positions at most every other one is counted, and none if the first is no backslash. */
  lemma {:induction false} SkippedWindow(c: Bytes, j: nat, i: nat, k: nat)
    requires j <= i + 1 && i + k <= |c|
    ensures Skipped(c, j, i) <= Skipped(c, j, i + k)
    ensures j <= i ==> Skipped(c, j, i + k) <= Skipped(c, j, i) + (k + 1) / 2
    ensures j > i ==> Skipped(c, j, i + k) <= k / 2
    ensures k == 1 && c[i] != BACKSLASH ==> Skipped(c, j, i + k) == Skipped(c, j, i)
    decreases i + k - j, j > i
  {
    if j < i {
      SkippedWindow(c, if c[j] == BACKSLASH then j + 2 else j + 1, i, k);
    } else if j < i + k {
      if j == i {
        if c[j] == BACKSLASH && k >= 2 {
          SkippedWindow(c, j + 2, i + 2, k - 2);
        } else {
          SkippedWindow(c, j + 1, i + 1, k - 1);
        }
      } else {
        SkippedWindow(c, j, i + 1, k - 1);
      }
    }
  }

  /** The first pass sizes the output so: the literal's length with its quote, without the counted backslashes, and
      a byte for the terminator. */
  function Room(c: Bytes, off: nat, end: nat): int
    requires end <= |c|
  {
    end - off - Skipped(c, off + 1, end) + 1
  }

  /** With `i` the read position and `w` the bytes written, the terminator still fits. */
  ghost predicate Fits(c: Bytes, off: nat, i: nat, w: nat) {
    off < i <= |c| && w + Skipped(c, off + 1, i) <= i - (off + 1)
  }

  /** A decoded unit keeps the balance: what it writes and the backslashes counted in it do not exceed its length. */
  lemma UnitFits(c: Bytes, off: nat, i: nat, w: nat, end: nat)
    requires Fits(c, off, i, w) && i < end < |c| && DecodeUnit(c, i, end).Some?
    ensures var u := DecodeUnit(c, i, end).value; Fits(c, off, i + u.length, w + |u.bytes|)
  {
    SkippedWindow(c, off + 1, i, DecodeUnit(c, i, end).value.length);
  }

  /** What fits at a read position at most one past the closing quote fits into the room. */
  lemma FitsRoom(c: Bytes, off: nat, i: nat, w: nat, end: nat)
    requires Fits(c, off, i, w) && i <= end + 1 <= |c| && off < end && c[end] == QUOTE
    ensures w + 1 <= Room(c, off, end)
  {
    SkippedWindow(c, off + 1, i, end + 1 - i);
    SkippedWindow(c, off + 1, end, 1);
  }

  // ---------------------------------------------------------------------------------------------
  // Elements read so far

  /** The outcome for a list whose last element is read. */
  function Closed<T>(closed: bool, list: T, off: nat): Parsed<T> {
    if closed then Ok(list, off) else Fail
  }

  /** One element is read and put behind the others: a comma leads on to more, anything else ends the list. */
  lemma ItemRead(c: Bytes, list: seq<Json>, v: Json, at: nat, end: nat, depth: nat)
    requires Terminated(c) && at < |c| && end < |c| && JsonText.ParseValue(c, Skip(c, at), depth) == Ok(v, end)
    ensures var next := Skip(c, end);
      AfterItems(list, ParseItems(c, at, depth)) ==
      if c[next] == COMMA then AfterItems(list + [v], ParseItems(c, next + 1, depth))
      else Closed(c[next] == CLOSE_BRACKET, ItemsOf(list + [v], NoItems), next + 1)
  {
    hide Skip, JsonText.ParseValue;
    var next := Skip(c, end);
    ItemsOfLast(list, v, NoItems);
    if c[next] == COMMA {
      var rest := ParseItems(c, next + 1, depth);
      if rest.Ok? {
        ItemsOfLast(list, v, rest.value);
      }
    }
  }

  /** An element that fails ends the list with it. */
  lemma ItemRefused(c: Bytes, list: seq<Json>, at: nat, depth: nat)
    requires Terminated(c) && at < |c| && JsonText.ParseValue(c, Skip(c, at), depth).Fail?
    ensures AfterItems(list, ParseItems(c, at, depth)) == Fail
  {
    hide Skip, JsonText.ParseValue;
  }

  lemma MemberRead(c: Bytes, list: seq<(Bytes, Json)>, name: Bytes, v: Json, off: nat, depth: nat)
    requires Terminated(c) && off < |c|
    ensures var next := Skip(c, off);
      AfterMembers(list, AfterMember(c, name, v, off, depth)) ==
      if c[next] == COMMA then AfterMembers(list + [(name, v)], ParseMembers(c, next + 1, depth))
      else Closed(c[next] == CLOSE_BRACE, MembersOf(list + [(name, v)], NoMembers), next + 1)
  {
    hide Skip;
    var next := Skip(c, off);
    MembersOfLast(list, (name, v), NoMembers);
    if c[next] == COMMA {
      var rest := ParseMembers(c, next + 1, depth);
      if rest.Ok? {
        MembersOfLast(list, (name, v), rest.value);
      }
    }
  }

  function ItemsOf(s: seq<Json>, tail: Items): Items {
    if s == [] then tail else Item(s[0], ItemsOf(s[1..], tail))
  }

  /** The outcome for a whole list, of which `s` is read and `r` is the outcome for the rest. */
  function AfterItems(s: seq<Json>, r: Parsed<Items>): Parsed<Items> {
    if r.Fail? then Fail else Ok(ItemsOf(s, r.value), r.off)
  }

  lemma NothingRead(r: Parsed<Items>)
    ensures AfterItems([], r) == r
  {
  }

  lemma {:induction false} ItemsOfLast(s: seq<Json>, v: Json, tail: Items)
    ensures ItemsOf(s + [v], tail) == ItemsOf(s, Item(v, tail))
  {
    if s == [] {
      assert [v][1..] == [];
    } else {
      assert (s + [v])[1..] == s[1..] + [v];
      ItemsOfLast(s[1..], v, tail);
    }
  }

  function MembersOf(s: seq<(Bytes, Json)>, tail: Members): Members {
    if s == [] then tail else Member(s[0].0, s[0].1, MembersOf(s[1..], tail))
  }

  function AfterMembers(s: seq<(Bytes, Json)>, r: Parsed<Members>): Parsed<Members> {
    if r.Fail? then Fail else Ok(MembersOf(s, r.value), r.off)
  }

  lemma {:induction false} MembersOfLast(s: seq<(Bytes, Json)>, m: (Bytes, Json), tail: Members)
    ensures MembersOf(s + [m], tail) == MembersOf(s, Member(m.0, m.1, tail))
  {
    if s == [] {
      assert [m][1..] == [];
    } else {
      assert (s + [m])[1..] == s[1..] + [m];
      MembersOfLast(s[1..], m, tail);
    }
  }

  // ---------------------------------------------------------------------------------------------

  class Reader {
    const content: Bytes
    var offset: nat
    var depth: nat

    /** The buffer holds a C string with its terminator. */
    constructor (text: Bytes)
      ensures content == text + [0] && offset == 0 && depth == 0
    {
      content := text + [0];
      offset := 0;
      depth := 0;
    }

    ghost predicate Valid()
      reads this
    {
      Terminated(content) && offset < |content| && depth <= NESTING_LIMIT
    }

    method SkipWhitespace()
      requires Valid()
      modifies `offset
      ensures Valid() && offset == Skip(content, old(offset))
    {
      while offset < |content| && content[offset] <= 32
        invariant old(offset) <= offset <= |content|
        invariant SkipFrom(content, offset) == SkipFrom(content, old(offset))
      {
        offset := offset + 1;
      }
      if offset == |content| {
        offset := offset - 1;
      }
    }

    /** The first pass over a literal: where it ends, and how many backslashes are skipped. */
    method ScanLiteral() returns (end: nat, skipped: nat, ok: bool)
      requires Valid()
      ensures ok <==> ScanEnd(content, offset + 1).Some?
      ensures ok ==> end == ScanEnd(content, offset + 1).value && skipped == Skipped(content, offset + 1, end)
    {
      end, skipped, ok := offset + 1, 0, false;
      while end < |content| && content[end] != QUOTE
        invariant offset < end <= |content|
        invariant ScanEnd(content, end) == ScanEnd(content, offset + 1)
        invariant forall i :: end <= i <= |content| ==> Skipped(content, offset + 1, i) == skipped + Skipped(content, end, i)
        decreases |content| - end
      {
        ghost var at := end;
        if content[end] == BACKSLASH {
          if end + 1 >= |content| {
            return;
          }
          skipped := skipped + 1;
          end := end + 1;
        }
        end := end + 1;
        assert forall i :: end <= i <= |content| ==>
          Skipped(content, at, i) == (if content[at] == BACKSLASH then 1 else 0) + Skipped(content, end, i);
      }
      assert Skipped(content, end, end) == 0;
      ok := end < |content|;
    }

    /** One or two escapes of the form `\uXXXX`; a length of 0 reports failure. */
    method Utf16ToUtf8(i: nat, end: nat) returns (length: nat, bytes: Bytes)
      requires i < end < |content|
      ensures length == 0 <==> Utf16Literal(content, i, end).None?
      ensures length > 0 ==> Utf16Literal(content, i, end) == Some(Unit(bytes, length))
    {
      length, bytes := 0, [];
      if end - i < 6 {
        return;
      }
      var first := Hex4(content, i + 2);
      if LowSurrogate(first) {
        return;
      }
      if !HighSurrogate(first) {
        bytes := EncodeUtf8(first);
        length := 6;
        return;
      }
      if end - (i + 6) < 6 || content[i + 6] != BACKSLASH || content[i + 7] != 117 {
        return;
      }
      var second := Hex4(content, i + 8);
      if !LowSurrogate(second) {
        return;
      }
      PairBits(first, second);
      bytes := EncodeUtf8(0x1_0000 + Or(And(first, 0x3FF) * 1024, And(second, 0x3FF)));
      length := 12;
    }

    /** What the second pass reads at `i`: its length, 0 for an illegal escape, and the bytes it stands for. */
    method ReadUnit(i: nat, end: nat) returns (length: nat, bytes: Bytes)
      requires i < end < |content|
      ensures length == 0 <==> DecodeUnit(content, i, end).None?
      ensures length > 0 ==> DecodeUnit(content, i, end) == Some(Unit(bytes, length))
    {
      if content[i] != BACKSLASH {
        length, bytes := 1, [content[i]];
      } else if content[i + 1] == 117 {
        length, bytes := Utf16ToUtf8(i, end);
      } else {
        var short := ShortEscape(content[i + 1]);
        if short.Some? {
          length, bytes := 2, [short.value];
        } else {
          length, bytes := 0, [];
        }
      }
    }

    /** The second pass writes into an array of the size the first pass computed, and never past it. */
    method DecodeInto(output: array<Byte>, end: nat) returns (w: nat, ok: bool)
      requires Valid() && offset < end < |content| && content[end] == QUOTE
      requires output.Length == Room(content, offset, end)
      modifies output
      ensures ok <==> Decode(content, offset + 1, end).Some?
      ensures ok ==> w < output.Length && output[..w] == Decode(content, offset + 1, end).value && output[w] == 0
    {
      hide DecodeUnit;
      var i := offset + 1;
      w, ok := 0, false;
      FitsRoom(content, offset, i, 0, end);
      OntoJoin([], [], Decode(content, i, end));
      while i < end
        invariant Fits(content, offset, i, w) && i <= end + 1 && w < output.Length
        invariant Decode(content, offset + 1, end) == Onto(output[..w], Decode(content, i, end))
        decreases end - i
      {
        var length, bytes := ReadUnit(i, end);
        if length == 0 {
          return;
        }
        UnitFits(content, offset, i, w, end);
        UnitReach(content, i, end);
        FitsRoom(content, offset, i + length, w + |bytes|, end);
        OntoJoin(output[..w], bytes, Decode(content, i + length, end));
        w := WriteAll(output, w, bytes);
        i := i + length;
      }
      assert output[..w] + [] == output[..w];
      ok := true;
      output[w] := 0;
    }

    method ParseString() returns (ok: bool, s: Bytes)
      requires Valid()
      modifies `offset
      ensures ok == JsonString.ParseString(content, old(offset)).Ok?
      ensures ok ==> JsonString.ParseString(content, old(offset)) == Ok(s, offset) && Valid()
    {
      ok, s := false, [];
      if content[offset] != QUOTE {
        return;
      }
      var end, skipped, closed := ScanLiteral();
      if !closed {
        return;
      }
      FitsRoom(content, offset, offset + 1, 0, end);
      var output := new Byte[end - offset - skipped + 1];
      var w, decoded := DecodeInto(output, end);
      if !decoded {
        return;
      }
      ok, s := true, output[..w];
      offset := end + 1;
    }

    method ParseNumber() returns (ok: bool, n: Num)
      requires Valid()
      modifies `offset
      ensures ok == JsonNumber.ParseNumber(content, old(offset)).Ok?
      ensures ok ==> JsonNumber.ParseNumber(content, old(offset)) == Ok(n, offset) && Valid()
    {
      n := Num(0, 0);
      var run := CollectRun(content, offset);
      var r := Strtod(run);
      ok := r.Ok?;
      if ok {
        n := r.value;
        offset := offset + r.off;
      }
    }

    method ParseValue() returns (ok: bool, v: Json)
      requires Valid()
      modifies this
      ensures ok == JsonText.ParseValue(content, old(offset), old(depth)).Ok?
      ensures ok ==> JsonText.ParseValue(content, old(offset), old(depth)) == Ok(v, offset)
      ensures ok ==> Valid() && depth == old(depth)
      decreases |content| - offset, 1
    {
      ok, v := true, Null;
      if Found(content, offset, NULL_TEXT) {
        offset := offset + 4;
      } else if Found(content, offset, FALSE_TEXT) {
        v := False;
        offset := offset + 5;
      } else if Found(content, offset, TRUE_TEXT) {
        v := True;
        offset := offset + 4;
      } else if content[offset] == QUOTE {
        var s;
        ok, s := ParseString();
        v := Text(s);
      } else if content[offset] == MINUS || IsDigit(content[offset]) {
        var n;
        ok, n := ParseNumber();
        v := Number(n);
      } else if content[offset] == OPEN_BRACKET {
        ok, v := ParseArray();
      } else if content[offset] == OPEN_BRACE {
        ok, v := ParseObject();
      } else {
        ok := false;
      }
    }

    method ParseArray() returns (ok: bool, v: Json)
      requires Valid() && content[offset] == OPEN_BRACKET
      modifies this
      ensures ok == JsonText.ParseArray(content, old(offset), old(depth)).Ok?
      ensures ok ==> JsonText.ParseArray(content, old(offset), old(depth)) == Ok(v, offset)
      ensures ok ==> Valid() && depth == old(depth)
      decreases |content| - offset, 0
    {
      ok, v := false, Array(NoItems);
      if depth >= NESTING_LIMIT {
        return;
      }
      depth := depth + 1;
      offset := offset + 1;
      SkipWhitespace();
      if content[offset] == CLOSE_BRACKET {
        depth := depth - 1;
        offset := offset + 1;
        return true, v;
      }
      offset := offset - 1;
      var list: seq<Json>;
      ok, list := ParseElements();
      if !ok || content[offset] != CLOSE_BRACKET {
        return false, v;
      }
      depth := depth - 1;
      offset := offset + 1;
      v := Array(ItemsOf(list, NoItems));
    }

    /** The do-while loop: an element, and another one after each comma. */
    method ParseElements() returns (ok: bool, list: seq<Json>)
      requires Terminated(content) && offset + 1 < |content| && depth <= NESTING_LIMIT
      modifies this
      ensures ok ==> Valid() && depth == old(depth) && content[offset] != COMMA
      ensures ParseItems(content, old(offset) + 1, old(depth)) ==
        Closed(ok && content[offset] == CLOSE_BRACKET, ItemsOf(list, NoItems), offset + 1)
      decreases |content| - (offset + 1), 2
    {
      hide ParseItems, AfterItem, SkipFrom, JsonText.ParseValue, ItemsOf, AfterItems;
      ok, list := true, [];
      NothingRead(ParseItems(content, offset + 1, depth));
      var more := true;
      while more
        invariant Terminated(content) && depth == old(depth) && ok
        invariant old(offset) <= offset < |content| && (more ==> offset + 1 < |content|)
        invariant more ==>
          ParseItems(content, old(offset) + 1, depth) == AfterItems(list, ParseItems(content, offset + 1, depth))
        invariant !more ==> content[offset] != COMMA
        invariant !more ==>
          ParseItems(content, old(offset) + 1, depth)
          == Closed(content[offset] == CLOSE_BRACKET, ItemsOf(list, NoItems), offset + 1)
        decreases more, |content| - offset
      {
        offset := offset + 1;
        ghost var at := offset;
        SkipWhitespace();
        var v;
        ok, v := ParseValue();
        if !ok {
          ItemRefused(content, list, at, old(depth));
          return;
        }
        ghost var end := offset;
        SkipWhitespace();
        ItemRead(content, list, v, at, end, depth);
        more := content[offset] == COMMA;
        list := list + [v];
      }
    }

    method ParseObject() returns (ok: bool, v: Json)
      requires Valid() && content[offset] == OPEN_BRACE
      modifies this
      ensures ok == JsonText.ParseObject(content, old(offset), old(depth)).Ok?
      ensures ok ==> JsonText.ParseObject(content, old(offset), old(depth)) == Ok(v, offset)
      ensures ok ==> Valid() && depth == old(depth)
      decreases |content| - offset, 0
    {
      ok, v := false, Object(NoMembers);
      if depth >= NESTING_LIMIT {
        return;
      }
      depth := depth + 1;
      offset := offset + 1;
      SkipWhitespace();
      if content[offset] == CLOSE_BRACE {
        depth := depth - 1;
        offset := offset + 1;
        return true, v;
      }
      offset := offset - 1;
      var list: seq<(Bytes, Json)>;
      ok, list := ParsePairs();
      if !ok || content[offset] != CLOSE_BRACE {
        return false, v;
      }
      depth := depth - 1;
      offset := offset + 1;
      v := Object(MembersOf(list, NoMembers));
    }

    /** One name and its value. */
    method ParsePair() returns (ok: bool, name: Bytes, v: Json)
      requires Valid()
      modifies this
      ensures !ok ==> ParseMembers(content, old(offset), old(depth)).Fail?
      ensures ok ==> Valid() && depth == old(depth) && offset > old(offset)
      ensures ok ==> ParseMembers(content, old(offset), depth) == AfterMember(content, name, v, offset, depth)
      decreases |content| - offset, 2
    {
      ok, v := false, Null;
      SkipWhitespace();
      var named;
      named, name := ParseString();
      if !named {
        return;
      }
      SkipWhitespace();
      if content[offset] != COLON {
        return;
      }
      offset := offset + 1;
      SkipWhitespace();
      ok, v := ParseValue();
    }

    method ParsePairs() returns (ok: bool, list: seq<(Bytes, Json)>)
      requires Terminated(content) && offset + 1 < |content| && depth <= NESTING_LIMIT
      modifies this
      ensures ok ==> Valid() && depth == old(depth) && content[offset] != COMMA
      ensures ParseMembers(content, old(offset) + 1, old(depth)) ==
        Closed(ok && content[offset] == CLOSE_BRACE, MembersOf(list, NoMembers), offset + 1)
      decreases |content| - (offset + 1), 3
    {
      hide ParseMembers;
      ok, list := true, [];
      var more := true;
      while more
        invariant Terminated(content) && depth == old(depth) && ok
        invariant old(offset) <= offset < |content| && (more ==> offset + 1 < |content|)
        invariant more ==>
          ParseMembers(content, old(offset) + 1, depth) == AfterMembers(list, ParseMembers(content, offset + 1, depth))
        invariant !more ==> content[offset] != COMMA
        invariant !more ==>
          ParseMembers(content, old(offset) + 1, depth)
          == Closed(content[offset] == CLOSE_BRACE, MembersOf(list, NoMembers), offset + 1)
        decreases more, |content| - offset
      {
        offset := offset + 1;
        var name, v;
        ok, name, v := ParsePair();
        if !ok {
          return;
        }
        MemberRead(content, list, name, v, offset, depth);
        SkipWhitespace();
        more := content[offset] == COMMA;
        list := list + [(name, v)];
      }
    }
  }

  function Onto(part: Bytes, r: Option<Bytes>): Option<Bytes> {
    if r.None? then None else Some(part + r.value)
  }

  lemma OntoJoin(a: Bytes, b: Bytes, r: Option<Bytes>)
    ensures Onto(a, Onto(b, r)) == Onto(a + b, r) && Onto([], r) == r
  {
    if r.Some? {
      assert [] + r.value == r.value;
      assert a + (b + r.value) == a + b + r.value;
    }
  }

  /** Only an escape that begins right before the closing quote is read past it, and then by one byte. */
  lemma UnitReach(c: Bytes, i: nat, end: nat)
    requires i < end < |c| && DecodeUnit(c, i, end).Some?
    ensures i + DecodeUnit(c, i, end).value.length <= end + 1
    ensures Decode(c, i, end) == Onto(DecodeUnit(c, i, end).value.bytes, Decode(c, i + DecodeUnit(c, i, end).value.length, end))
  {
  }

  /** `cJSON_ParseWithOpts`: the value, if there is one, and the offset the caller's end pointer gets. */
  method ParseWithOpts(text: Bytes, whole: bool) returns (r: Option<Json>, end: nat)
    ensures ParseOpts(text, whole) == if r.Some? then Some((r.value, end)) else None
  {
    var reader := new Reader(text);
    reader.SkipWhitespace();
    var ok, v := reader.ParseValue();
    r, end := None, reader.offset;
    if !ok {
      return;
    }
    if whole {
      reader.SkipWhitespace();
      if reader.content[reader.offset] != 0 {
        return;
      }
    }
    r, end := Some(v), reader.offset;
  }

  /** `cJSON_Parse` with its buffer is the specified parse. */
  method ParseText(text: Bytes) returns (r: Option<Json>)
    ensures r == Parse(text)
  {
    var end;
    r, end := ParseWithOpts(text, false);
  }
}
