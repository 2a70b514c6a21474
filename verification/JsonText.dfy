/** Printing and parsing whole values (utils/cJSON/cJSON.c, print_value and parse_value with their helpers). */
module JsonText {
  import opened JsonTypes
  import opened JsonString
  import opened JsonNumber

  // ---------------------------------------------------------------------------------------------
  // Printing

  function Tabs(n: nat): (r: Bytes)
    ensures |r| == n && forall i :: 0 <= i < n ==> r[i] == TAB
  {
    if n == 0 then [] else [TAB] + Tabs(n - 1)
  }

  /** `s` in a formatted print, nothing otherwise. */
  function When(fmt: bool, s: Bytes): Bytes {
    if fmt then s else []
  }

  /** The three keywords. */
  function Keyword(v: Json): (r: Bytes)
    ensures |r| > 0 && r[0] > 32
  {
    if v.True? then TRUE_TEXT else if v.False? then FALSE_TEXT else NULL_TEXT
  }

  function PrintValue(v: Json, fmt: bool, depth: nat): (r: Bytes)
    ensures |r| > 0 && r[0] > 32
    decreases v, 2
  {
    match v
    case Number(num) => PrintNum(num)
    case Text(s) => Quoted(s)
    case Array(items) => PrintArray(items, fmt, depth)
    case Object(members) => PrintObject(members, fmt, depth)
    case _ => Keyword(v)
  }

  function PrintArray(items: Items, fmt: bool, depth: nat): (r: Bytes)
    ensures |r| > 0 && r[0] == OPEN_BRACKET
    decreases items, 1
  {
    [OPEN_BRACKET] + (PrintItems(items, fmt, depth + 1) + [CLOSE_BRACKET])
  }

  function PrintObject(members: Members, fmt: bool, depth: nat): (r: Bytes)
    ensures |r| > 0 && r[0] == OPEN_BRACE
    decreases members, 1
  {
    ObjectStart(fmt) + (PrintMembers(members, fmt, depth + 1) + ObjectEnd(fmt, depth))
  }

  function ObjectStart(fmt: bool): (r: Bytes)
    ensures |r| > 0 && r[0] == OPEN_BRACE
  {
    [OPEN_BRACE] + When(fmt, [NEWLINE])
  }

  function PrintItems(items: Items, fmt: bool, depth: nat): Bytes
    decreases items, 0
  {
    match items
    case NoItems => []
    case Item(head, tail) =>
      if tail.NoItems? then PrintValue(head, fmt, depth)
      else PrintValue(head, fmt, depth) + (Separator(fmt) + PrintItems(tail, fmt, depth))
  }

  function Separator(fmt: bool): Bytes {
    [COMMA] + When(fmt, [SPACE])
  }

  function PrintMembers(members: Members, fmt: bool, depth: nat): Bytes
    decreases members, 0
  {
    match members
    case NoMembers => []
    case Member(name, value, rest) =>
      PrintName(name, fmt, depth) + (PrintValue(value, fmt, depth) + (MemberEnd(rest, fmt) + PrintMembers(rest, fmt, depth)))
  }

  function ObjectEnd(fmt: bool, depth: nat): Bytes {
    When(fmt, Tabs(depth)) + [CLOSE_BRACE]
  }

  function PrintName(name: Bytes, fmt: bool, depth: nat): Bytes {
    When(fmt, Tabs(depth)) + (Quoted(name) + Colon(fmt))
  }

  function Colon(fmt: bool): Bytes {
    [COLON] + When(fmt, [TAB])
  }

  /** A comma if more members follow, and a line end in a formatted print. */
  function MemberEnd(rest: Members, fmt: bool): Bytes {
    (if rest.NoMembers? then [] else [COMMA]) + When(fmt, [NEWLINE])
  }

  // ---------------------------------------------------------------------------------------------
  // Parsing

  /** The buffer a parse works on: a string with its terminating zero byte. */
  ghost predicate Terminated(c: Bytes) {
    |c| > 0 && c[|c| - 1] == 0
  }

  function SkipFrom(c: Bytes, off: nat): (r: nat)
    requires off <= |c|
    ensures off <= r <= |c| && (r < |c| ==> c[r] > 32)
    decreases |c| - off
  {
    if off < |c| && c[off] <= 32 then SkipFrom(c, off + 1) else off
  }

  /** White space is skipped; a skip that runs off the buffer steps back onto its last byte. */
  function Skip(c: Bytes, off: nat): (r: nat)
    requires Terminated(c) && off < |c|
    ensures off <= r < |c|
  {
    var r := SkipFrom(c, off);
    if r == |c| then r - 1 else r
  }

  /** A keyword ends before the terminator. */
  lemma WordInside(c: Bytes, off: nat, word: Bytes)
    requires Terminated(c) && Found(c, off, word) && word in {NULL_TEXT, FALSE_TEXT, TRUE_TEXT}
    ensures off + |word| < |c|
  {
    FoundAt(c, off, word, |word| - 1);
  }

  function ParseValue(c: Bytes, off: nat, depth: nat): (r: Parsed<Json>)
    requires Terminated(c) && off < |c|
    ensures r.Ok? ==> off < r.off < |c|
    decreases |c| - off, 1
  {
    if Found(c, off, NULL_TEXT) then WordInside(c, off, NULL_TEXT); Ok(Null, off + 4)
    else if Found(c, off, FALSE_TEXT) then WordInside(c, off, FALSE_TEXT); Ok(False, off + 5)
    else if Found(c, off, TRUE_TEXT) then WordInside(c, off, TRUE_TEXT); Ok(True, off + 4)
    else if c[off] == QUOTE then
      var s := ParseString(c, off);
      if s.Fail? then Fail else Ok(Text(s.value), s.off)
    else if c[off] == MINUS || IsDigit(c[off]) then
      var n := ParseNumber(c, off);
      if n.Fail? then Fail else Ok(Number(n.value), n.off)
    else if c[off] == OPEN_BRACKET then ParseArray(c, off, depth)
    else if c[off] == OPEN_BRACE then ParseObject(c, off, depth)
    else Fail
  }

  function ParseArray(c: Bytes, off: nat, depth: nat): (r: Parsed<Json>)
    requires Terminated(c) && off < |c| && c[off] == OPEN_BRACKET
    ensures r.Ok? ==> off < r.off < |c|
    decreases |c| - off, 0
  {
    if depth >= NESTING_LIMIT then Fail
    else
      var start := Skip(c, off + 1);
      if c[start] == CLOSE_BRACKET then Ok(Array(NoItems), start + 1)
      else
        var items := ParseItems(c, start, depth + 1);
        if items.Fail? then Fail else Ok(Array(items.value), items.off)
  }

  /** The elements from `off` on, up to and including the closing bracket. */
  function ParseItems(c: Bytes, off: nat, depth: nat): (r: Parsed<Items>)
    requires Terminated(c) && off < |c|
    ensures r.Ok? ==> off < r.off < |c|
    decreases |c| - off, 2
  {
    var head := ParseValue(c, Skip(c, off), depth);
    if head.Fail? then Fail else AfterItem(c, head.value, head.off, depth)
  }

  /** What follows an element: a comma and more elements, or the closing bracket. */
  function AfterItem(c: Bytes, head: Json, off: nat, depth: nat): (r: Parsed<Items>)
    requires Terminated(c) && off < |c|
    ensures r.Ok? ==> off < r.off < |c|
    decreases |c| - off, 3
  {
    var next := Skip(c, off);
    if c[next] == COMMA then
      var tail := ParseItems(c, next + 1, depth);
      if tail.Fail? then Fail else Ok(Item(head, tail.value), tail.off)
    else if c[next] == CLOSE_BRACKET then Ok(Item(head, NoItems), next + 1)
    else Fail
  }

  function ParseObject(c: Bytes, off: nat, depth: nat): (r: Parsed<Json>)
    requires Terminated(c) && off < |c| && c[off] == OPEN_BRACE
    ensures r.Ok? ==> off < r.off < |c|
    decreases |c| - off, 0
  {
    if depth >= NESTING_LIMIT then Fail
    else
      var start := Skip(c, off + 1);
      if c[start] == CLOSE_BRACE then Ok(Object(NoMembers), start + 1)
      else
        var members := ParseMembers(c, start, depth + 1);
        if members.Fail? then Fail else Ok(Object(members.value), members.off)
  }

  /** The members from `off` on, up to and including the closing brace. */
  function ParseMembers(c: Bytes, off: nat, depth: nat): (r: Parsed<Members>)
    requires Terminated(c) && off < |c|
    ensures r.Ok? ==> off < r.off < |c|
    decreases |c| - off, 2
  {
    var name := ParseString(c, Skip(c, off));
    if name.Fail? then Fail else AfterName(c, name.value, name.off, depth)
  }

  function AfterName(c: Bytes, name: Bytes, off: nat, depth: nat): (r: Parsed<Members>)
    requires Terminated(c) && off < |c|
    ensures r.Ok? ==> off < r.off < |c|
    decreases |c| - off, 2
  {
    var colon := Skip(c, off);
    if c[colon] != COLON then Fail
    else
      var value := ParseValue(c, Skip(c, colon + 1), depth);
      if value.Fail? then Fail else AfterMember(c, name, value.value, value.off, depth)
  }

  /** What follows a member: a comma and more members, or the closing brace. */
  function AfterMember(c: Bytes, name: Bytes, value: Json, off: nat, depth: nat): (r: Parsed<Members>)
    requires Terminated(c) && off < |c|
    ensures r.Ok? ==> off < r.off < |c|
    decreases |c| - off, 3
  {
    var next := Skip(c, off);
    if c[next] == COMMA then
      var rest := ParseMembers(c, next + 1, depth);
      if rest.Fail? then Fail else Ok(Member(name, value, rest.value), rest.off)
    else if c[next] == CLOSE_BRACE then Ok(Member(name, value, NoMembers), next + 1)
    else Fail
  }

  /** `cJSON_ParseWithOpts` on a C string: the value and where the parse ended. If the whole text is wanted, white space
      is skipped and nothing but the terminator may follow. */
  function ParseOpts(text: Bytes, whole: bool): Option<(Json, nat)> {
    var c := text + [0];
    var r := ParseValue(c, Skip(c, 0), 0);
    if r.Fail? then None
    else if !whole then Some((r.value, r.off))
    else
      var end := Skip(c, r.off);
      if c[end] == 0 then Some((r.value, end)) else None
  }

  /** `cJSON_Parse`. */
  function Parse(text: Bytes): Option<Json> {
    var r := ParseOpts(text, false);
    if r.Some? then Some(r.value.0) else None
  }
}
