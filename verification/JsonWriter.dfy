/** The print buffer at work: values appended to a growing text (utils/cJSON/cJSON.c, printbuffer). */
module JsonWriter {
  import opened JsonTypes
  import opened JsonString
  import opened JsonNumber
  import opened JsonText
  import opened Flats

  /** Nodes in a tree, for termination of the mutual recursion. */
  function Weight(v: Json): nat {
    match v
    case Array(items) => 1 + WeightItems(items)
    case Object(members) => 1 + WeightMembers(members)
    case _ => 0
  }

  function WeightItems(items: Items): nat {
    match items
    case NoItems => 0
    case Item(head, tail) => 1 + Weight(head) + WeightItems(tail)
  }

  function WeightMembers(members: Members): nat {
    match members
    case NoMembers => 0
    case Member(_, value, rest) => 1 + Weight(value) + WeightMembers(rest)
  }

  // ---------------------------------------------------------------------------------------------
  // The size the first pass over a string computes

  lemma {:induction false} FlatGrows(s: Bytes, i: nat)
    requires i <= |s|
    ensures |Flat(Escape, s[..i])| <= |Flat(Escape, s)|
    decreases |s| - i
  {
    if i == |s| {
      assert s[..i] == s;
    } else {
      FlatUpTo(s, i);
      FlatGrows(s, i + 1);
    }
  }

  lemma FlatUpTo(s: Bytes, i: nat)
    requires i < |s|
    ensures Flat(Escape, s[..i + 1]) == Flat(Escape, s[..i]) + Escape(s[i])
  {
    assert s[..i + 1] == s[..i] + [s[i]];
    FlatLast(Escape, s[..i], s[i]);
  }

  /** A string whose printed form is no longer than itself needs no escape. */
  lemma {:induction false} NothingEscaped(s: Bytes)
    ensures |Flat(Escape, s)| >= |s|
    ensures |Flat(Escape, s)| == |s| ==> Flat(Escape, s) == s
  {
    if s != [] {
      var n := |s| - 1;
      FlatUpTo(s, n);
      assert s[..n + 1] == s && s == s[..n] + [s[n]];
      NothingEscaped(s[..n]);
    }
  }

  // ---------------------------------------------------------------------------------------------

  class Writer {
    const format: bool
    var out: Bytes
    var depth: nat

    constructor (format: bool)
      ensures this.format == format && out == [] && depth == 0
    {
      this.format := format;
      out := [];
      depth := 0;
    }

    method Put(part: Bytes)
      modifies `out
      ensures out == old(out) + part
    {
      out := out + part;
    }

    method PutTabs(n: nat)
      modifies `out
      ensures out == old(out) + When(format, Tabs(n))
    {
      if format {
        var tabs := [];
        for i := 0 to n
          invariant tabs == Tabs(i)
        {
          tabs := [TAB] + tabs;
        }
        out := out + tabs;
      } else {
        assert out + [] == out;
      }
    }

    /** How many bytes the escapes add. */
    method CountEscapes(s: Bytes) returns (escapes: nat)
      ensures |s| + escapes == |Flat(Escape, s)|
    {
      escapes := 0;
      for i := 0 to |s|
        invariant i + escapes == |Flat(Escape, s[..i])|
      {
        FlatUpTo(s, i);
        if s[i] == QUOTE || s[i] == BACKSLASH || s[i] == 8 || s[i] == 12 || s[i] == NEWLINE || s[i] == RETURN || s[i] == TAB {
          escapes := escapes + 1;
        } else if s[i] < 32 {
          escapes := escapes + 5;
        }
      }
      assert s[..|s|] == s;
    }

    /** The copy loop fills exactly the space the first pass computed. */
    method EscapeInto(s: Bytes, output: array<Byte>)
      requires output.Length == |Flat(Escape, s)| + 3
      modifies output
      ensures output[..] == Quoted(s) + [0]
    {
      hide HexDigit, Escape;
      output[0] := QUOTE;
      var w := 1;
      for i := 0 to |s|
        invariant w == 1 + |Flat(Escape, s[..i])| && w + 1 < output.Length
        invariant output[..w] == [QUOTE] + Flat(Escape, s[..i])
      {
        FlatUpTo(s, i);
        FlatGrows(s, i + 1);
        ghost var before := output[..w];
        w := WriteAll(output, w, Escape(s[i]));
        assert before + Escape(s[i]) == [QUOTE] + (Flat(Escape, s[..i]) + Escape(s[i]));
      }
      assert s[..|s|] == s;
      output[w] := QUOTE;
      assert output[..w + 1] == output[..w] + [QUOTE];
      output[w + 1] := 0;
      assert output[..] == output[..w + 1] + [0];
    }

    method PrintString(s: Bytes)
      modifies `out
      ensures out == old(out) + Quoted(s)
    {
      var escapes := CountEscapes(s);
      if escapes == 0 {
        NothingEscaped(s);
        Put([QUOTE] + s + [QUOTE]);
        return;
      }
      var output := new Byte[|s| + escapes + 3];
      EscapeInto(s, output);
      assert output[..output.Length - 1] == Quoted(s);
      Put(output[..output.Length - 1]);
    }

    method PrintValue(v: Json)
      modifies this
      ensures out == old(out) + JsonText.PrintValue(v, format, old(depth)) && depth == old(depth)
      decreases Weight(v), 1
    {
      match v
      case Number(num) => Put(PrintNum(num));
      case Text(s) => PrintString(s);
      case Array(items) => PrintArray(items);
      case Object(members) => PrintObject(members);
      case _ => Put(Keyword(v));
    }

    method PrintArray(items: Items)
      modifies this
      ensures out == old(out) + JsonText.PrintArray(items, format, old(depth)) && depth == old(depth)
      decreases WeightItems(items), 2
    {
      hide JsonText.PrintArray, JsonText.PrintValue, PrintItems, Quoted;
      Put([OPEN_BRACKET]);
      depth := depth + 1;
      var current := items;
      ghost var whole := out + PrintItems(items, format, depth);
      while current.Item?
        invariant depth == old(depth) + 1 && WeightItems(current) <= WeightItems(items)
        invariant out + PrintItems(current, format, depth) == whole
        decreases WeightItems(current)
      {
        ghost var before := out;
        PrintValue(current.head);
        if current.tail.Item? {
          Put([COMMA]);
          if format {
            Put([SPACE]);
          }
        }
        ItemPrinted(before, current, format, depth, out);
        current := current.tail;
      }
      NoneLeft(format, depth);
      assert out + [] == out;
      Put([CLOSE_BRACKET]);
      depth := depth - 1;
      ArrayPrinted(old(out), items, format, depth, out);
    }

    method PrintName(name: Bytes)
      modifies `out
      ensures out == old(out) + JsonText.PrintName(name, format, depth)
    {
      hide Tabs, Quoted;
      PutTabs(depth);
      PrintString(name);
      Put([COLON]);
      if format {
        Put([TAB]);
      }
      assert out == old(out) + (When(format, Tabs(depth)) + (Quoted(name) + Colon(format)));
    }

    /** One member with its separator, and the line end of a formatted print. */
    method PrintMember(m: Members)
      requires m.Member?
      modifies this
      ensures out + PrintMembers(m.rest, format, depth) == old(out) + PrintMembers(m, format, depth)
      ensures depth == old(depth)
      decreases WeightMembers(m), 2
    {
      PrintName(m.name);
      PrintValue(m.value);
      if m.rest.Member? {
        Put([COMMA]);
      }
      if format {
        Put([NEWLINE]);
      }
      MemberPrinted(old(out), m, format, depth, out);
    }

    method PrintObject(members: Members)
      modifies this
      ensures out == old(out) + JsonText.PrintObject(members, format, old(depth)) && depth == old(depth)
      decreases WeightMembers(members), 3
    {
      hide Tabs, PrintMembers, JsonText.PrintObject, MemberEnd;
      Put([OPEN_BRACE]);
      depth := depth + 1;
      if format {
        Put([NEWLINE]);
      }
      var current := members;
      assert out == old(out) + ObjectStart(format);
      ghost var whole := out + PrintMembers(members, format, depth);
      while current.Member?
        invariant depth == old(depth) + 1 && WeightMembers(current) <= WeightMembers(members)
        invariant out + PrintMembers(current, format, depth) == whole
        decreases WeightMembers(current)
      {
        PrintMember(current);
        current := current.rest;
      }
      NoneLeft(format, depth);
      assert out + [] == out;
      PutTabs(depth - 1);
      Put([CLOSE_BRACE]);
      depth := depth - 1;
      ObjectPrinted(old(out), members, format, depth, out);
    }
  }

  lemma NoneLeft(fmt: bool, d: nat)
    ensures PrintItems(NoItems, fmt, d) == [] && PrintMembers(NoMembers, fmt, d) == []
  {
  }

  lemma ItemPrinted(before: Bytes, items: Items, fmt: bool, d: nat, out: Bytes)
    requires items.Item?
    requires var text := before + PrintValue(items.head, fmt, d);
      out == if items.tail.Item? then text + [COMMA] + When(fmt, [SPACE]) else text
    ensures out + PrintItems(items.tail, fmt, d) == before + PrintItems(items, fmt, d)
  {
    hide PrintValue;
    if items.tail.Item? {
      assert out == before + (PrintValue(items.head, fmt, d) + Separator(fmt));
    }
  }

  lemma ArrayPrinted(before: Bytes, items: Items, fmt: bool, d: nat, out: Bytes)
    requires out == before + [OPEN_BRACKET] + PrintItems(items, fmt, d + 1) + [CLOSE_BRACKET]
    ensures out == before + PrintArray(items, fmt, d)
  {
    hide PrintItems;
  }

  lemma MemberPrinted(before: Bytes, m: Members, fmt: bool, d: nat, out: Bytes)
    requires m.Member?
    requires out == before + PrintName(m.name, fmt, d) + PrintValue(m.value, fmt, d) + MemberEnd(m.rest, fmt)
    ensures out + PrintMembers(m.rest, fmt, d) == before + PrintMembers(m, fmt, d)
  {
    hide PrintValue, PrintName, MemberEnd;
  }

  lemma ObjectPrinted(before: Bytes, members: Members, fmt: bool, d: nat, out: Bytes)
    requires out == before + ObjectStart(fmt) + PrintMembers(members, fmt, d + 1) + When(fmt, Tabs(d)) + [CLOSE_BRACE]
    ensures out == before + PrintObject(members, fmt, d)
  {
    hide PrintMembers, Tabs;
  }

  /** `cJSON_Print` and `cJSON_PrintUnformatted` with their buffer are the specified prints. */
  method PrintText(v: Json, fmt: bool) returns (text: Bytes)
    ensures text == PrintValue(v, fmt, 0)
  {
    var writer := new Writer(fmt);
    writer.PrintValue(v);
    text := writer.out;
    assert [] + PrintValue(v, fmt, 0) == PrintValue(v, fmt, 0);
  }
}
