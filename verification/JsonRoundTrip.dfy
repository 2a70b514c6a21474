/** A print is a text of the grammar, so parsing it gives the value back, exactly up to the nesting limit
    (utils/cJSON/cJSON.c). */
module JsonRoundTrip {
  import opened JsonTypes
  import opened JsonString
  import opened JsonNumber
  import opened JsonText
  import opened JsonGrammar
  import opened Flats

  // ---------------------------------------------------------------------------------------------
  // The text a print is

  function Quote(s: Bytes): Lit {
    Lit(Flat(Render, PiecesOf(s)), PiecesOf(s))
  }

  function DocOf(v: Json, fmt: bool, d: nat): Doc
    decreases v, 1
  {
    match v
    case Number(num) => Figure(IntegerText(num))
    case Text(s) => Literal(Quote(s))
    case Array(items) => if items.NoItems? then NoElements([]) else Elements(ElementsOf(items, fmt, d + 1, []))
    case Object(members) =>
      if members.NoMembers? then NoFields(When(fmt, [NEWLINE]) + When(fmt, Tabs(d))) else Fields(FieldsOf(members, fmt, d))
    case _ => Word(v)
  }

  function ElementsOf(items: Items, fmt: bool, d: nat, before: Bytes): ElementDocs
    requires items.Item?
    decreases items, 0
  {
    if items.tail.NoItems? then LastElement(before, DocOf(items.head, fmt, d), [])
    else Element(before, DocOf(items.head, fmt, d), [], ElementsOf(items.tail, fmt, d, When(fmt, [SPACE])))
  }

  /** The members of an object at depth `d`. */
  function FieldsOf(m: Members, fmt: bool, d: nat): FieldDocs
    requires m.Member?
    decreases m, 0
  {
    var before, tab := When(fmt, [NEWLINE]) + When(fmt, Tabs(d + 1)), When(fmt, [TAB]);
    if m.rest.NoMembers?
    then LastField(before, Quote(m.name), [], tab, DocOf(m.value, fmt, d + 1), When(fmt, [NEWLINE]) + When(fmt, Tabs(d)))
    else Field(before, Quote(m.name), [], tab, DocOf(m.value, fmt, d + 1), [], FieldsOf(m.rest, fmt, d))
  }

  lemma QuotePrints(s: Bytes)
    ensures LitText(Quote(s)) == Quoted(s) && LitOk(Quote(s), true) && Flat(Meaning, Quote(s).ps) == s
  {
    hide LegalLiteral, Flat, PiecesOf;
    EscapeIsPieces(s);
    assert [34] + (Flat(Escape, s) + [34]) == [34] + Flat(Escape, s) + [34];
  }

  lemma WhitePrints(fmt: bool, d: nat)
    ensures White(When(fmt, [NEWLINE]) + When(fmt, Tabs(d))) && White(When(fmt, [TAB])) && White(When(fmt, [SPACE]))
  {
  }

  /** The print is the text, the text is legal, and it stands for the value. */
  lemma {:induction false} PrintIsText(v: Json, fmt: bool, d: nat)
    requires Printable(v)
    ensures var doc := DocOf(v, fmt, d); DocText(doc) == PrintValue(v, fmt, d) && DocOk(doc, true) && DocValue(doc) == v
    decreases v, 1
  {
    hide LitOk, Flat, Quoted, NumBytes, PrintNum, IntegerText, PlainInteger, Quote, Tabs, NumOf, NumOk, LitText, PrintArray,
      PrintObject, ElementsOf, FieldsOf, ElementsText, FieldsText, ElementsOk, FieldsOk, ElementsValue, FieldsValue;
    match v
    case Number(num) => IntegerOk(num);
    case Text(s) => QuotePrints(s);
    case Array(items) => ArrayIsText(items, fmt, d);
    case Object(members) => ObjectIsText(members, fmt, d);
    case _ =>
  }

  lemma {:induction false} ArrayIsText(items: Items, fmt: bool, d: nat)
    requires PrintableItems(items)
    ensures items.NoItems? ==> PrintArray(items, fmt, d) == [91] + ([] + [93])
    ensures items.Item? ==>
      var e := ElementsOf(items, fmt, d + 1, []);
      [91] + ElementsText(e) == PrintArray(items, fmt, d) && ElementsOk(e, true) && ElementsValue(e) == items
    decreases items, 1
  {
    hide ElementsText, ElementsOk, ElementsValue, ElementsOf;
    if items.Item? {
      ItemsAreText(items, fmt, d + 1, []);
      assert [] + (PrintItems(items, fmt, d + 1) + [93]) == PrintItems(items, fmt, d + 1) + [93];
    }
  }

  lemma {:induction false} ObjectIsText(members: Members, fmt: bool, d: nat)
    requires PrintableMembers(members)
    ensures members.NoMembers? ==>
      var inside := When(fmt, [NEWLINE]) + When(fmt, Tabs(d));
      White(inside) && PrintObject(members, fmt, d) == [123] + (inside + [125])
    ensures members.Member? ==>
      var f := FieldsOf(members, fmt, d);
      [123] + FieldsText(f) == PrintObject(members, fmt, d) && FieldsOk(f, true) && FieldsValue(f) == members
    decreases members, 1
  {
    hide FieldsText, FieldsOk, FieldsValue, FieldsOf, Tabs, White;
    WhitePrints(fmt, d);
    if members.Member? {
      MembersAreText(members, fmt, d);
      ObjectShape(When(fmt, [NEWLINE]), PrintMembers(members, fmt, d + 1), ObjectEnd(fmt, d));
    } else {
      assert [] + ObjectEnd(fmt, d) == ObjectEnd(fmt, d);
      ObjectShape(When(fmt, [NEWLINE]), When(fmt, Tabs(d)), [125]);
    }
  }

  lemma ObjectShape(line: Bytes, body: Bytes, end: Bytes)
    ensures [123] + line + (body + end) == [123] + (line + (body + end)) == [123] + (line + body + end)
  {
  }

  lemma IntegerOk(num: Num)
    requires PlainInteger(num)
    ensures var n := IntegerText(num); NumOk(n) && NumBytes(n) == PrintNum(num) && NumOf(n) == num
  {
    hide NumBytes, PrintNum, NumOf, LegalNum;
    PrintedNumber(num);
  }

  lemma {:induction false} ItemsAreText(items: Items, fmt: bool, d: nat, before: Bytes)
    requires items.Item? && PrintableItems(items) && White(before)
    ensures var e := ElementsOf(items, fmt, d, before);
      ElementsText(e) == before + (PrintItems(items, fmt, d) + [93]) && ElementsOk(e, true) && ElementsValue(e) == items
    decreases items, 0
  {
    hide DocText, DocOk, DocValue, PrintValue, Printable;
    var text := PrintValue(items.head, fmt, d);
    PrintIsText(items.head, fmt, d);
    if items.tail.NoItems? {
      assert text + ([] + [93]) == text + [93];
    } else {
      WhitePrints(fmt, 0);
      ItemsAreText(items.tail, fmt, d, When(fmt, [SPACE]));
      ItemsShape(text, When(fmt, [SPACE]), PrintItems(items.tail, fmt, d));
    }
  }

  lemma ItemsShape(text: Bytes, space: Bytes, more: Bytes)
    ensures text + ([] + ([44] + (space + (more + [93])))) == text + ([44] + space + more) + [93]
  {
  }

  lemma {:induction false} MembersAreText(m: Members, fmt: bool, d: nat)
    requires m.Member? && PrintableMembers(m)
    ensures var f := FieldsOf(m, fmt, d);
      && FieldsText(f) == When(fmt, [NEWLINE]) + (PrintMembers(m, fmt, d + 1) + ObjectEnd(fmt, d))
      && FieldsOk(f, true) && FieldsValue(f) == m
    decreases m, 0
  {
    hide DocText, DocOk, DocValue, PrintValue, Printable, Quote, Quoted, LitText, LitOk, Tabs, Flat;
    PrintIsText(m.value, fmt, d + 1);
    QuotePrints(m.name);
    WhitePrints(fmt, d);
    WhitePrints(fmt, d + 1);
    var line, tabs, ends, tab := When(fmt, [NEWLINE]), When(fmt, Tabs(d + 1)), When(fmt, Tabs(d)), When(fmt, [TAB]);
    var name, value := Quoted(m.name), PrintValue(m.value, fmt, d + 1);
    if m.rest.NoMembers? {
      LastShape(line, tabs, name, tab, value, ends);
    } else {
      MembersAreText(m.rest, fmt, d);
      MoreShape(line, tabs, name, tab, value, PrintMembers(m.rest, fmt, d + 1) + ObjectEnd(fmt, d));
      RestShape(tabs + (name + ([58] + tab)), value, [44] + line, PrintMembers(m.rest, fmt, d + 1), ObjectEnd(fmt, d));
    }
  }

  lemma LastShape(line: Bytes, tabs: Bytes, name: Bytes, tab: Bytes, value: Bytes, ends: Bytes)
    ensures (line + tabs) + (name + ([] + ([58] + (tab + (value + ((line + ends) + [125]))))))
         == line + ((tabs + (name + ([58] + tab)) + (value + (([] + line) + []))) + (ends + [125]))
  {
  }

  lemma MoreShape(line: Bytes, tabs: Bytes, name: Bytes, tab: Bytes, value: Bytes, more: Bytes)
    ensures (line + tabs) + (name + ([] + ([58] + (tab + (value + ([] + ([44] + (line + more))))))))
         == line + ((tabs + (name + ([58] + tab))) + (value + (([44] + line) + more)))
  {
  }

  lemma RestShape(head: Bytes, value: Bytes, comma: Bytes, members: Bytes, end: Bytes)
    ensures head + (value + (comma + (members + end))) == (head + (value + (comma + members))) + end
  {
  }

  // ---------------------------------------------------------------------------------------------
  // Back and forth

  /** A print inside any buffer parses to its value, unless it is nested too deeply. */
  lemma ValueParses(c: Bytes, off: nat, v: Json, fmt: bool, d: nat, depth: nat)
    requires Terminated(c) && Printable(v) && Found(c, off, PrintValue(v, fmt, d)) && depth <= 1000
    requires off + |PrintValue(v, fmt, d)| < |c| && (v.Number? ==> EndsNumber(c[off + |PrintValue(v, fmt, d)|]))
    ensures ParsesTo(ParseValue(c, off, depth), v, off + |PrintValue(v, fmt, d)|, depth + Nesting(v))
  {
    hide ParseValue, PrintValue, Printable, Found, Nesting, DocText, DocValue, DocOk;
    PrintIsText(v, fmt, d);
    DocParses(c, off, DocOf(v, fmt, d), depth);
  }

  /** Parsing either print of a printable value gives the value back if and only if it is nested no deeper than the
      limit; otherwise parsing fails. */
  lemma RoundTrip(v: Json, fmt: bool)
    requires Printable(v)
    ensures Parse(PrintValue(v, fmt, 0)) == if Nesting(v) <= 1000 then Some(v) else None
  {
    hide ParseOpts, PrintValue, Printable, DocText, DocValue, DocOk;
    PrintIsText(v, fmt, 0);
    TextParsed([], DocOf(v, fmt, 0), []);
    var text := PrintValue(v, fmt, 0);
    assert [] + text + [] == text;
  }

  /** The same with anything behind the print that does not go on as a number: the end is reported behind the print,
      and a parse of the whole text succeeds if and only if nothing but white space follows. */
  lemma TailParses(v: Json, fmt: bool, tail: Bytes)
    requires Printable(v) && Nesting(v) <= 1000 && (v.Number? && tail != [] ==> EndsNumber(tail[0])) && 0 !in tail
    ensures var text := PrintValue(v, fmt, 0) + tail;
      && ParseOpts(text, false) == Some((v, |text| - |tail|))
      && ParseOpts(text, true) == if White(tail) then Some((v, |text|)) else None
  {
    hide ParseOpts, PrintValue, Printable, DocText, DocValue, DocOk;
    PrintIsText(v, fmt, 0);
    TextParsed([], DocOf(v, fmt, 0), tail);
    assert [] + PrintValue(v, fmt, 0) + tail == PrintValue(v, fmt, 0) + tail;
  }
}
