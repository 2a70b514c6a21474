/** JSON as a grammar (sections 2 to 7 of RFC 8259), and the parser of utils/cJSON/cJSON.c against it. */
module JsonGrammar {
  import opened JsonTypes
  import opened JsonString
  import opened JsonNumber
  import opened JsonText
  import opened Flats

  // ---------------------------------------------------------------------------------------------
  // Texts

  /** A string literal: the bytes between its quotes, and the pieces they are. */
  datatype Lit = Lit(body: Bytes, ps: seq<Piece>)

  /** A value as it is written, with the white space at every place where there may be some. */
  datatype Doc =
    | Word(v: Json)
    | Figure(n: NumText)
    | Literal(lit: Lit)
    | NoElements(inside: Bytes)
    | Elements(elements: ElementDocs)
    | NoFields(inside: Bytes)
    | Fields(fields: FieldDocs)

  datatype ElementDocs =
    | LastElement(before: Bytes, doc: Doc, after: Bytes)
    | Element(before: Bytes, doc: Doc, after: Bytes, rest: ElementDocs)

  datatype FieldDocs =
    | LastField(before: Bytes, name: Lit, toColon: Bytes, toValue: Bytes, doc: Doc, after: Bytes)
    | Field(before: Bytes, name: Lit, toColon: Bytes, toValue: Bytes, doc: Doc, after: Bytes, rest: FieldDocs)

  function WordText(v: Json): Bytes {
    if v.True? then [116, 114, 117, 101] else if v.False? then [102, 97, 108, 115, 101] else [110, 117, 108, 108]
  }

  function LitText(lit: Lit): Bytes {
    [34] + (lit.body + [34])
  }

  function DocText(doc: Doc): Bytes {
    match doc
    case Word(v) => WordText(v)
    case Figure(n) => NumBytes(n)
    case Literal(lit) => LitText(lit)
    case NoElements(inside) => [91] + (inside + [93])
    case Elements(elements) => [91] + ElementsText(elements)
    case NoFields(inside) => [123] + (inside + [125])
    case Fields(fields) => [123] + FieldsText(fields)
  }

  /** Elements up to and including the closing bracket. */
  function ElementsText(e: ElementDocs): Bytes {
    e.before + (DocText(e.doc) + (e.after + if e.LastElement? then [93] else [44] + ElementsText(e.rest)))
  }

  /** Members up to and including the closing brace. */
  function FieldsText(f: FieldDocs): Bytes {
    f.before + (LitText(f.name) + (f.toColon + ([58] + (f.toValue + FieldRest(f)))))
  }

  function FieldRest(f: FieldDocs): Bytes
    decreases f, 0
  {
    DocText(f.doc) + (f.after + if f.LastField? then [125] else [44] + FieldsText(f.rest))
  }

  // ---------------------------------------------------------------------------------------------
  // What they stand for

  function DocValue(doc: Doc): Json {
    match doc
    case Word(v) => v
    case Figure(n) => Number(NumOf(n))
    case Literal(lit) => Text(Flat(Meaning, lit.ps))
    case NoElements(_) => Array(NoItems)
    case Elements(elements) => Array(ElementsValue(elements))
    case NoFields(_) => Object(NoMembers)
    case Fields(fields) => Object(FieldsValue(fields))
  }

  function ElementsValue(e: ElementDocs): Items {
    Item(DocValue(e.doc), if e.LastElement? then NoItems else ElementsValue(e.rest))
  }

  function FieldsValue(f: FieldDocs): Members {
    Member(Flat(Meaning, f.name.ps), DocValue(f.doc), if f.LastField? then NoMembers else FieldsValue(f.rest))
  }

  // ---------------------------------------------------------------------------------------------
  // Which are legal

  predicate White(s: Bytes) {
    forall i :: 0 <= i < |s| ==> s[i] <= 32
  }

  /** With `strict` the literals of the grammar; without it whatever the program takes for a literal, which may have
      read the closing quote for a part of it. */
  predicate LitOk(lit: Lit, strict: bool) {
    if strict then LegalLiteral(lit.ps) && lit.body == Flat(Render, lit.ps)
    else TakenLiteral(lit.ps) && (lit.body == Flat(Render, lit.ps) || lit.body + [34] == Flat(Render, lit.ps))
  }

  /** A number of at most 63 characters that starts with a digit or a minus sign. */
  predicate NumOk(n: NumText) {
    LegalNum(n) && |NumBytes(n)| <= 63 && n.sign != Some(43) && (n.sign.None? ==> n.whole != [])
  }

  predicate DocOk(doc: Doc, strict: bool) {
    match doc
    case Word(v) => v.Null? || v.True? || v.False?
    case Figure(n) => NumOk(n)
    case Literal(lit) => LitOk(lit, strict)
    case NoElements(inside) => White(inside)
    case Elements(elements) => ElementsOk(elements, strict)
    case NoFields(inside) => White(inside)
    case Fields(fields) => FieldsOk(fields, strict)
  }

  predicate ElementsOk(e: ElementDocs, strict: bool) {
    White(e.before) && DocOk(e.doc, strict) && White(e.after) && (e.Element? ==> ElementsOk(e.rest, strict))
  }

  predicate FieldsOk(f: FieldDocs, strict: bool) {
    && White(f.before) && LitOk(f.name, strict) && White(f.toColon) && White(f.toValue)
    && DocOk(f.doc, strict) && White(f.after) && (f.Field? ==> FieldsOk(f.rest, strict))
  }

  /** What parsing must return: the value, or failure when more than 1000 arrays and objects are open. */
  ghost predicate ParsesTo<T>(r: Parsed<T>, v: T, end: nat, deep: nat) {
    r == if deep <= 1000 then Ok(v, end) else Fail
  }

  // ---------------------------------------------------------------------------------------------
  // White space and first bytes

  lemma {:induction false} SkipWhite(c: Bytes, off: nat, ws: Bytes)
    requires Terminated(c) && White(ws) && Found(c, off, ws) && off + |ws| < |c| && c[off + |ws|] > 32
    ensures Skip(c, off) == off + |ws| && SkipFrom(c, off) == off + |ws|
    decreases |ws|
  {
    if ws != [] {
      FoundAt(c, off, ws, 0);
      assert ws == [ws[0]] + ws[1..];
      FoundJoin(c, off, [ws[0]], ws[1..]);
      SkipWhite(c, off + 1, ws[1..]);
    }
  }

  /** No value starts like white space or like the end of something. */
  predicate Starts(b: Byte) {
    b > 32 && b != 93 && b != 125
  }

  lemma DocStart(doc: Doc, strict: bool)
    requires DocOk(doc, strict)
    ensures |DocText(doc)| > 0 && Starts(DocText(doc)[0])
  {
    match doc
    case Figure(n) => NumStart(n);
    case _ =>
  }

  lemma NumStart(n: NumText)
    requires NumOk(n)
    ensures var s := NumBytes(n); |s| > 0 && (s[0] == 45 || 48 <= s[0] <= 57)
  {
    hide NumBytes;
    NumParts(n);
    var s := NumBytes(n);
    if n.sign.Some? {
      assert s[0] == s[..1][0];
    } else {
      assert s[0] == s[0..|n.whole|][0] == n.whole[0];
    }
  }

  // ---------------------------------------------------------------------------------------------
  // Every legal text parses to what it stands for

  lemma WordParses(c: Bytes, off: nat, v: Json, depth: nat)
    requires Terminated(c) && (v.Null? || v.True? || v.False?) && Found(c, off, WordText(v)) && off < |c|
    ensures ParseValue(c, off, depth) == Ok(v, off + |WordText(v)|)
  {
    FoundAt(c, off, WordText(v), 0);
  }

  lemma OtherFound(c: Bytes, off: nat, word: Bytes)
    requires off < |c| && word != [] && c[off] != word[0]
    ensures !Found(c, off, word)
  {
    assert off + |word| <= |c| ==> c[off..off + |word|][0] == c[off];
  }

  /** A value that does not start with the first letter of a keyword is none. */
  lemma NoKeyword(c: Bytes, off: nat)
    requires off < |c| && c[off] != 110 && c[off] != 116 && c[off] != 102
    ensures !Found(c, off, NULL_TEXT) && !Found(c, off, TRUE_TEXT) && !Found(c, off, FALSE_TEXT)
  {
    OtherFound(c, off, NULL_TEXT);
    OtherFound(c, off, TRUE_TEXT);
    OtherFound(c, off, FALSE_TEXT);
  }

  lemma LitParses(c: Bytes, off: nat, lit: Lit)
    requires LitOk(lit, true) && Found(c, off, LitText(lit))
    ensures ParseString(c, off) == Ok(Flat(Meaning, lit.ps), off + |LitText(lit)|)
    ensures off + |LitText(lit)| <= |c| && off < |c| && c[off] == 34
  {
    hide Found, Flat, LegalLiteral, ParseString;
    assert LitText(lit) == [34] + lit.body + [34];
    QuotedFound(c, off, lit.body);
    LiteralParses(c, off, lit.ps);
  }

  lemma FoundSize(c: Bytes, off: nat, part: Bytes)
    requires Found(c, off, part)
    ensures off + |part| <= |c|
  {
  }

  lemma TextParses(c: Bytes, off: nat, lit: Lit, depth: nat)
    requires Terminated(c) && LitOk(lit, true) && Found(c, off, LitText(lit))
    ensures off < |c| && ParseValue(c, off, depth) == Ok(Text(Flat(Meaning, lit.ps)), off + |LitText(lit)|)
  {
    hide Found, Flat, LitOk, LitText, ParseString;
    LitParses(c, off, lit);
    NoKeyword(c, off);
  }

  lemma FigureParses(c: Bytes, off: nat, n: NumText, depth: nat)
    requires Terminated(c) && NumOk(n) && Found(c, off, NumBytes(n))
    requires off + |NumBytes(n)| < |c| && EndsNumber(c[off + |NumBytes(n)|])
    ensures ParseValue(c, off, depth) == Ok(Number(NumOf(n)), off + |NumBytes(n)|)
  {
    hide Found, NumOf, ParseNumber, NumBytes;
    NumStart(n);
    FoundAt(c, off, NumBytes(n), 0);
    NoKeyword(c, off);
    NumberParses(c, off, n);
  }

  /** What may stand behind a value: anything behind most of them, nothing that goes on with a number behind one. */
  predicate EndsDoc(doc: Doc, b: Byte) {
    doc.Figure? ==> EndsNumber(b)
  }

  lemma {:induction false} DocParses(c: Bytes, off: nat, doc: Doc, depth: nat)
    requires Terminated(c) && DocOk(doc, true) && Found(c, off, DocText(doc)) && depth <= 1000
    requires off + |DocText(doc)| < |c| && EndsDoc(doc, c[off + |DocText(doc)|])
    ensures ParsesTo(ParseValue(c, off, depth), DocValue(doc), off + |DocText(doc)|, depth + Nesting(DocValue(doc)))
    decreases doc, 0
  {
    hide Found, ParseValue, LitOk, NumOk, LitText, NumBytes, WordText, EndsNumber, ElementsText, FieldsText, NumOf, Flat,
      ElementsValue, FieldsValue, ElementsOk, FieldsOk, White, Terminated, DocText, DocValue, Nesting;
    DocIs(doc);
    match doc
    case Word(v) => WordParses(c, off, v, depth);
    case Figure(n) => FigureParses(c, off, n, depth);
    case Literal(lit) => TextParses(c, off, lit, depth);
    case NoElements(inside) => EmptyArray(c, off, inside, depth);
    case Elements(e) => ArrayParses(c, off, e, depth);
    case NoFields(inside) => EmptyObject(c, off, inside, depth);
    case Fields(f) => ObjectParses(c, off, f, depth);
  }

  /** A text and its value, kind by kind. */
  lemma DocIs(doc: Doc)
    requires DocOk(doc, true)
    ensures match doc
            case Word(v) => DocText(doc) == WordText(v) && DocValue(doc) == v && Nesting(v) == 0
            case Figure(n) =>
              DocText(doc) == NumBytes(n) && DocValue(doc) == Number(NumOf(n)) && Nesting(DocValue(doc)) == 0
            case Literal(lit) =>
              DocText(doc) == LitText(lit) && DocValue(doc) == Text(Flat(Meaning, lit.ps)) && Nesting(DocValue(doc)) == 0
            case NoElements(inside) =>
              DocText(doc) == [91] + (inside + [93]) && DocValue(doc) == Array(NoItems) && Nesting(DocValue(doc)) == 1
            case Elements(e) =>
              && DocText(doc) == [91] + ElementsText(e) && DocValue(doc) == Array(ElementsValue(e))
              && Nesting(DocValue(doc)) == 1 + NestingItems(ElementsValue(e))
            case NoFields(inside) =>
              DocText(doc) == [123] + (inside + [125]) && DocValue(doc) == Object(NoMembers) && Nesting(DocValue(doc)) == 1
            case Fields(f) =>
              && DocText(doc) == [123] + FieldsText(f) && DocValue(doc) == Object(FieldsValue(f))
              && Nesting(DocValue(doc)) == 1 + NestingMembers(FieldsValue(f))
  {
    hide LitOk, NumOk, LitText, NumBytes, WordText, ElementsText, FieldsText, NumOf, Flat, ElementsValue, FieldsValue;
  }

  lemma {:induction false} ArrayParses(c: Bytes, off: nat, e: ElementDocs, depth: nat)
    requires Terminated(c) && ElementsOk(e, true) && Found(c, off, [91] + ElementsText(e)) && depth <= 1000
    requires off + 1 + |ElementsText(e)| < |c|
    ensures ParsesTo(ParseValue(c, off, depth), Array(ElementsValue(e)), off + 1 + |ElementsText(e)|,
                     depth + 1 + NestingItems(ElementsValue(e)))
    decreases e, 1
  {
    hide Found, ParseValue, ParseItems, ElementsText, ElementsOk, ParsesTo, ElementsValue;
    FoundJoin(c, off, [91], ElementsText(e));
    FoundAt(c, off, [91], 0);
    ElementsParse(c, off + 1, e, depth + 1);
    ArrayFound(c, off, e, depth);
  }

  lemma {:induction false} ObjectParses(c: Bytes, off: nat, f: FieldDocs, depth: nat)
    requires Terminated(c) && FieldsOk(f, true) && Found(c, off, [123] + FieldsText(f)) && depth <= 1000
    requires off + 1 + |FieldsText(f)| < |c|
    ensures ParsesTo(ParseValue(c, off, depth), Object(FieldsValue(f)), off + 1 + |FieldsText(f)|,
                     depth + 1 + NestingMembers(FieldsValue(f)))
    decreases f, 1
  {
    hide Found, ParseValue, ParseMembers, FieldsText, FieldsOk, ParsesTo, FieldsValue;
    FoundJoin(c, off, [123], FieldsText(f));
    FoundAt(c, off, [123], 0);
    FieldsParse(c, off + 1, f, depth + 1);
    ObjectFound(c, off, f, depth);
  }

  lemma EmptyInside(c: Bytes, off: nat, open: Byte, inside: Bytes, close: Byte)
    requires Terminated(c) && Found(c, off, [open] + (inside + [close])) && White(inside) && close > 32
    requires off + |inside| + 2 < |c|
    ensures c[off] == open && Skip(c, off + 1) == off + 1 + |inside| && c[off + 1 + |inside|] == close
  {
    hide Found, Skip, SkipFrom;
    FoundThree(c, off, [open], inside, [close]);
    FoundAt(c, off, [open], 0);
    FoundAt(c, off + 1 + |inside|, [close], 0);
    SkipWhite(c, off + 1, inside);
  }

  lemma EmptyArray(c: Bytes, off: nat, inside: Bytes, depth: nat)
    requires Terminated(c) && White(inside) && Found(c, off, [91] + (inside + [93])) && off + |inside| + 2 < |c|
    requires depth <= 1000
    ensures ParsesTo(ParseValue(c, off, depth), Array(NoItems), off + |inside| + 2, depth + 1)
  {
    hide Skip, Found, White;
    EmptyInside(c, off, 91, inside, 93);
    NoKeyword(c, off);
  }

  lemma EmptyObject(c: Bytes, off: nat, inside: Bytes, depth: nat)
    requires Terminated(c) && White(inside) && Found(c, off, [123] + (inside + [125])) && off + |inside| + 2 < |c|
    requires depth <= 1000
    ensures ParsesTo(ParseValue(c, off, depth), Object(NoMembers), off + |inside| + 2, depth + 1)
  {
    hide Skip, Found, White;
    EmptyInside(c, off, 123, inside, 125);
    NoKeyword(c, off);
  }

  /** The elements are reached at the same place whether or not the white space before them has been skipped. */
  lemma ItemsFrom(c: Bytes, off: nat, start: nat, depth: nat)
    requires Terminated(c) && off < |c| && start == Skip(c, off) && c[start] > 32
    ensures ParseItems(c, start, depth) == ParseItems(c, off, depth)
  {
    hide ParseValue, AfterItem;
    assert Skip(c, start) == start;
  }

  lemma MembersFrom(c: Bytes, off: nat, start: nat, depth: nat)
    requires Terminated(c) && off < |c| && start == Skip(c, off) && c[start] > 32
    ensures ParseMembers(c, start, depth) == ParseMembers(c, off, depth)
  {
    hide ParseString, AfterName;
    assert Skip(c, start) == start;
  }

  lemma ArrayStep(c: Bytes, off: nat, start: nat, depth: nat)
    requires Terminated(c) && off + 1 < |c| && c[off] == 91 && start == Skip(c, off + 1) && c[start] != 93
    ensures ParseValue(c, off, depth) ==
      if depth >= 1000 then Fail
      else if ParseItems(c, start, depth + 1).Fail? then Fail
      else Ok(Array(ParseItems(c, start, depth + 1).value), ParseItems(c, start, depth + 1).off)
  {
    hide Skip, Found, ParseItems;
    NoKeyword(c, off);
  }

  lemma ObjectStep(c: Bytes, off: nat, start: nat, depth: nat)
    requires Terminated(c) && off + 1 < |c| && c[off] == 123 && start == Skip(c, off + 1) && c[start] != 125
    ensures ParseValue(c, off, depth) ==
      if depth >= 1000 then Fail
      else if ParseMembers(c, start, depth + 1).Fail? then Fail
      else Ok(Object(ParseMembers(c, start, depth + 1).value), ParseMembers(c, start, depth + 1).off)
  {
    hide Skip, Found, ParseMembers;
    NoKeyword(c, off);
  }

  lemma ArrayFound(c: Bytes, off: nat, e: ElementDocs, depth: nat)
    requires Terminated(c) && off + 1 < |c| && c[off] == 91 && ElementsOk(e, true) && Found(c, off + 1, ElementsText(e))
    requires depth < 1000 ==> ParsesTo(ParseItems(c, off + 1, depth + 1), ElementsValue(e), off + 1 + |ElementsText(e)|,
                                       depth + 1 + NestingItems(ElementsValue(e)))
    requires depth <= 1000
    ensures ParsesTo(ParseValue(c, off, depth), Array(ElementsValue(e)), off + 1 + |ElementsText(e)|,
                     depth + 1 + NestingItems(ElementsValue(e)))
  {
    hide Found, ParseValue, ParseItems, ElementsText, ElementsOk;
    ElementsStart(c, off + 1, e);
    var start := Skip(c, off + 1);
    ArrayStep(c, off, start, depth);
    ItemsFrom(c, off + 1, start, depth + 1);
  }

  lemma ObjectFound(c: Bytes, off: nat, f: FieldDocs, depth: nat)
    requires Terminated(c) && off + 1 < |c| && c[off] == 123 && FieldsOk(f, true) && Found(c, off + 1, FieldsText(f))
    requires depth < 1000 ==> ParsesTo(ParseMembers(c, off + 1, depth + 1), FieldsValue(f), off + 1 + |FieldsText(f)|,
                                       depth + 1 + NestingMembers(FieldsValue(f)))
    requires depth <= 1000
    ensures ParsesTo(ParseValue(c, off, depth), Object(FieldsValue(f)), off + 1 + |FieldsText(f)|,
                     depth + 1 + NestingMembers(FieldsValue(f)))
  {
    hide Found, ParseValue, ParseMembers, FieldsText, FieldsOk;
    FieldsStart(c, off + 1, f);
    var start := Skip(c, off + 1);
    ObjectStep(c, off, start, depth);
    MembersFrom(c, off + 1, start, depth + 1);
  }

  lemma ElementsStart(c: Bytes, off: nat, e: ElementDocs)
    requires Terminated(c) && ElementsOk(e, true) && Found(c, off, ElementsText(e))
    ensures off < |c| && Skip(c, off) == off + |e.before| && off + |e.before| < |c|
    ensures Starts(c[off + |e.before|]) && Found(c, off + |e.before|, DocText(e.doc))
  {
    hide Found, Skip, SkipFrom, DocText, DocOk;
    var rest := e.after + if e.LastElement? then [93] else [44] + ElementsText(e.rest);
    FoundThree(c, off, e.before, DocText(e.doc), rest);
    DocStart(e.doc, true);
    FoundAt(c, off + |e.before|, DocText(e.doc), 0);
    SkipWhite(c, off, e.before);
  }

  lemma FieldsStart(c: Bytes, off: nat, f: FieldDocs)
    requires Terminated(c) && FieldsOk(f, true) && Found(c, off, FieldsText(f))
    ensures off < |c| && Skip(c, off) == off + |f.before| && off + |f.before| < |c|
    ensures c[off + |f.before|] == 34 && Found(c, off + |f.before|, LitText(f.name))
  {
    hide Found, Skip, SkipFrom, DocText, DocOk, FieldRest;
    var rest := f.toColon + ([58] + (f.toValue + FieldRest(f)));
    FoundThree(c, off, f.before, LitText(f.name), rest);
    FoundAt(c, off + |f.before|, LitText(f.name), 0);
    SkipWhite(c, off, f.before);
  }

  // ---------------------------------------------------------------------------------------------
  // Elements

  /** What stands behind the value: white space, and then a comma or the closing bracket. */
  lemma Behind(c: Bytes, off: nat, doc: Doc, after: Bytes, more: Bytes)
    requires Terminated(c) && Found(c, off, DocText(doc) + (after + more)) && White(after) && more != []
    requires more[0] > 32 && EndsNumber(more[0])
    ensures var q := off + |DocText(doc)|;
      && Found(c, off, DocText(doc)) && q < |c| && EndsDoc(doc, c[q])
      && Skip(c, q) == q + |after| && q + |after| < |c| && c[q + |after|] == more[0] && Found(c, q + |after|, more)
  {
    hide Found, Skip, SkipFrom, DocText;
    var q := off + |DocText(doc)|;
    FoundThree(c, off, DocText(doc), after, more);
    FoundAt(c, q + |after|, more, 0);
    SkipWhite(c, q, after);
    if after != [] {
      FoundAt(c, q, after, 0);
    }
  }

  lemma {:induction false} ElementsParse(c: Bytes, off: nat, e: ElementDocs, depth: nat)
    requires Terminated(c) && ElementsOk(e, true) && Found(c, off, ElementsText(e)) && off < |c|
    ensures depth <= 1000 ==>
      ParsesTo(ParseItems(c, off, depth), ElementsValue(e), off + |ElementsText(e)|, depth + NestingItems(ElementsValue(e)))
    decreases e, 0
  {
    hide Found, ParseItems, AfterItem, ParseValue, DocText, DocOk, Skip, Nesting, EndsDoc;
    if depth <= 1000 {
      var at := off + |e.before|;
      var more := if e.LastElement? then [93] else [44] + ElementsText(e.rest);
      ElementsStart(c, off, e);
      FoundJoin(c, off, e.before, DocText(e.doc) + (e.after + more));
      Behind(c, at, e.doc, e.after, more);
      DocParses(c, at, e.doc, depth);
      var q := at + |DocText(e.doc)|;
      if e.Element? {
        FoundJoin(c, q + |e.after|, [44], ElementsText(e.rest));
        FoundSize(c, q + |e.after| + 1, ElementsText(e.rest));
        ElementsSome(e.rest);
        ElementsParse(c, q + |e.after| + 1, e.rest, depth);
      }
      ItemsJoin(c, off, e, depth, at, q, q + |e.after|);
    }
  }

  lemma ElementsSome(e: ElementDocs)
    ensures |ElementsText(e)| > 0
  {
  }

  /** An element and what follows it. */
  lemma ItemsJoin(c: Bytes, off: nat, e: ElementDocs, depth: nat, at: nat, q: nat, r: nat)
    requires Terminated(c) && off < |c| && Skip(c, off) == at && q < |c| && Skip(c, q) == r && depth <= 1000
    requires ParsesTo(ParseValue(c, at, depth), DocValue(e.doc), q, depth + Nesting(DocValue(e.doc)))
    requires e.LastElement? ==> c[r] == 93
    requires e.Element? ==> c[r] == 44 && r + 1 < |c|
    requires e.Element? ==>
      ParsesTo(ParseItems(c, r + 1, depth), ElementsValue(e.rest), r + 1 + |ElementsText(e.rest)|,
               depth + NestingItems(ElementsValue(e.rest)))
    ensures ParsesTo(ParseItems(c, off, depth), ElementsValue(e),
                     if e.LastElement? then r + 1 else r + 1 + |ElementsText(e.rest)|, depth + NestingItems(ElementsValue(e)))
  {
    hide ParseValue, Skip, DocValue, Nesting, ElementsText, AfterItem, ParseItems;
    ItemsStep(c, off, at, depth);
    AfterStep(c, DocValue(e.doc), q, r, depth);
  }

  lemma ItemsStep(c: Bytes, off: nat, at: nat, depth: nat)
    requires Terminated(c) && off < |c| && Skip(c, off) == at
    ensures var v := ParseValue(c, at, depth);
      ParseItems(c, off, depth) == if v.Fail? then Fail else AfterItem(c, v.value, v.off, depth)
  {
    hide AfterItem, ParseValue, Skip;
  }

  lemma AfterStep(c: Bytes, v: Json, q: nat, r: nat, depth: nat)
    requires Terminated(c) && q < |c| && Skip(c, q) == r
    ensures c[r] == 93 ==> AfterItem(c, v, q, depth) == Ok(Item(v, NoItems), r + 1)
    ensures c[r] == 44 && r + 1 < |c| ==>
      var tail := ParseItems(c, r + 1, depth);
      AfterItem(c, v, q, depth) == if tail.Fail? then Fail else Ok(Item(v, tail.value), tail.off)
  {
    hide ParseItems, Skip;
  }

  // ---------------------------------------------------------------------------------------------
  // Members

  /** A name, its colon, and where its value starts. */
  lemma NameFound(c: Bytes, off: nat, f: FieldDocs)
    requires Terminated(c) && FieldsOk(f, true) && Found(c, off, FieldsText(f))
    ensures var n := off + |f.before| + |LitText(f.name)|; var k := n + |f.toColon|; var at := k + 1 + |f.toValue|;
      && k + 1 < |c| && Skip(c, n) == k && c[k] == 58 && at < |c| && Skip(c, k + 1) == at && Found(c, at, FieldRest(f))
  {
    hide Found, Skip, SkipFrom, DocText, DocOk, LitText, LitOk, FieldsText, FieldRest;
    var k := off + |f.before| + |LitText(f.name)| + |f.toColon|;
    NamePlaces(c, off, f);
    RestStarts(f);
    FoundAt(c, k + 1 + |f.toValue|, FieldRest(f), 0);
    FoundAt(c, k, [58], 0);
    SkipWhite(c, k - |f.toColon|, f.toColon);
    SkipWhite(c, k + 1, f.toValue);
  }

  lemma NamePlaces(c: Bytes, off: nat, f: FieldDocs)
    requires Found(c, off, FieldsText(f))
    ensures var n := off + |f.before| + |LitText(f.name)|; var k := n + |f.toColon|; var at := k + 1 + |f.toValue|;
      Found(c, n, f.toColon) && Found(c, k, [58]) && Found(c, k + 1, f.toValue) && Found(c, at, FieldRest(f))
  {
    hide Found, LitText, FieldRest;
    var n := off + |f.before| + |LitText(f.name)|;
    FoundThree(c, off, f.before, LitText(f.name), f.toColon + ([58] + (f.toValue + FieldRest(f))));
    FoundThree(c, n, f.toColon, [58], f.toValue + FieldRest(f));
    FoundJoin(c, n + |f.toColon| + 1, f.toValue, FieldRest(f));
  }

  lemma RestStarts(f: FieldDocs)
    requires FieldsOk(f, true)
    ensures |FieldRest(f)| > 0 && FieldRest(f)[0] > 32
  {
    hide DocText, DocOk;
    DocStart(f.doc, true);
  }

  lemma {:induction false} FieldsParse(c: Bytes, off: nat, f: FieldDocs, depth: nat)
    requires Terminated(c) && FieldsOk(f, true) && Found(c, off, FieldsText(f)) && off < |c|
    ensures depth <= 1000 ==>
      ParsesTo(ParseMembers(c, off, depth), FieldsValue(f), off + |FieldsText(f)|, depth + NestingMembers(FieldsValue(f)))
    decreases f, 0
  {
    hide Found, ParseMembers, AfterName, ParseValue, DocText, DocOk, Skip, Nesting, EndsDoc, LitOk, LitText, ParseString;
    if depth <= 1000 {
      var n := off + |f.before| + |LitText(f.name)|;
      var k := n + |f.toColon|;
      var at := k + 1 + |f.toValue|;
      var more := if f.LastField? then [125] else [44] + FieldsText(f.rest);
      FieldsStart(c, off, f);
      LitParses(c, off + |f.before|, f.name);
      NameFound(c, off, f);
      Behind(c, at, f.doc, f.after, more);
      DocParses(c, at, f.doc, depth);
      var q := at + |DocText(f.doc)|;
      if f.Field? {
        FoundJoin(c, q + |f.after|, [44], FieldsText(f.rest));
        FoundSize(c, q + |f.after| + 1, FieldsText(f.rest));
        FieldsSome(f.rest);
        FieldsParse(c, q + |f.after| + 1, f.rest, depth);
      }
      MembersJoin(c, off, f, depth, Spot(off + |f.before|, n, k, at, q, q + |f.after|));
    }
  }

  lemma FieldsSome(f: FieldDocs)
    ensures |FieldsText(f)| > 0
  {
  }

  /** Where a name, what follows it, its colon, its value, what follows that, and the next mark are. */
  datatype Spot = Spot(name: nat, behind: nat, colon: nat, value: nat, after: nat, mark: nat)

  lemma MembersJoin(c: Bytes, off: nat, f: FieldDocs, depth: nat, p: Spot)
    requires Terminated(c) && off < |c| && Skip(c, off) == p.name && p.behind < |c| && depth <= 1000
    requires ParseString(c, p.name) == Ok(Flat(Meaning, f.name.ps), p.behind)
    requires Skip(c, p.behind) == p.colon && c[p.colon] == 58 && p.colon + 1 < |c| && Skip(c, p.colon + 1) == p.value
    requires ParsesTo(ParseValue(c, p.value, depth), DocValue(f.doc), p.after, depth + Nesting(DocValue(f.doc)))
    requires p.after < |c| && Skip(c, p.after) == p.mark
    requires f.LastField? ==> c[p.mark] == 125
    requires f.Field? ==> c[p.mark] == 44 && p.mark + 1 < |c|
    requires f.Field? ==>
      ParsesTo(ParseMembers(c, p.mark + 1, depth), FieldsValue(f.rest), p.mark + 1 + |FieldsText(f.rest)|,
               depth + NestingMembers(FieldsValue(f.rest)))
    ensures ParsesTo(ParseMembers(c, off, depth), FieldsValue(f),
                     if f.LastField? then p.mark + 1 else p.mark + 1 + |FieldsText(f.rest)|,
                     depth + NestingMembers(FieldsValue(f)))
  {
    hide ParseValue, Skip, DocValue, Nesting, FieldsText, AfterMember, AfterName, ParseMembers, ParseString, Flat;
    MembersStep(c, off, p, depth);
    NameStep(c, Flat(Meaning, f.name.ps), p, depth);
    MemberStep(c, Flat(Meaning, f.name.ps), DocValue(f.doc), p, depth);
  }

  lemma MembersStep(c: Bytes, off: nat, p: Spot, depth: nat)
    requires Terminated(c) && off < |c| && Skip(c, off) == p.name
    requires ParseString(c, p.name).Ok? && ParseString(c, p.name).off == p.behind < |c|
    ensures ParseMembers(c, off, depth) == AfterName(c, ParseString(c, p.name).value, p.behind, depth)
  {
    hide AfterName, ParseString, Skip;
  }

  lemma NameStep(c: Bytes, name: Bytes, p: Spot, depth: nat)
    requires Terminated(c) && p.behind < |c| && p.colon + 1 < |c|
    requires Skip(c, p.behind) == p.colon && c[p.colon] == 58 && Skip(c, p.colon + 1) == p.value
    ensures var v := ParseValue(c, p.value, depth);
      AfterName(c, name, p.behind, depth) == if v.Fail? then Fail else AfterMember(c, name, v.value, v.off, depth)
  {
    hide AfterMember, ParseValue, Skip;
  }

  lemma MemberStep(c: Bytes, name: Bytes, v: Json, p: Spot, depth: nat)
    requires Terminated(c) && p.after < |c| && Skip(c, p.after) == p.mark
    ensures c[p.mark] == 125 ==> AfterMember(c, name, v, p.after, depth) == Ok(Member(name, v, NoMembers), p.mark + 1)
    ensures c[p.mark] == 44 && p.mark + 1 < |c| ==>
      var rest := ParseMembers(c, p.mark + 1, depth);
      AfterMember(c, name, v, p.after, depth) == if rest.Fail? then Fail else Ok(Member(name, v, rest.value), rest.off)
  {
    hide ParseMembers, Skip;
  }

  // ---------------------------------------------------------------------------------------------
  // Whatever parses is such a text

  lemma {:induction false} SkippedWhite(c: Bytes, off: nat)
    requires off <= |c|
    ensures White(c[off..SkipFrom(c, off)])
    decreases |c| - off
  {
    if off < |c| && c[off] <= 32 {
      SkippedWhite(c, off + 1);
      assert c[off..SkipFrom(c, off)] == [c[off]] + c[off + 1..SkipFrom(c, off)];
    }
  }

  /** White space has been skipped up to something else. */
  lemma Skipped(c: Bytes, off: nat) returns (ws: Bytes)
    requires Terminated(c) && off < |c| && c[Skip(c, off)] != 0
    ensures White(ws) && Found(c, off, ws) && Skip(c, off) == off + |ws|
  {
    hide SkipFrom;
    SkippedWhite(c, off);
    ws := c[off..Skip(c, off)];
  }

  lemma ParsedLit(c: Bytes, off: nat) returns (lit: Lit)
    requires off < |c| && ParseString(c, off).Ok?
    ensures LitOk(lit, false) && Found(c, off, LitText(lit))
    ensures ParseString(c, off) == Ok(Flat(Meaning, lit.ps), off + |LitText(lit)|)
  {
    hide ParseString, TakenLiteral, Flat, Render, Meaning;
    var ps := ParsedLiteral(c, off);
    var e := ParseString(c, off).off;
    lit := Lit(c[off + 1..e - 1], ps);
    assert c[off..e] == LitText(lit);
    if off + 1 + |Flat(Render, ps)| == e {
      assert c[off + 1..e] == lit.body + [34];
    }
  }

  lemma {:induction false} ParsedDoc(c: Bytes, off: nat, depth: nat) returns (doc: Doc)
    requires Terminated(c) && off < |c| && depth <= 1000 && ParseValue(c, off, depth).Ok?
    ensures DocOk(doc, false) && Found(c, off, DocText(doc)) && depth + Nesting(DocValue(doc)) <= 1000
    ensures ParseValue(c, off, depth) == Ok(DocValue(doc), off + |DocText(doc)|)
    decreases |c| - off, 1
  {
    hide ParseString, ParseNumber, NumOk, LitOk, NumBytes, LitText, NumOf, Flat;
    if Found(c, off, NULL_TEXT) {
      doc := Word(Null);
    } else if Found(c, off, FALSE_TEXT) {
      doc := Word(False);
    } else if Found(c, off, TRUE_TEXT) {
      doc := Word(True);
    } else if c[off] == QUOTE {
      var lit := ParsedLit(c, off);
      doc := Literal(lit);
    } else if c[off] == MINUS || IsDigit(c[off]) {
      var n := ParsedFigure(c, off);
      doc := Figure(n);
    } else if c[off] == OPEN_BRACKET {
      doc := ParsedArray(c, off, depth);
    } else {
      doc := ParsedObject(c, off, depth);
    }
  }

  lemma ParsedFigure(c: Bytes, off: nat) returns (n: NumText)
    requires off < |c| && (c[off] == MINUS || IsDigit(c[off])) && ParseNumber(c, off).Ok?
    ensures NumOk(n) && Found(c, off, NumBytes(n)) && ParseNumber(c, off) == Ok(NumOf(n), off + |NumBytes(n)|)
  {
    hide ParseNumber, NumBytes, NumOf, Found;
    n := ParsedNumber(c, off);
    NumFirst(n);
    FoundAt(c, off, NumBytes(n), 0);
  }

  lemma NumFirst(n: NumText)
    requires LegalNum(n)
    ensures |NumBytes(n)| > 0
    ensures n.sign.Some? ==> NumBytes(n)[0] == n.sign.value
    ensures n.sign.None? && n.whole == [] ==> NumBytes(n)[0] == 46
  {
    hide NumBytes;
    NumParts(n);
    var s := NumBytes(n);
    if n.sign.Some? {
      assert s[0] == s[..1][0];
    } else if n.whole == [] {
      assert s[0] == s[0..|PointText(n)|][0];
    }
  }

  lemma {:induction false} ParsedArray(c: Bytes, off: nat, depth: nat) returns (doc: Doc)
    requires Terminated(c) && off < |c| && c[off] == OPEN_BRACKET && depth <= 1000 && ParseArray(c, off, depth).Ok?
    ensures DocOk(doc, false) && Found(c, off, DocText(doc)) && depth + Nesting(DocValue(doc)) <= 1000
    ensures ParseArray(c, off, depth) == Ok(DocValue(doc), off + |DocText(doc)|)
    decreases |c| - off, 0
  {
    hide ParseItems, Skip, SkipFrom, Found, DocOk;
    var start := Skip(c, off + 1);
    ByteFound(c, off);
    if c[start] == CLOSE_BRACKET {
      var ws := Skipped(c, off + 1);
      doc := NoElements(ws);
      ByteFound(c, start);
      FoundJoin(c, off + 1, ws, [93]);
      FoundJoin(c, off, [91], ws + [93]);
      PlainOk(doc);
    } else {
      ItemsStart(c, off + 1, depth + 1);
      var e := ParsedElements(c, off + 1, depth + 1);
      doc := Elements(e);
      FoundJoin(c, off, [91], ElementsText(e));
      PlainOk(doc);
    }
  }

  lemma {:induction false} ParsedObject(c: Bytes, off: nat, depth: nat) returns (doc: Doc)
    requires Terminated(c) && off < |c| && c[off] == OPEN_BRACE && depth <= 1000 && ParseObject(c, off, depth).Ok?
    ensures DocOk(doc, false) && Found(c, off, DocText(doc)) && depth + Nesting(DocValue(doc)) <= 1000
    ensures ParseObject(c, off, depth) == Ok(DocValue(doc), off + |DocText(doc)|)
    decreases |c| - off, 0
  {
    hide ParseMembers, Skip, SkipFrom, Found, DocOk, FieldsText, White, LitOk, ElementsOk, FieldsOk, NumOk, WordText, FieldsValue;
    var start := Skip(c, off + 1);
    ByteFound(c, off);
    if c[start] == CLOSE_BRACE {
      var ws := Skipped(c, off + 1);
      doc := NoFields(ws);
      ByteFound(c, start);
      FoundJoin(c, off + 1, ws, [125]);
      FoundJoin(c, off, [123], ws + [125]);
      PlainOk(doc);
    } else {
      MembersStart(c, off + 1, depth + 1);
      var f := ParsedFields(c, off + 1, depth + 1);
      doc := Fields(f);
      FoundJoin(c, off, [123], FieldsText(f));
      PlainOk(doc);
    }
  }

  /** Nothing parses at white space. */
  lemma ValueStart(c: Bytes, at: nat, depth: nat)
    requires Terminated(c) && at < |c| && ParseValue(c, at, depth).Ok?
    ensures c[at] > 32
  {
    hide ParseArray, ParseObject, Found;
    if c[at] <= 32 {
      NoKeyword(c, at);
    }
  }

  lemma ItemsStart(c: Bytes, off: nat, depth: nat)
    requires Terminated(c) && off < |c| && ParseItems(c, Skip(c, off), depth).Ok?
    ensures ParseItems(c, off, depth) == ParseItems(c, Skip(c, off), depth)
  {
    hide ParseValue, AfterItem, ParseItems;
    var start := Skip(c, off);
    SkipTwice(c, off);
    ItemsStep(c, start, start, depth);
    ValueStart(c, start, depth);
    ItemsFrom(c, off, start, depth);
  }

  lemma MembersStart(c: Bytes, off: nat, depth: nat)
    requires Terminated(c) && off < |c| && ParseMembers(c, Skip(c, off), depth).Ok?
    ensures ParseMembers(c, off, depth) == ParseMembers(c, Skip(c, off), depth)
  {
    hide AfterName;
    var start := Skip(c, off);
    SkipTwice(c, off);
    assert ParseString(c, start).Ok?;
    MembersFrom(c, off, start, depth);
  }

  lemma SkipTwice(c: Bytes, off: nat)
    requires Terminated(c) && off < |c|
    ensures Skip(c, Skip(c, off)) == Skip(c, off)
  {
  }

  /** Parts one behind the other. */
  lemma FoundChain(c: Bytes, off: nat, a: Bytes, b: Bytes, d: Bytes, e: Bytes)
    requires Found(c, off, a) && Found(c, off + |a|, b) && Found(c, off + |a| + |b|, d)
    requires Found(c, off + |a| + |b| + |d|, e)
    ensures Found(c, off, a + (b + (d + e)))
  {
    hide Found;
    FoundJoin(c, off + |a| + |b|, d, e);
    FoundJoin(c, off + |a|, b, d + e);
    FoundJoin(c, off, a, b + (d + e));
  }

  lemma {:induction false} ParsedElements(c: Bytes, off: nat, depth: nat) returns (e: ElementDocs)
    requires Terminated(c) && off < |c| && depth <= 1000 && ParseItems(c, off, depth).Ok?
    ensures ElementsOk(e, false) && Found(c, off, ElementsText(e)) && depth + NestingItems(ElementsValue(e)) <= 1000
    ensures ParseItems(c, off, depth) == Ok(ElementsValue(e), off + |ElementsText(e)|)
    decreases |c| - off, 2
  {
    hide ParseValue, Skip, Found, DocOk, DocText, DocValue, Nesting;
    var at := Skip(c, off);
    ValueStart(c, at, depth);
    var ws := Skipped(c, off);
    var doc := ParsedDoc(c, at, depth);
    var q := at + |DocText(doc)|;
    var r := Skip(c, q);
    var behind := Skipped(c, q);
    ByteFound(c, r);
    if c[r] == COMMA {
      var rest := ParsedElements(c, r + 1, depth);
      e := Element(ws, doc, behind, rest);
      FoundJoin(c, r, [44], ElementsText(rest));
      FoundChain(c, off, ws, DocText(doc), behind, [44] + ElementsText(rest));
    } else {
      e := LastElement(ws, doc, behind);
      FoundChain(c, off, ws, DocText(doc), behind, [93]);
    }
  }

  lemma {:induction false} ParsedFields(c: Bytes, off: nat, depth: nat) returns (f: FieldDocs)
    requires Terminated(c) && off < |c| && depth <= 1000 && ParseMembers(c, off, depth).Ok?
    ensures FieldsOk(f, false) && Found(c, off, FieldsText(f)) && depth + NestingMembers(FieldsValue(f)) <= 1000
    ensures ParseMembers(c, off, depth) == Ok(FieldsValue(f), off + |FieldsText(f)|)
    decreases |c| - off, 2
  {
    hide ParseString, AfterName, Skip, Found, DocOk, DocText, LitOk, LitText, DocValue, Nesting, Flat, FieldRest;
    var at := Skip(c, off);
    NameStart(c, at);
    var ws := Skipped(c, off);
    var name := ParsedLit(c, at);
    var n := at + |LitText(name)|;
    f := ParsedAfterName(c, n, name, ws, depth);
    FoundJoin(c, at, LitText(name), f.toColon + ([58] + (f.toValue + FieldRest(f))));
    FoundJoin(c, off, ws, LitText(name) + (f.toColon + ([58] + (f.toValue + FieldRest(f)))));
  }

  lemma NameStart(c: Bytes, at: nat)
    requires at < |c| && ParseString(c, at).Ok?
    ensures c[at] == 34
  {
  }

  lemma {:induction false} ParsedAfterName(c: Bytes, off: nat, name: Lit, before: Bytes, depth: nat) returns (f: FieldDocs)
    requires Terminated(c) && off < |c| && depth <= 1000 && LitOk(name, false) && White(before)
    requires AfterName(c, Flat(Meaning, name.ps), off, depth).Ok?
    ensures FieldsOk(f, false) && f.before == before && f.name == name
    ensures Found(c, off, f.toColon + ([58] + (f.toValue + FieldRest(f))))
    ensures depth + NestingMembers(FieldsValue(f)) <= 1000
    ensures AfterName(c, Flat(Meaning, name.ps), off, depth)
         == Ok(FieldsValue(f), off + |f.toColon| + 1 + |f.toValue| + |FieldRest(f)|)
    decreases |c| - off, 2
  {
    hide ParseValue, ParseMembers, Skip, Found, DocOk, DocText, LitOk, DocValue, Nesting, Flat;
    var k := Skip(c, off);
    var toColon := Skipped(c, off);
    var at := Skip(c, k + 1);
    ValueStart(c, at, depth);
    var toValue := Skipped(c, k + 1);
    var doc := ParsedDoc(c, at, depth);
    var q := at + |DocText(doc)|;
    var r := Skip(c, q);
    var after := Skipped(c, q);
    ByteFound(c, k);
    ByteFound(c, r);
    if c[r] == COMMA {
      var rest := ParsedFields(c, r + 1, depth);
      f := Field(before, name, toColon, toValue, doc, after, rest);
      FoundJoin(c, r, [44], FieldsText(rest));
    } else {
      f := LastField(before, name, toColon, toValue, doc, after);
    }
    var more := if f.LastField? then [125] else [44] + FieldsText(f.rest);
    FoundJoin(c, q, after, more);
    FoundJoin(c, at, DocText(doc), after + more);
    FoundChain(c, off, toColon, [58], toValue, FieldRest(f));
  }

  lemma PlainOk(doc: Doc)
    ensures doc.NoElements? && White(doc.inside) ==> DocOk(doc, false)
    ensures doc.NoFields? && White(doc.inside) ==> DocOk(doc, false)
    ensures doc.Elements? && ElementsOk(doc.elements, false) ==> DocOk(doc, false)
    ensures doc.Fields? && FieldsOk(doc.fields, false) ==> DocOk(doc, false)
  {
  }

  lemma ByteFound(c: Bytes, at: nat)
    requires at < |c|
    ensures Found(c, at, [c[at]])
  {
  }

  // ---------------------------------------------------------------------------------------------
  // Whole texts

  /** What the parser sees of a text. */
  lemma TextFound(before: Bytes, doc: Doc, tail: Bytes)
    requires DocOk(doc, true) && White(before) && (tail != [] ==> EndsDoc(doc, tail[0]))
    ensures var c, n := before + DocText(doc) + tail + [0], |before| + |DocText(doc)|;
      && Terminated(c) && Found(c, |before|, DocText(doc)) && n < |c| && EndsDoc(doc, c[n])
      && c[n..] == tail + [0] && Skip(c, 0) == |before|
  {
    hide DocText, DocOk, EndsDoc, Skip, SkipFrom, Found, White;
    TextSlices(before, DocText(doc), tail);
    EndsAtZero(doc);
    DocStart(doc, true);
    SkipWhite(before + DocText(doc) + tail + [0], 0, before);
  }

  lemma TextSlices(before: Bytes, body: Bytes, tail: Bytes)
    ensures var c, n := before + body + tail + [0], |before| + |body|;
      && Found(c, 0, before) && Found(c, |before|, body) && n < |c| && c[n..] == tail + [0]
      && c[n] == (if tail == [] then 0 else tail[0]) && (body != [] ==> c[|before|] == body[0]) && Terminated(c)
  {
  }

  lemma EndsAtZero(doc: Doc)
    ensures EndsDoc(doc, 0)
  {
  }

  /** Every legal text, with white space before it and anything behind it that it cannot go on with, parses to the
      value it stands for, and the end is reported behind it; a parse of the whole text succeeds if and only if nothing
      but white space follows. With more than 1000 arrays and objects open, parsing fails. */
  lemma TextParsed(before: Bytes, doc: Doc, tail: Bytes)
    requires DocOk(doc, true) && White(before) && (tail != [] ==> EndsDoc(doc, tail[0])) && 0 !in tail
    ensures var text, end := before + DocText(doc) + tail, |before| + |DocText(doc)|;
      if Nesting(DocValue(doc)) > 1000 then ParseOpts(text, false) == None && ParseOpts(text, true) == None
      else
        && ParseOpts(text, false) == Some((DocValue(doc), end))
        && ParseOpts(text, true) == if White(tail) then Some((DocValue(doc), |text|)) else None
  {
    hide ParseValue, DocText, DocOk, EndsDoc, Skip, Found, DocValue, Nesting, ParseOpts, Terminated;
    TextFound(before, doc, tail);
    BufferParsed(before + DocText(doc) + tail, |before|, doc, tail);
  }

  lemma BufferParsed(text: Bytes, at: nat, doc: Doc, tail: Bytes)
    requires DocOk(doc, true) && Terminated(text + [0]) && Found(text + [0], at, DocText(doc)) && Skip(text + [0], 0) == at
    requires var n := at + |DocText(doc)|;
      n + |tail| == |text| && EndsDoc(doc, (text + [0])[n]) && (text + [0])[n..] == tail + [0] && 0 !in tail
    ensures var n := at + |DocText(doc)|;
      if Nesting(DocValue(doc)) > 1000 then ParseOpts(text, false) == None && ParseOpts(text, true) == None
      else
        && ParseOpts(text, false) == Some((DocValue(doc), n))
        && ParseOpts(text, true) == if White(tail) then Some((DocValue(doc), |text|)) else None
  {
    hide ParseValue, DocText, DocOk, EndsDoc, Skip, Found, White, DocValue, Nesting, ParseOpts, Terminated;
    var n := at + |DocText(doc)|;
    DocParses(text + [0], at, doc, 0);
    TailSkipped(text + [0], n, tail);
    OptsFrom(text, at, DocValue(doc), n, Nesting(DocValue(doc)));
  }

  lemma OptsFrom(text: Bytes, at: nat, v: Json, end: nat, deep: nat)
    requires var c := text + [0]; at < |c| && end < |c| && Skip(c, 0) == at && ParsesTo(ParseValue(c, at, 0), v, end, deep)
    ensures if deep > 1000 then ParseOpts(text, false) == None && ParseOpts(text, true) == None
      else
        && ParseOpts(text, false) == Some((v, end))
        && ParseOpts(text, true) == var e := Skip(text + [0], end); if (text + [0])[e] == 0 then Some((v, e)) else None
  {
    hide ParseValue, Skip;
  }

  lemma {:induction false} TailSkipped(c: Bytes, n: nat, tail: Bytes)
    requires n + |tail| + 1 == |c| && c[n..] == tail + [0] && 0 !in tail
    ensures Terminated(c) && n < |c|
    ensures White(tail) ==> Skip(c, n) == |c| - 1
    ensures !White(tail) ==> c[Skip(c, n)] != 0
    decreases |tail|
  {
    assert c[|c| - 1] == c[n..][|tail|];
    if tail != [] {
      assert c[n] == c[n..][0] == tail[0] && c[n + 1..] == c[n..][1..] && tail[1..] + [0] == (tail + [0])[1..];
      TailSkipped(c, n + 1, tail[1..]);
      assert White(tail) <==> tail[0] <= 32 && White(tail[1..]) by {
        assert forall i :: 1 <= i < |tail| ==> tail[i] == tail[1..][i - 1];
      }
    }
  }

  /** Nothing else parses: a value that is returned stands for the text before the reported end, at most 1000 arrays
      and objects are open in it, and only white space follows if the whole text was wanted. */
  lemma OnlyTexts(text: Bytes, whole: bool) returns (before: Bytes, doc: Doc)
    requires ParseOpts(text, whole).Some?
    ensures DocOk(doc, false) && White(before) && DocValue(doc) == ParseOpts(text, whole).value.0
    ensures Nesting(DocValue(doc)) <= 1000
    ensures var end := |before| + |DocText(doc)|;
      && end <= |text| && text[..end] == before + DocText(doc)
      && (!whole ==> ParseOpts(text, whole).value.1 == end)
      && (whole && 0 !in text ==> White(text[end..]) && ParseOpts(text, whole).value.1 == |text|)
  {
    hide ParseValue, DocText, DocOk, Skip, DocValue, Nesting, Found;
    var c := text + [0];
    var at := Skip(c, 0);
    ValueStart(c, at, 0);
    before := Skipped(c, 0);
    doc := ParsedDoc(c, at, 0);
    var end := at + |DocText(doc)|;
    FoundJoin(c, 0, before, DocText(doc));
    FrontFound(text, before + DocText(doc));
    if whole && 0 !in text {
      TailWhite(text, end);
    }
  }

  lemma FrontFound(text: Bytes, front: Bytes)
    requires Found(text + [0], 0, front) && |front| <= |text|
    ensures text[..|front|] == front
  {
    assert (text + [0])[0..|front|] == text[..|front|];
  }

  lemma TailWhite(text: Bytes, end: nat)
    requires end <= |text| && 0 !in text && (text + [0])[Skip(text + [0], end)] == 0
    ensures White(text[end..]) && Skip(text + [0], end) == |text|
  {
    hide Skip;
    var tail := text[end..];
    assert (text + [0])[end..] == tail + [0];
    TailSkipped(text + [0], end, tail);
  }
}
