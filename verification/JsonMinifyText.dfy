/** Minifying a text of the grammar leaves a text of the grammar that stands for the same value
    (utils/cJSON/cJSON.c, cJSON_Minify). */
module JsonMinifyText {
  import opened JsonTypes
  import opened JsonString
  import opened JsonNumber
  import opened JsonText
  import opened JsonGrammar
  import opened JsonRoundTrip
  import opened JsonMinify
  import opened Flats

  /** From `off`, where `part` is found, the scan keeps `out` and goes on after `part`. */
  ghost predicate Keeps(c: Bytes, off: nat, part: Bytes, out: Bytes) {
    && Found(c, off, part) && off + |part| < |c|
    && MinifyFrom(c, off) == Prepend(out, MinifyFrom(c, off + |part|))
  }

  lemma KeepsJoin(c: Bytes, off: nat, a: Bytes, outA: Bytes, b: Bytes, outB: Bytes)
    requires Keeps(c, off, a, outA) && Keeps(c, off + |a|, b, outB)
    ensures Keeps(c, off, a + b, outA + outB)
  {
    FoundJoin(c, off, a, b);
    PrependJoin(outA, outB, MinifyFrom(c, off + |a| + |b|));
  }

  lemma KeepsNothing(c: Bytes, off: nat)
    requires off < |c|
    ensures Keeps(c, off, [], [])
  {
    PrependJoin([], [], MinifyFrom(c, off));
  }

  predicate AllPlain(s: Bytes) {
    forall i :: 0 <= i < |s| ==> s[i] != 0 && !IsWhite(s[i]) && s[i] != SLASH && s[i] != QUOTE
  }

  /** White space without the four characters that are dropped; nothing else below 33 is. */
  function Bare(ws: Bytes): Bytes {
    if ws == [] then [] else (if ws[0] in {9, 10, 13, 32} then [] else [ws[0]]) + Bare(ws[1..])
  }

  lemma {:induction false} WhiteKept(c: Bytes, off: nat, ws: Bytes)
    requires White(ws) && 0 !in ws && Found(c, off, ws) && off + |ws| < |c|
    ensures Keeps(c, off, ws, Bare(ws))
    decreases |ws|
  {
    hide Found, White, MinifyFrom;
    if ws == [] {
      KeepsNothing(c, off);
    } else {
      assert ws == [ws[0]] + ws[1..];
      FoundJoin(c, off, [ws[0]], ws[1..]);
      WhiteTail(ws);
      WhiteKept(c, off + 1, ws[1..]);
      FoundAt(c, off, ws, 0);
      ByteKept(c, off, ws[0]);
      KeepsJoin(c, off, [ws[0]], if ws[0] in {9, 10, 13, 32} then [] else [ws[0]], ws[1..], Bare(ws[1..]));
    }
  }

  lemma WhiteTail(ws: Bytes)
    requires White(ws) && ws != []
    ensures White(ws[1..]) && ws[0] <= 32 && (0 !in ws ==> 0 !in ws[1..] && ws[0] != 0)
  {
  }

  lemma ByteKept(c: Bytes, off: nat, b: Byte)
    requires off + 1 < |c| && c[off] == b && 0 < b <= 32
    ensures Keeps(c, off, [b], if b in {9, 10, 13, 32} then [] else [b])
  {
    PrependJoin([], [], MinifyFrom(c, off + 1));
  }

  lemma {:induction false} BareWhite(ws: Bytes)
    requires White(ws)
    ensures White(Bare(ws)) && |Bare(ws)| <= |ws|
  {
    if ws != [] {
      WhiteTail(ws);
      BareWhite(ws[1..]);
    }
  }

  lemma {:induction false} PlainKept(c: Bytes, off: nat, part: Bytes)
    requires AllPlain(part) && Found(c, off, part) && off + |part| < |c|
    ensures Keeps(c, off, part, part)
    decreases |part|
  {
    if part == [] {
      KeepsNothing(c, off);
    } else {
      FoundAt(c, off, part, 0);
      assert part == [part[0]] + part[1..];
      FoundJoin(c, off, [part[0]], part[1..]);
      PlainKept(c, off + 1, part[1..]);
      PrependJoin([part[0]], part[1..], MinifyFrom(c, off + |part|));
    }
  }

  lemma MarkKept(c: Bytes, off: nat, b: Byte)
    requires Found(c, off, [b]) && off + 1 < |c| && b > 32 && b != SLASH && b != QUOTE
    ensures Keeps(c, off, [b], [b])
  {
    PlainKept(c, off, [b]);
  }

  // ---------------------------------------------------------------------------------------------
  // String literals

  lemma {:induction false} PlainStepped(c: Bytes, j: nat, part: Bytes)
    requires Found(c, j, part) && forall i :: 0 <= i < |part| ==> part[i] != 0 && part[i] != QUOTE && part[i] != BACKSLASH
    ensures LiteralEnd(c, j) == LiteralEnd(c, j + |part|)
    decreases |part|
  {
    if part != [] {
      FoundAt(c, j, part, 0);
      assert part == [part[0]] + part[1..];
      FoundJoin(c, j, [part[0]], part[1..]);
      PlainStepped(c, j + 1, part[1..]);
    }
  }

  lemma EscapeStepped(c: Bytes, j: nat, b: Byte, rest: Bytes)
    requires b != 0 && Found(c, j, [BACKSLASH, b] + rest)
    requires forall i :: 0 <= i < |rest| ==> rest[i] != 0 && rest[i] != QUOTE && rest[i] != BACKSLASH
    ensures LiteralEnd(c, j) == LiteralEnd(c, j + 2 + |rest|)
  {
    hide Found;
    FoundJoin(c, j, [BACKSLASH, b], rest);
    FoundAt(c, j, [BACKSLASH, b], 0);
    FoundAt(c, j, [BACKSLASH, b], 1);
    PlainStepped(c, j + 2, rest);
  }

  lemma HexPlain(hex: Bytes, n: nat)
    requires Spells(hex, n)
    ensures forall i :: 0 <= i < |hex| ==> hex[i] != 0 && hex[i] != QUOTE && hex[i] != BACKSLASH
  {
    hide Hex4, SpellsDigit;
    Hex4Is(hex, n);
  }

  /** The scan of a literal steps over a legal piece. */
  lemma PieceStepped(c: Bytes, j: nat, p: Piece)
    requires LegalPiece(p) && Found(c, j, Render(p)) && 0 !in Render(p)
    ensures LiteralEnd(c, j) == LiteralEnd(c, j + |Render(p)|)
  {
    hide Found, Spells, LiteralEnd;
    match p
    case Raw(b) => PlainStepped(c, j, [b]);
    case Short(k) =>
      assert [92, LETTERS[k]] + [] == [92, LETTERS[k]];
      EscapeStepped(c, j, LETTERS[k], []);
    case Code(cp, hex) =>
      HexPlain(hex, cp);
      EscapeStepped(c, j, 117, hex);
    case Pair(cp, high, low) =>
      HexPlain(high, 0xD800 + (cp - 0x1_0000) / 1024);
      HexPlain(low, 0xDC00 + (cp - 0x1_0000) % 1024);
      PairStepped(c, j, high, low);
  }

  lemma PairStepped(c: Bytes, j: nat, high: Bytes, low: Bytes)
    requires Found(c, j, [92, 117] + high + [92, 117] + low)
    requires forall i :: 0 <= i < |high| ==> high[i] != 0 && high[i] != QUOTE && high[i] != BACKSLASH
    requires forall i :: 0 <= i < |low| ==> low[i] != 0 && low[i] != QUOTE && low[i] != BACKSLASH
    ensures LiteralEnd(c, j) == LiteralEnd(c, j + 4 + |high| + |low|)
  {
    hide Found, LiteralEnd;
    assert [92, 117] + high + [92, 117] + low == ([92, 117] + high) + ([92, 117] + low);
    FoundJoin(c, j, [92, 117] + high, [92, 117] + low);
    EscapeStepped(c, j, 117, high);
    EscapeStepped(c, j + 2 + |high|, 117, low);
  }

  lemma {:induction false} LiteralStepped(c: Bytes, j: nat, ps: seq<Piece>)
    requires LegalLiteral(ps) && 0 !in Flat(Render, ps) && Found(c, j, Flat(Render, ps) + [QUOTE])
    ensures LiteralEnd(c, j) == Some(j + |Flat(Render, ps)|)
    decreases |ps|
  {
    hide Found, Render, LegalPiece;
    if ps == [] {
      FoundAt(c, j, Flat(Render, ps) + [QUOTE], 0);
    } else {
      hide LiteralEnd;
      FlatFirst(Render, ps);
      var first, rest := Render(ps[0]), Flat(Render, ps[1..]);
      assert Flat(Render, ps) + [QUOTE] == first + (rest + [QUOTE]);
      FoundJoin(c, j, first, rest + [QUOTE]);
      NoZero(first, rest);
      PieceStepped(c, j, ps[0]);
      LiteralStepped(c, j + |first|, ps[1..]);
    }
  }

  lemma NoZero(a: Bytes, b: Bytes)
    ensures 0 !in a + b <==> 0 !in a && 0 !in b
  {
  }

  lemma LitKept(c: Bytes, off: nat, lit: Lit)
    requires LitOk(lit, true) && Found(c, off, LitText(lit)) && off + |LitText(lit)| < |c| && 0 !in LitText(lit)
    ensures Keeps(c, off, LitText(lit), LitText(lit))
  {
    hide Flat, LegalLiteral, LiteralEnd, Render;
    NoZero([34], lit.body + [34]);
    NoZero(lit.body, [34]);
    assert LitText(lit) == [34] + lit.body + [34];
    QuotedFound(c, off, lit.body);
    LiteralStepped(c, off + 1, lit.ps);
  }

  lemma NumberPlain(n: NumText)
    requires LegalNum(n)
    ensures AllPlain(NumBytes(n))
  {
    NumberChars(n);
  }

  // ---------------------------------------------------------------------------------------------
  // Values

  function BareDoc(doc: Doc): Doc {
    match doc
    case NoElements(inside) => NoElements(Bare(inside))
    case Elements(e) => Elements(BareElements(e))
    case NoFields(inside) => NoFields(Bare(inside))
    case Fields(f) => Fields(BareFields(f))
    case _ => doc
  }

  function BareElements(e: ElementDocs): ElementDocs {
    if e.LastElement? then LastElement(Bare(e.before), BareDoc(e.doc), Bare(e.after))
    else Element(Bare(e.before), BareDoc(e.doc), Bare(e.after), BareElements(e.rest))
  }

  function BareFields(f: FieldDocs): FieldDocs {
    if f.LastField?
    then LastField(Bare(f.before), f.name, Bare(f.toColon), Bare(f.toValue), BareDoc(f.doc), Bare(f.after))
    else Field(Bare(f.before), f.name, Bare(f.toColon), Bare(f.toValue), BareDoc(f.doc), Bare(f.after), BareFields(f.rest))
  }

  /** It is a legal text too, and stands for the same value. */
  lemma {:induction false} BareSame(doc: Doc)
    requires DocOk(doc, true)
    ensures DocOk(BareDoc(doc), true) && DocValue(BareDoc(doc)) == DocValue(doc)
    decreases doc
  {
    hide LitOk, NumOk, White, Flat, NumOf;
    match doc
    case NoElements(inside) => BareWhite(inside);
    case Elements(e) => BareElementsSame(e);
    case NoFields(inside) => BareWhite(inside);
    case Fields(f) => BareFieldsSame(f);
    case _ =>
  }

  lemma {:induction false} BareElementsSame(e: ElementDocs)
    requires ElementsOk(e, true)
    ensures ElementsOk(BareElements(e), true) && ElementsValue(BareElements(e)) == ElementsValue(e)
    decreases e
  {
    hide DocOk, DocValue, White, BareDoc;
    BareSame(e.doc);
    BareWhite(e.before);
    BareWhite(e.after);
    if e.Element? {
      BareElementsSame(e.rest);
    }
  }

  lemma {:induction false} BareFieldsSame(f: FieldDocs)
    requires FieldsOk(f, true)
    ensures FieldsOk(BareFields(f), true) && FieldsValue(BareFields(f)) == FieldsValue(f)
    decreases f
  {
    hide DocOk, DocValue, White, BareDoc, LitOk, Flat;
    BareSame(f.doc);
    BareWhite(f.before);
    BareWhite(f.toColon);
    BareWhite(f.toValue);
    BareWhite(f.after);
    if f.Field? {
      BareFieldsSame(f.rest);
    }
  }

  lemma {:induction false} DocKept(c: Bytes, off: nat, doc: Doc)
    requires DocOk(doc, true) && 0 !in DocText(doc) && Found(c, off, DocText(doc)) && off + |DocText(doc)| < |c|
    ensures Keeps(c, off, DocText(doc), DocText(BareDoc(doc)))
    decreases doc, 0
  {
    hide Found, Keeps, LitOk, LitText, NumOk, NumBytes, Bare, White, ElementsOk, FieldsOk, BareElements, BareFields,
      ElementsText, FieldsText;
    match doc
    case Word(v) => WordKept(c, off, v);
    case Figure(n) => FigureKept(c, off, n);
    case Literal(lit) => LitKept(c, off, lit);
    case NoElements(inside) => EmptyKept(c, off, 91, inside, 93);
    case Elements(e) => ArrayKept(c, off, e);
    case NoFields(inside) => EmptyKept(c, off, 123, inside, 125);
    case Fields(f) => ObjectKept(c, off, f);
  }

  lemma WordKept(c: Bytes, off: nat, v: Json)
    requires Found(c, off, WordText(v)) && off + |WordText(v)| < |c|
    ensures Keeps(c, off, WordText(v), WordText(v))
  {
    hide Keeps, Found;
    PlainKept(c, off, WordText(v));
  }

  lemma FigureKept(c: Bytes, off: nat, n: NumText)
    requires NumOk(n) && Found(c, off, NumBytes(n)) && off + |NumBytes(n)| < |c|
    ensures Keeps(c, off, NumBytes(n), NumBytes(n))
  {
    hide Keeps, Found, NumBytes, LegalNum;
    NumberPlain(n);
    PlainKept(c, off, NumBytes(n));
  }

  lemma EmptyKept(c: Bytes, off: nat, open: Byte, inside: Bytes, close: Byte)
    requires (open == 91 && close == 93) || (open == 123 && close == 125)
    requires White(inside) && 0 !in [open] + (inside + [close])
    requires Found(c, off, [open] + (inside + [close])) && off + |inside| + 2 < |c|
    ensures Keeps(c, off, [open] + (inside + [close]), [open] + (Bare(inside) + [close]))
  {
    hide Found, Keeps, Bare, White;
    NoZero([open], inside + [close]);
    NoZero(inside, [close]);
    FoundThree(c, off, [open], inside, [close]);
    MarkKept(c, off, open);
    WhiteKept(c, off + 1, inside);
    MarkKept(c, off + 1 + |inside|, close);
    KeepsJoin(c, off + 1, inside, Bare(inside), [close], [close]);
    KeepsJoin(c, off, [open], [open], inside + [close], Bare(inside) + [close]);
  }

  lemma {:induction false} ArrayKept(c: Bytes, off: nat, e: ElementDocs)
    requires ElementsOk(e, true) && 0 !in [91] + ElementsText(e)
    requires Found(c, off, [91] + ElementsText(e)) && off + 1 + |ElementsText(e)| < |c|
    ensures Keeps(c, off, [91] + ElementsText(e), [91] + ElementsText(BareElements(e)))
    decreases e, 1
  {
    hide Found, Keeps, ElementsOk, ElementsText, BareElements;
    NoZero([91], ElementsText(e));
    FoundJoin(c, off, [91], ElementsText(e));
    MarkKept(c, off, 91);
    ElementsKept(c, off + 1, e);
    KeepsJoin(c, off, [91], [91], ElementsText(e), ElementsText(BareElements(e)));
  }

  lemma {:induction false} ObjectKept(c: Bytes, off: nat, f: FieldDocs)
    requires FieldsOk(f, true) && 0 !in [123] + FieldsText(f)
    requires Found(c, off, [123] + FieldsText(f)) && off + 1 + |FieldsText(f)| < |c|
    ensures Keeps(c, off, [123] + FieldsText(f), [123] + FieldsText(BareFields(f)))
    decreases f, 3
  {
    hide Found, Keeps, FieldsOk, FieldsText, BareFields;
    NoZero([123], FieldsText(f));
    FoundJoin(c, off, [123], FieldsText(f));
    MarkKept(c, off, 123);
    FieldsKept(c, off + 1, f);
    KeepsJoin(c, off, [123], [123], FieldsText(f), FieldsText(BareFields(f)));
  }

  /** A value, the white space behind it, and what comes next. */
  lemma RestKept(c: Bytes, off: nat, text: Bytes, out: Bytes, after: Bytes, more: Bytes, outMore: Bytes)
    requires Keeps(c, off, text, out) && White(after) && 0 !in after && Found(c, off + |text|, after)
    requires Keeps(c, off + |text| + |after|, more, outMore)
    ensures Keeps(c, off, text + (after + more), out + (Bare(after) + outMore))
  {
    hide Found, Bare, White, MinifyFrom;
    WhiteKept(c, off + |text|, after);
    KeepsJoin(c, off + |text|, after, Bare(after), more, outMore);
    KeepsJoin(c, off, text, out, after + more, Bare(after) + outMore);
  }

  /** A mark before what comes next. */
  lemma NextKept(c: Bytes, off: nat, mark: Byte, more: Bytes, out: Bytes)
    requires Found(c, off, [mark]) && (mark == 44 || mark == 58) && Keeps(c, off + 1, more, out)
    ensures Keeps(c, off, [mark] + more, [mark] + out)
  {
    hide Found, MinifyFrom;
    MarkKept(c, off, mark);
    KeepsJoin(c, off, [mark], [mark], more, out);
  }

  lemma {:induction false} ElementsKept(c: Bytes, off: nat, e: ElementDocs)
    requires ElementsOk(e, true) && 0 !in ElementsText(e) && Found(c, off, ElementsText(e)) && off + |ElementsText(e)| < |c|
    ensures Keeps(c, off, ElementsText(e), ElementsText(BareElements(e)))
    decreases e, 0
  {
    hide Found, Keeps, DocOk, DocText, Bare, White, BareDoc;
    var text, at := DocText(e.doc), off + |e.before|;
    var more := if e.LastElement? then [93] else [44] + ElementsText(e.rest);
    var r := at + |text| + |e.after|;
    NoZero(e.before, text + (e.after + more));
    NoZero(text, e.after + more);
    NoZero(e.after, more);
    FoundThree(c, off, e.before, text, e.after + more);
    FoundJoin(c, at + |text|, e.after, more);
    DocKept(c, at, e.doc);
    if e.LastElement? {
      MarkKept(c, r, 93);
    } else {
      NoZero([44], ElementsText(e.rest));
      FoundJoin(c, r, [44], ElementsText(e.rest));
      ElementsKept(c, r + 1, e.rest);
      NextKept(c, r, 44, ElementsText(e.rest), ElementsText(BareElements(e.rest)));
    }
    var outMore := if e.LastElement? then [93] else [44] + ElementsText(BareElements(e.rest));
    RestKept(c, at, text, DocText(BareDoc(e.doc)), e.after, more, outMore);
    WhiteKept(c, off, e.before);
    KeepsJoin(c, off, e.before, Bare(e.before), text + (e.after + more), DocText(BareDoc(e.doc)) + (Bare(e.after) + outMore));
  }

  lemma {:induction false} FieldsKept(c: Bytes, off: nat, f: FieldDocs)
    requires FieldsOk(f, true) && 0 !in FieldsText(f) && Found(c, off, FieldsText(f)) && off + |FieldsText(f)| < |c|
    ensures Keeps(c, off, FieldsText(f), FieldsText(BareFields(f)))
    decreases f, 2
  {
    hide Found, Keeps, DocOk, LitText, LitOk, Bare, White, FieldRest;
    var name, rest := LitText(f.name), FieldRest(f);
    var n := off + |f.before| + |name|;
    NoZero(f.before, name + (f.toColon + ([58] + (f.toValue + rest))));
    NoZero(name, f.toColon + ([58] + (f.toValue + rest)));
    NoZero(f.toColon, [58] + (f.toValue + rest));
    NoZero([58], f.toValue + rest);
    NoZero(f.toValue, rest);
    NamePlaces(c, off, f);
    FoundThree(c, off, f.before, name, f.toColon + ([58] + (f.toValue + rest)));
    LitKept(c, off + |f.before|, f.name);
    FieldRestKept(c, n + |f.toColon| + 1 + |f.toValue|, f);
    NameKept(c, off, f, FieldRest(BareFields(f)));
  }

  lemma NameKept(c: Bytes, off: nat, f: FieldDocs, out: Bytes)
    requires White(f.before) && White(f.toColon) && White(f.toValue) && 0 !in f.before && 0 !in f.toColon && 0 !in f.toValue
    requires Found(c, off, f.before) && Keeps(c, off + |f.before|, LitText(f.name), LitText(f.name))
    requires var n := off + |f.before| + |LitText(f.name)|; var k := n + |f.toColon|; var at := k + 1 + |f.toValue|;
      Found(c, n, f.toColon) && Found(c, k, [58]) && Found(c, k + 1, f.toValue) && Keeps(c, at, FieldRest(f), out)
    ensures Keeps(c, off, FieldsText(f),
                  Bare(f.before) + (LitText(f.name) + (Bare(f.toColon) + ([58] + (Bare(f.toValue) + out)))))
  {
    hide Found, Bare, White, MinifyFrom, LitText, FieldRest;
    var rest := FieldRest(f);
    var n := off + |f.before| + |LitText(f.name)|;
    var k := n + |f.toColon|;
    WhiteKept(c, k + 1, f.toValue);
    KeepsJoin(c, k + 1, f.toValue, Bare(f.toValue), rest, out);
    NextKept(c, k, 58, f.toValue + rest, Bare(f.toValue) + out);
    RestKept(c, off + |f.before|, LitText(f.name), LitText(f.name), f.toColon, [58] + (f.toValue + rest),
             [58] + (Bare(f.toValue) + out));
    WhiteKept(c, off, f.before);
    KeepsJoin(c, off, f.before, Bare(f.before), LitText(f.name) + (f.toColon + ([58] + (f.toValue + rest))),
              LitText(f.name) + (Bare(f.toColon) + ([58] + (Bare(f.toValue) + out))));
  }

  lemma {:induction false} FieldRestKept(c: Bytes, at: nat, f: FieldDocs)
    requires FieldsOk(f, true) && 0 !in FieldRest(f) && Found(c, at, FieldRest(f)) && at + |FieldRest(f)| < |c|
    ensures Keeps(c, at, FieldRest(f), FieldRest(BareFields(f)))
    decreases f, 1
  {
    hide Found, Keeps, DocOk, DocText, Bare, White, BareDoc, FieldsText, LitOk;
    var text := DocText(f.doc);
    var more := if f.LastField? then [125] else [44] + FieldsText(f.rest);
    var r := at + |text| + |f.after|;
    NoZero(text, f.after + more);
    NoZero(f.after, more);
    FoundThree(c, at, text, f.after, more);
    DocKept(c, at, f.doc);
    if f.LastField? {
      MarkKept(c, r, 125);
    } else {
      NoZero([44], FieldsText(f.rest));
      FoundJoin(c, r, [44], FieldsText(f.rest));
      FieldsKept(c, r + 1, f.rest);
      NextKept(c, r, 44, FieldsText(f.rest), FieldsText(BareFields(f.rest)));
    }
    var outMore := if f.LastField? then [125] else [44] + FieldsText(BareFields(f.rest));
    RestKept(c, at, text, DocText(BareDoc(f.doc)), f.after, more, outMore);
  }

  // ---------------------------------------------------------------------------------------------
  // Whole texts

  /** Minifying a legal text leaves it with its white space bared, and nothing else changed. */
  lemma MinifiedText(before: Bytes, doc: Doc, after: Bytes)
    requires DocOk(doc, true) && White(before) && White(after) && 0 !in before + (DocText(doc) + after)
    ensures Minified(before + (DocText(doc) + after)) == Some(Bare(before) + (DocText(BareDoc(doc)) + Bare(after)))
  {
    hide Found, MinifyFrom, DocOk, DocText, BareDoc, Bare, White;
    var text, n := before + (DocText(doc) + after), |before| + |DocText(doc)|;
    var c := text + [0];
    NoZero(before, DocText(doc) + after);
    NoZero(DocText(doc), after);
    AllFound(before, DocText(doc), after);
    WhiteKept(c, 0, before);
    DocKept(c, |before|, doc);
    WhiteKept(c, n, after);
    KeepsJoin(c, |before|, DocText(doc), DocText(BareDoc(doc)), after, Bare(after));
    KeepsJoin(c, 0, before, Bare(before), DocText(doc) + after, DocText(BareDoc(doc)) + Bare(after));
    AtTerminator(c, |text|);
    var out := Bare(before) + (DocText(BareDoc(doc)) + Bare(after));
    assert out + [] == out;
  }

  lemma AllFound(a: Bytes, b: Bytes, d: Bytes)
    ensures var c := a + (b + d) + [0]; Found(c, 0, a) && Found(c, |a|, b) && Found(c, |a| + |b|, d)
  {
  }

  lemma AtTerminator(c: Bytes, n: nat)
    requires n < |c| && c[n] == 0
    ensures MinifyFrom(c, n) == Some([])
  {
  }

  /** So minifying preserves the meaning: the text that is left parses as the text did, whatever there was of white
      space. */
  lemma MinifyKeepsMeaning(before: Bytes, doc: Doc, after: Bytes)
    requires DocOk(doc, true) && White(before) && White(after) && 0 !in before + (DocText(doc) + after)
    ensures var text := before + (DocText(doc) + after);
      Minified(text).Some? && Parse(Minified(text).value) == Parse(text)
  {
    hide DocOk, DocText, BareDoc, Bare, ParseOpts, White, DocValue, Nesting;
    MinifiedText(before, doc, after);
    BareSame(doc);
    BareWhite(before);
    BareWhite(after);
    NoZero(before, DocText(doc) + after);
    NoZero(DocText(doc), after);
    BareNoZero(after);
    Parses(before, doc, after);
    Parses(Bare(before), BareDoc(doc), Bare(after));
  }

  lemma {:induction false} BareNoZero(ws: Bytes)
    requires 0 !in ws
    ensures 0 !in Bare(ws)
  {
    if ws != [] {
      BareNoZero(ws[1..]);
    }
  }

  lemma Parses(before: Bytes, doc: Doc, after: Bytes)
    requires DocOk(doc, true) && White(before) && White(after) && 0 !in after
    ensures Parse(before + (DocText(doc) + after)) == if Nesting(DocValue(doc)) <= 1000 then Some(DocValue(doc)) else None
  {
    hide DocOk, DocText, ParseOpts, DocValue, Nesting;
    WhiteEnds(doc, after);
    TextParsed(before, doc, after);
    assert before + DocText(doc) + after == before + (DocText(doc) + after);
  }

  lemma WhiteEnds(doc: Doc, after: Bytes)
    requires White(after)
    ensures after != [] ==> EndsDoc(doc, after[0])
  {
  }

  // ---------------------------------------------------------------------------------------------
  // Prints

  /** Baring the text a print is gives the text the unformatted print is. */
  lemma {:induction false} BarePrint(v: Json, fmt: bool, d: nat, e: nat)
    ensures BareDoc(DocOf(v, fmt, d)) == DocOf(v, false, e)
    decreases v, 1
  {
    hide Tabs, Quote, IntegerText, Bare;
    match v
    case Array(items) =>
      BareNone();
      if items.Item? {
        BareItems(items, fmt, d + 1, e + 1, [], []);
      }
    case Object(members) =>
      BareLine(fmt, d);
      if members.Member? {
        BareMembers(members, fmt, d, e);
      }
    case _ =>
  }

  lemma {:induction false} BareItems(items: Items, fmt: bool, d: nat, e: nat, before: Bytes, bare: Bytes)
    requires items.Item? && Bare(before) == bare
    ensures BareElements(ElementsOf(items, fmt, d, before)) == ElementsOf(items, false, e, bare)
    decreases items, 0
  {
    hide DocOf, BareDoc, Bare;
    BareNone();
    BareLine(fmt, 0);
    BarePrint(items.head, fmt, d, e);
    if items.tail.Item? {
      BareItems(items.tail, fmt, d, e, When(fmt, [SPACE]), []);
    }
  }

  lemma {:induction false} BareMembers(m: Members, fmt: bool, d: nat, e: nat)
    requires m.Member?
    ensures BareFields(FieldsOf(m, fmt, d)) == FieldsOf(m, false, e)
    decreases m, 0
  {
    hide DocOf, BareDoc, Bare, Tabs, Quote;
    BareNone();
    BareLine(fmt, d);
    BareLine(fmt, d + 1);
    BarePrint(m.value, fmt, d + 1, e + 1);
    if m.rest.Member? {
      BareMembers(m.rest, fmt, d, e);
    }
  }

  lemma BareNone()
    ensures Bare([]) == []
  {
  }

  lemma {:induction false} BareAll(ws: Bytes)
    requires forall i :: 0 <= i < |ws| ==> ws[i] in {9, 10, 13, 32}
    ensures Bare(ws) == []
  {
    if ws != [] {
      BareAll(ws[1..]);
    }
  }

  /** The layout of a print is white space that is dropped. */
  lemma BareLine(fmt: bool, d: nat)
    ensures Bare(When(fmt, [NEWLINE]) + When(fmt, Tabs(d))) == [] && Bare(When(fmt, [TAB])) == []
    ensures Bare(When(fmt, [SPACE])) == [] && When(false, [NEWLINE]) + When(false, Tabs(d)) == []
  {
    hide Bare;
    BareAll(When(fmt, [NEWLINE]) + When(fmt, Tabs(d)));
    BareAll(When(fmt, [TAB]));
    BareAll(When(fmt, [SPACE]));
  }

  lemma {:induction false} EscapedNoZero(s: Bytes)
    requires IsCString(s)
    ensures 0 !in Flat(Escape, s)
  {
    if s != [] {
      var n := |s| - 1;
      EscapedNoZero(s[..n]);
      NoZero(Flat(Escape, s[..n]), Escape(s[n]));
    }
  }

  lemma {:induction false} PrintNoZero(v: Json, fmt: bool, d: nat)
    requires Printable(v)
    ensures 0 !in PrintValue(v, fmt, d)
    decreases v, 1
  {
    hide Flat, Escape, PrintItems, PrintMembers, Tabs, PlainInteger;
    match v
    case Number(num) =>
    case Text(s) => EscapedNoZero(s);
    case Array(items) => ItemsNoZero(items, fmt, d + 1);
    case Object(members) =>
      MembersNoZero(members, fmt, d + 1);
      TabsNoZero(d);
    case _ =>
  }

  lemma TabsNoZero(d: nat)
    ensures 0 !in Tabs(d)
  {
  }

  lemma {:induction false} ItemsNoZero(items: Items, fmt: bool, d: nat)
    requires PrintableItems(items)
    ensures 0 !in PrintItems(items, fmt, d)
    decreases items, 0
  {
    hide PrintValue, Printable;
    if items.Item? {
      PrintNoZero(items.head, fmt, d);
      ItemsNoZero(items.tail, fmt, d);
    }
  }

  lemma {:induction false} MembersNoZero(m: Members, fmt: bool, d: nat)
    requires PrintableMembers(m)
    ensures 0 !in PrintMembers(m, fmt, d)
    decreases m, 0
  {
    hide PrintValue, Printable, Tabs, Flat, Escape;
    if m.Member? {
      PrintNoZero(m.value, fmt, d);
      MembersNoZero(m.rest, fmt, d);
      EscapedNoZero(m.name);
      TabsNoZero(d);
    }
  }

  /** Minifying either print of a value gives its unformatted print. */
  lemma MinifiedPrint(v: Json, fmt: bool)
    requires Printable(v)
    ensures Minified(PrintValue(v, fmt, 0)) == Some(PrintValue(v, false, 0))
  {
    hide DocOk, DocText, BareDoc, PrintValue, DocOf, MinifyFrom;
    var text := PrintValue(v, fmt, 0);
    PrintIsText(v, fmt, 0);
    PrintIsText(v, false, 0);
    BarePrint(v, fmt, 0, 0);
    PrintNoZero(v, fmt, 0);
    assert [] + (text + []) == text;
    MinifiedText([], DocOf(v, fmt, 0), []);
    assert [] + (PrintValue(v, false, 0) + []) == PrintValue(v, false, 0);
  }
}
