/** JSON values and the text they are printed to (utils/cJSON/cJSON.c, utils/cJSON/cJSON.h). */
module JsonTypes {
  type Byte = x: int | 0 <= x < 256
  type Bytes = seq<Byte>

  const QUOTE: Byte := 34
  const BACKSLASH: Byte := 92
  const SLASH: Byte := 47
  const COMMA: Byte := 44
  const COLON: Byte := 58
  const OPEN_BRACKET: Byte := 91
  const CLOSE_BRACKET: Byte := 93
  const OPEN_BRACE: Byte := 123
  const CLOSE_BRACE: Byte := 125
  const MINUS: Byte := 45
  const PLUS: Byte := 43
  const DOT: Byte := 46
  const TAB: Byte := 9
  const NEWLINE: Byte := 10
  const RETURN: Byte := 13
  const SPACE: Byte := 32
  const STAR: Byte := 42

  const NULL_TEXT: Bytes := [110, 117, 108, 108]
  const TRUE_TEXT: Bytes := [116, 114, 117, 101]
  const FALSE_TEXT: Bytes := [102, 97, 108, 115, 101]

  const NESTING_LIMIT: nat := 1000

  /** The decimal number `mantissa * 10^exponent`; `strtod` without its rounding. */
  datatype Num = Num(mantissa: int, exponent: int)

  /** A value, its children linked as in the program: first child, then next sibling. */
  datatype Json =
    | Null
    | False
    | True
    | Number(num: Num)
    | Text(s: Bytes)
    | Array(items: Items)
    | Object(members: Members)

  datatype Items = NoItems | Item(head: Json, tail: Items)

  datatype Members = NoMembers | Member(name: Bytes, value: Json, rest: Members)

  datatype Option<T> = None | Some(value: T)

  function Max(a: nat, b: nat): nat {
    if a > b then a else b
  }

  /** How many arrays and objects are open at the deepest point. */
  function Nesting(v: Json): nat {
    match v
    case Array(items) => 1 + NestingItems(items)
    case Object(members) => 1 + NestingMembers(members)
    case _ => 0
  }

  function NestingItems(items: Items): nat {
    match items
    case NoItems => 0
    case Item(head, tail) => Max(Nesting(head), NestingItems(tail))
  }

  function NestingMembers(members: Members): nat {
    match members
    case NoMembers => 0
    case Member(_, value, rest) => Max(Nesting(value), NestingMembers(rest))
  }

  /** A string a C program can hold. */
  predicate IsCString(s: Bytes) {
    0 !in s
  }

  /** Integers that the 15-digit format prints in plain decimal. */
  predicate PlainInteger(n: Num) {
    n.exponent == 0 && -1_000_000_000_000_000 < n.mantissa < 1_000_000_000_000_000
  }

  predicate Printable(v: Json) {
    match v
    case Number(num) => PlainInteger(num)
    case Text(s) => IsCString(s)
    case Array(items) => PrintableItems(items)
    case Object(members) => PrintableMembers(members)
    case _ => true
  }

  predicate PrintableItems(items: Items) {
    match items
    case NoItems => true
    case Item(head, tail) => Printable(head) && PrintableItems(tail)
  }

  predicate PrintableMembers(members: Members) {
    match members
    case NoMembers => true
    case Member(name, value, rest) => IsCString(name) && Printable(value) && PrintableMembers(rest)
  }

  /** `part` is found in `text` at `at`. */
  predicate Found(text: Bytes, at: nat, part: Bytes) {
    at + |part| <= |text| && text[at..at + |part|] == part
  }

  lemma FoundJoin(text: Bytes, at: nat, a: Bytes, b: Bytes)
    ensures Found(text, at, a + b) <==> Found(text, at, a) && Found(text, at + |a|, b)
  {
    var n := |a| + |b|;
    if Found(text, at, a + b) {
      assert text[at..at + |a|] == text[at..at + n][..|a|];
      assert text[at + |a|..at + n] == text[at..at + n][|a|..];
    }
    if Found(text, at, a) && Found(text, at + |a|, b) {
      assert text[at..at + n] == text[at..at + |a|] + text[at + |a|..at + n];
    }
  }

  lemma FoundAt(text: Bytes, at: nat, part: Bytes, i: nat)
    requires Found(text, at, part) && i < |part|
    ensures at + i < |text| && text[at + i] == part[i]
  {
    assert text[at + i] == text[at..at + |part|][i];
  }

  lemma FoundThree(text: Bytes, at: nat, a: Bytes, b: Bytes, d: Bytes)
    requires Found(text, at, a + (b + d))
    ensures Found(text, at, a) && Found(text, at + |a|, b) && Found(text, at + |a| + |b|, d)
  {
    FoundJoin(text, at, a, b + d);
    FoundJoin(text, at + |a|, b, d);
  }
}
