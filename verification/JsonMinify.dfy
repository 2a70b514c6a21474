/** `cJSON_Minify`: stripping white space and comments in place, and what is left (utils/cJSON/cJSON.c). */
module JsonMinify {
  import opened JsonTypes

  predicate IsWhite(b: Byte) {
    b == SPACE || b == TAB || b == RETURN || b == NEWLINE
  }

  /** Where a line comment stops: at the line end or the terminator. */
  function LineEnd(c: Bytes, i: nat): (r: nat)
    requires i < |c|
    ensures i <= r <= |c|
    decreases |c| - i
  {
    if c[i] == 0 || c[i] == NEWLINE then i else if i + 1 < |c| then LineEnd(c, i + 1) else |c|
  }

  /** Where a block comment closes: the position of its `*`. */
  function BlockEnd(c: Bytes, i: nat): (r: Option<nat>)
    ensures r.Some? ==> i <= r.value && r.value + 1 < |c|
    decreases |c| - i
  {
    if i + 1 >= |c| || c[i] == 0 then None
    else if c[i] == STAR && c[i + 1] == SLASH then Some(i)
    else BlockEnd(c, i + 1)
  }

  /** Where a string literal closes, its text starting at `j`. */
  function LiteralEnd(c: Bytes, j: nat): (r: Option<nat>)
    ensures r.Some? ==> j <= r.value < |c| && c[r.value] == QUOTE
    decreases |c| - j
  {
    if j >= |c| || c[j] == 0 then None
    else if c[j] == QUOTE then Some(j)
    else if c[j] != BACKSLASH then LiteralEnd(c, j + 1)
    else if j + 1 >= |c| || c[j + 1] == 0 then None
    else LiteralEnd(c, j + 2)
  }

  function Prepend(part: Bytes, r: Option<Bytes>): Option<Bytes> {
    if r.None? then None else Some(part + r.value)
  }

  /** What is kept of the text from `i` to its terminator; nothing if the scan would run past the terminator, as it
      does for an unclosed string or block comment. */
  function MinifyFrom(c: Bytes, i: nat): Option<Bytes>
    decreases |c| - i
  {
    if i >= |c| then None
    else if c[i] == 0 then Some([])
    else if IsWhite(c[i]) then MinifyFrom(c, i + 1)
    else if c[i] == SLASH && i + 1 < |c| && c[i + 1] == SLASH then MinifyFrom(c, LineEnd(c, i + 1))
    else if c[i] == SLASH && i + 1 < |c| && c[i + 1] == STAR then
      var end := BlockEnd(c, i);
      if end.None? then None else MinifyFrom(c, end.value + 2)
    else if c[i] == QUOTE then
      var end := LiteralEnd(c, i + 1);
      if end.None? then None else Prepend(c[i..end.value + 1], MinifyFrom(c, end.value + 1))
    else Prepend([c[i]], MinifyFrom(c, i + 1))
  }

  function Minified(text: Bytes): Option<Bytes> {
    MinifyFrom(text + [0], 0)
  }

  /** The text in `c` ends at `n`. */
  ghost predicate Terminator(c: Bytes, n: nat) {
    n < |c| && c[n] == 0 && forall k :: 0 <= k < n ==> c[k] != 0
  }

  function TextLength(c: Bytes): (n: nat)
    requires 0 in c
    ensures Terminator(c, n)
  {
    if c[0] == 0 then 0 else 1 + TextLength(c[1..])
  }

  // ---------------------------------------------------------------------------------------------
  // Which texts are closed

  /** Where a text can be, byte by byte: the star of a block comment may be the byte just read. */
  datatype Mode = Code | AfterSlash | InLine | InBlock(star: bool) | InLiteral | AfterBackslash

  function NextMode(m: Mode, b: Byte): Mode {
    match m
    case InLine => if b == NEWLINE then Code else InLine
    case InBlock(star) => if star && b == SLASH then Code else InBlock(b == STAR)
    case InLiteral => if b == QUOTE then Code else if b == BACKSLASH then AfterBackslash else InLiteral
    case AfterBackslash => InLiteral
    case AfterSlash =>
      if b == SLASH then InLine else if b == STAR then InBlock(true) else if b == QUOTE then InLiteral else Code
    case Code => if b == SLASH then AfterSlash else if b == QUOTE then InLiteral else Code
  }

  function ModeAfter(m: Mode, text: Bytes): Mode
    decreases |text|
  {
    if text == [] then m else ModeAfter(NextMode(m, text[0]), text[1..])
  }

  /** No literal and no block comment is open at the end; a line comment may be. */
  predicate Closed(text: Bytes) {
    Fine(ModeAfter(Code, text))
  }

  predicate Fine(m: Mode) {
    m == Code || m == AfterSlash || m == InLine
  }

  lemma ModeNext(c: Bytes, m: Mode, i: nat, n: nat)
    requires i < n <= |c|
    ensures ModeAfter(m, c[i..n]) == ModeAfter(NextMode(m, c[i]), c[i + 1..n])
  {
    assert c[i..n][0] == c[i] && c[i..n][1..] == c[i + 1..n];
  }

  lemma NoText(m: Mode)
    ensures ModeAfter(m, []) == m
  {
  }

  lemma {:induction false} LineMode(c: Bytes, i: nat, n: nat)
    requires Terminator(c, n) && i <= n
    ensures var e := LineEnd(c, i);
      e <= n && ModeAfter(InLine, c[i..n]) == if e == n then InLine else ModeAfter(Code, c[e..n])
    decreases n - i
  {
    if i < n {
      hide ModeAfter;
      ModeNext(c, InLine, i, n);
      if c[i] == NEWLINE {
        ModeNext(c, Code, i, n);
      } else {
        LineMode(c, i + 1, n);
      }
    }
  }

  lemma {:induction false} BlockMode(c: Bytes, i: nat, n: nat, star: bool)
    requires Terminator(c, n) && i <= n
    requires star ==> i > 0 && c[i - 1] == STAR
    ensures var e := BlockEnd(c, if star then i - 1 else i);
      && (e.None? ==> ModeAfter(InBlock(star), c[i..n]).InBlock?)
      && (e.Some? ==> i < e.value + 2 <= n && ModeAfter(InBlock(star), c[i..n]) == ModeAfter(Code, c[e.value + 2..n]))
    decreases n - i
  {
    if i < n {
      hide ModeAfter;
      ModeNext(c, InBlock(star), i, n);
      if !(star && c[i] == SLASH) {
        BlockMode(c, i + 1, n, c[i] == STAR);
      }
    }
  }

  lemma {:induction false} LiteralMode(c: Bytes, i: nat, n: nat)
    requires Terminator(c, n) && i <= n
    ensures var e := LiteralEnd(c, i); var m := ModeAfter(InLiteral, c[i..n]);
      && (e.None? ==> m == InLiteral || m == AfterBackslash)
      && (e.Some? ==> i <= e.value < n && m == ModeAfter(Code, c[e.value + 1..n]))
    decreases n - i
  {
    if i < n {
      hide ModeAfter;
      ModeNext(c, InLiteral, i, n);
      if c[i] == BACKSLASH && i + 1 < n {
        ModeNext(c, AfterBackslash, i + 1, n);
        LiteralMode(c, i + 2, n);
      } else if c[i] != QUOTE && c[i] != BACKSLASH {
        LiteralMode(c, i + 1, n);
      }
    }
  }

  /** A line comment from its first slash on. */
  lemma LineComment(c: Bytes, i: nat, n: nat)
    requires Terminator(c, n) && i < n && c[i] == SLASH && c[i + 1] == SLASH
    ensures var e := LineEnd(c, i + 1);
      i < e <= n && ModeAfter(Code, c[i..n]) == if e == n then InLine else ModeAfter(Code, c[e..n])
  {
    hide ModeAfter, LineEnd;
    ModeNext(c, Code, i, n);
    ModeNext(c, AfterSlash, i + 1, n);
    LineAdvances(c, i + 1);
    LineMode(c, i + 2, n);
  }

  lemma BlockComment(c: Bytes, i: nat, n: nat)
    requires Terminator(c, n) && i < n && c[i] == SLASH && c[i + 1] == STAR
    ensures var e := BlockEnd(c, i);
      && (e.None? ==> !Fine(ModeAfter(Code, c[i..n])))
      && (e.Some? ==> i < e.value + 2 <= n && ModeAfter(Code, c[i..n]) == ModeAfter(Code, c[e.value + 2..n]))
  {
    hide ModeAfter, BlockEnd;
    ModeNext(c, Code, i, n);
    ModeNext(c, AfterSlash, i + 1, n);
    BlockOpens(c, i);
    BlockMode(c, i + 2, n, true);
  }

  lemma LiteralText(c: Bytes, i: nat, n: nat)
    requires Terminator(c, n) && i < n && c[i] == QUOTE
    ensures var e := LiteralEnd(c, i + 1);
      && (e.None? ==> !Fine(ModeAfter(Code, c[i..n])))
      && (e.Some? ==> i < e.value < n && ModeAfter(Code, c[i..n]) == ModeAfter(Code, c[e.value + 1..n]))
  {
    hide ModeAfter, LiteralEnd;
    ModeNext(c, Code, i, n);
    LiteralMode(c, i + 1, n);
  }

  /** Any other byte leaves the text as open as it was. */
  lemma OtherByte(c: Bytes, i: nat, n: nat)
    requires Terminator(c, n) && i < n && c[i] != QUOTE && (c[i] == SLASH ==> c[i + 1] != SLASH && c[i + 1] != STAR)
    ensures Fine(ModeAfter(Code, c[i..n])) <==> Fine(ModeAfter(Code, c[i + 1..n]))
  {
    hide ModeAfter;
    NoText(Code);
    NoText(AfterSlash);
    assert c[n..n] == [];
    ModeNext(c, Code, i, n);
    if c[i] == SLASH && i + 1 < n {
      ModeNext(c, AfterSlash, i + 1, n);
      ModeNext(c, Code, i + 1, n);
    }
  }

  /** The scan stays in front of the terminator exactly on the closed texts. */
  lemma {:induction false} ScanIff(c: Bytes, i: nat, n: nat)
    requires Terminator(c, n) && i <= n
    ensures MinifyFrom(c, i).Some? <==> Fine(ModeAfter(Code, c[i..n]))
    decreases n - i
  {
    hide LineEnd, BlockEnd, LiteralEnd, ModeAfter;
    if i == n {
      NoText(Code);
      assert c[n..n] == [];
    } else if c[i] == SLASH && c[i + 1] == SLASH {
      LineComment(c, i, n);
      ScanIff(c, LineEnd(c, i + 1), n);
      NoText(Code);
      assert c[n..n] == [];
    } else if c[i] == SLASH && c[i + 1] == STAR {
      BlockComment(c, i, n);
      if BlockEnd(c, i).Some? {
        ScanIff(c, BlockEnd(c, i).value + 2, n);
      }
    } else if c[i] == QUOTE {
      LiteralText(c, i, n);
      if LiteralEnd(c, i + 1).Some? {
        ScanIff(c, LiteralEnd(c, i + 1).value + 1, n);
      }
    } else {
      OtherByte(c, i, n);
      ScanIff(c, i + 1, n);
    }
  }

  lemma LineAdvances(c: Bytes, i: nat)
    requires i + 1 < |c| && c[i] == SLASH
    ensures LineEnd(c, i) == LineEnd(c, i + 1)
  {
  }

  lemma BlockOpens(c: Bytes, i: nat)
    requires i + 1 < |c| && c[i] == SLASH && c[i + 1] == STAR
    ensures BlockEnd(c, i) == BlockEnd(c, i + 1)
  {
  }

  lemma ClosedIff(c: Bytes, n: nat)
    requires Terminator(c, n)
    ensures MinifyFrom(c, 0).Some? <==> Closed(c[..n])
  {
    ScanIff(c, 0, n);
    assert c[0..n] == c[..n];
  }

  // ---------------------------------------------------------------------------------------------
  // What is left of a closed text

  /** A byte of a literal, its quotes among them; `m` is where the text is before the byte. */
  predicate OfLiteral(m: Mode, b: Byte) {
    m == InLiteral || m == AfterBackslash || ((m == Code || m == AfterSlash) && b == 34)
  }

  /** A byte of a comment, the two bytes that open it among them; `next` is the byte after it. */
  predicate OfComment(m: Mode, b: Byte, next: Byte) {
    || m == InLine || m.InBlock?
    || (m == AfterSlash && (b == 47 || b == 42))
    || (m == Code && b == 47 && (next == 47 || next == 42))
  }

  predicate Stays(m: Mode, b: Byte, next: Byte) {
    OfLiteral(m, b) || (!OfComment(m, b, next) && b != 32 && b != 9 && b != 13 && b != 10)
  }

  /** The byte behind position `i`, or the terminator. */
  function Following(text: Bytes, i: nat): Byte {
    if i + 1 < |text| then text[i + 1] else 0
  }

  /** Whether the `i`-th byte of a text is in a literal, or outside literals and comments and no white space. */
  predicate StaysAt(text: Bytes, i: nat)
    requires i < |text|
  {
    Stays(ModeAfter(Code, text[..i]), text[i], Following(text, i))
  }

  /** Those of the first `n` bytes that stay, in their order. */
  function Kept(text: Bytes, n: nat): Bytes
    requires n <= |text|
  {
    if n == 0 then [] else Kept(text, n - 1) + if StaysAt(text, n - 1) then [text[n - 1]] else []
  }

  /** The same from `i` on, where the text is in mode `m`. */
  function KeptFrom(m: Mode, text: Bytes, i: nat): Bytes
    requires i <= |text|
    decreases |text| - i
  {
    if i == |text| then []
    else (if Stays(m, text[i], Following(text, i)) then [text[i]] else []) + KeptFrom(NextMode(m, text[i]), text, i + 1)
  }

  lemma {:induction false} ModeLast(m: Mode, text: Bytes, b: Byte)
    ensures ModeAfter(m, text + [b]) == NextMode(ModeAfter(m, text), b)
    decreases |text|
  {
    if text != [] {
      assert (text + [b])[1..] == text[1..] + [b];
      ModeLast(NextMode(m, text[0]), text[1..], b);
    } else {
      assert (text + [b])[1..] == [];
    }
  }

  lemma {:induction false} KeptSplit(text: Bytes, i: nat)
    requires i <= |text|
    ensures Kept(text, |text|) == Kept(text, i) + KeptFrom(ModeAfter(Code, text[..i]), text, i)
    decreases |text| - i
  {
    hide Stays, ModeAfter;
    if i == |text| {
      assert text[..i] == text;
    } else {
      KeptSplit(text, i + 1);
      assert text[..i + 1] == text[..i] + [text[i]];
      ModeLast(Code, text[..i], text[i]);
    }
  }

  // ---------------------------------------------------------------------------------------------
  // The scan keeps these bytes

  /** The text of a buffer. */
  ghost predicate Holds(c: Bytes, text: Bytes) {
    |text| < |c| && c[..|text|] == text && Terminator(c, |text|)
  }

  lemma HeldAt(c: Bytes, text: Bytes, i: nat)
    requires Holds(c, text) && i < |text|
    ensures c[i] == text[i] && c[i + 1] == Following(text, i) && c[i] != 0
  {
    assert c[..|text|][i] == c[i];
    if i + 1 < |text| {
      assert c[..|text|][i + 1] == c[i + 1];
    }
  }

  lemma KeptStep(m: Mode, text: Bytes, i: nat)
    requires i <= |text|
    ensures KeptFrom(m, text, i) ==
      if i == |text| then []
      else (if Stays(m, text[i], Following(text, i)) then [text[i]] else []) + KeptFrom(NextMode(m, text[i]), text, i + 1)
  {
  }

  lemma StaysLiteral(b: Byte, next: Byte)
    ensures Stays(InLiteral, b, next) && Stays(AfterBackslash, b, next)
  {
  }

  lemma {:induction false} LineKept(c: Bytes, text: Bytes, i: nat)
    requires Holds(c, text) && i <= |text|
    ensures LineEnd(c, i) <= |text| && KeptFrom(InLine, text, i) == KeptFrom(Code, text, LineEnd(c, i))
    decreases |text| - i
  {
    hide KeptFrom;
    KeptStep(InLine, text, i);
    KeptStep(Code, text, i);
    if i < |text| {
      HeldAt(c, text, i);
      if c[i] != NEWLINE {
        LineKept(c, text, i + 1);
      }
    }
  }

  lemma {:induction false} BlockKept(c: Bytes, text: Bytes, i: nat, star: bool)
    requires Holds(c, text) && i <= |text| && (star ==> i > 0 && c[i - 1] == STAR)
    requires BlockEnd(c, if star then i - 1 else i).Some?
    ensures var e := BlockEnd(c, if star then i - 1 else i).value + 2;
      i < e <= |text| && KeptFrom(InBlock(star), text, i) == KeptFrom(Code, text, e)
    decreases |text| - i
  {
    hide KeptFrom;
    if i < |text| {
      KeptStep(InBlock(star), text, i);
      HeldAt(c, text, i);
      if star {
        HeldAt(c, text, i - 1);
      }
      if !(star && c[i] == SLASH) {
        BlockKept(c, text, i + 1, c[i] == STAR);
      }
    }
  }

  lemma {:induction false} LiteralKept(c: Bytes, text: Bytes, i: nat)
    requires Holds(c, text) && i <= |text| && LiteralEnd(c, i).Some?
    ensures var e := LiteralEnd(c, i).value;
      i <= e < |text| && KeptFrom(InLiteral, text, i) == text[i..e + 1] + KeptFrom(Code, text, e + 1)
    decreases |text| - i
  {
    hide KeptFrom, Stays;
    if i < |text| {
      KeptStep(InLiteral, text, i);
      StaysLiteral(text[i], Following(text, i));
      HeldAt(c, text, i);
      if c[i] == BACKSLASH {
        if i + 1 < |text| {
          KeptStep(AfterBackslash, text, i + 1);
          StaysLiteral(text[i + 1], Following(text, i + 1));
          HeldAt(c, text, i + 1);
          LiteralKept(c, text, i + 2);
          assert text[i..LiteralEnd(c, i).value + 1] == [text[i]] + ([text[i + 1]] + text[i + 2..LiteralEnd(c, i).value + 1]);
        }
      } else if c[i] != QUOTE {
        LiteralKept(c, text, i + 1);
        assert text[i..LiteralEnd(c, i).value + 1] == [text[i]] + text[i + 1..LiteralEnd(c, i).value + 1];
      } else {
        assert text[i..i + 1] == [text[i]];
      }
    }
  }

  lemma CommentKept(c: Bytes, text: Bytes, i: nat)
    requires Holds(c, text) && i < |text| && c[i] == SLASH && c[i + 1] == SLASH
    ensures i < LineEnd(c, i + 1) <= |text| && KeptFrom(Code, text, i) == KeptFrom(Code, text, LineEnd(c, i + 1))
  {
    hide KeptFrom, LineEnd;
    HeldAt(c, text, i);
    KeptStep(Code, text, i);
    KeptStep(AfterSlash, text, i + 1);
    LineAdvances(c, i + 1);
    LineKept(c, text, i + 2);
  }

  lemma BlockCommentKept(c: Bytes, text: Bytes, i: nat)
    requires Holds(c, text) && i < |text| && c[i] == SLASH && c[i + 1] == STAR && BlockEnd(c, i).Some?
    ensures var e := BlockEnd(c, i).value + 2; i < e <= |text| && KeptFrom(Code, text, i) == KeptFrom(Code, text, e)
  {
    hide KeptFrom, BlockEnd;
    HeldAt(c, text, i);
    HeldAt(c, text, i + 1);
    KeptStep(Code, text, i);
    KeptStep(AfterSlash, text, i + 1);
    BlockOpens(c, i);
    BlockKept(c, text, i + 2, true);
  }

  lemma LiteralWhole(c: Bytes, text: Bytes, i: nat)
    requires Holds(c, text) && i < |text| && c[i] == QUOTE && LiteralEnd(c, i + 1).Some?
    ensures var e := LiteralEnd(c, i + 1).value + 1;
      i < e <= |text| && KeptFrom(Code, text, i) == c[i..e] + KeptFrom(Code, text, e)
  {
    hide KeptFrom, LiteralEnd, Holds;
    HeldAt(c, text, i);
    KeptStep(Code, text, i);
    LiteralKept(c, text, i + 1);
    SliceHeld(c, text, i, LiteralEnd(c, i + 1).value + 1);
  }

  lemma SliceHeld(c: Bytes, text: Bytes, i: nat, e: nat)
    requires Holds(c, text) && i < e <= |text|
    ensures c[i..e] == [text[i]] + text[i + 1..e]
  {
    hide Terminator;
    SliceOfFront(c, |text|, i, e);
    assert text[i..e] == [text[i]] + text[i + 1..e];
  }

  lemma SliceOfFront(c: Bytes, n: nat, i: nat, e: nat)
    requires i <= e <= n <= |c|
    ensures c[..n][i..e] == c[i..e]
  {
  }

  /** A slash that opens no comment stays, and behind it the text is what it would be without it. */
  lemma OtherKept(text: Bytes, i: nat)
    requires i < |text| && text[i] != QUOTE && (text[i] == SLASH ==> Following(text, i) != SLASH && Following(text, i) != STAR)
    ensures KeptFrom(Code, text, i) ==
      if IsWhite(text[i]) then KeptFrom(Code, text, i + 1) else [text[i]] + KeptFrom(Code, text, i + 1)
  {
    hide KeptFrom;
    KeptStep(Code, text, i);
    KeptStep(NextMode(Code, text[i]), text, i + 1);
    KeptStep(Code, text, i + 1);
  }

  /** The scan from a position outside literals and comments. */
  lemma {:induction false} ScanKept(c: Bytes, text: Bytes, i: nat)
    requires Holds(c, text) && i <= |text| && MinifyFrom(c, i).Some?
    ensures MinifyFrom(c, i) == Some(KeptFrom(Code, text, i))
    decreases |text| - i
  {
    hide KeptFrom, LineEnd, BlockEnd, LiteralEnd, IsWhite, Terminator, Stays, NextMode;
    if i == |text| {
      KeptStep(Code, text, i);
      TerminatorAt(c, i);
    } else {
      HeldAt(c, text, i);
      if c[i] == SLASH && c[i + 1] == SLASH {
        CommentKept(c, text, i);
        NotWhite(SLASH);
        ScanKept(c, text, LineEnd(c, i + 1));
      } else if c[i] == SLASH && c[i + 1] == STAR {
        NotWhite(SLASH);
        BlockCommentKept(c, text, i);
        ScanKept(c, text, BlockEnd(c, i).value + 2);
      } else if c[i] == QUOTE {
        NotWhite(QUOTE);
        LiteralWhole(c, text, i);
        ScanKept(c, text, LiteralEnd(c, i + 1).value + 1);
      } else {
        OtherKept(text, i);
        ScanKept(c, text, i + 1);
      }
    }
  }

  lemma TerminatorAt(c: Bytes, n: nat)
    requires Terminator(c, n)
    ensures n < |c| && c[n] == 0
  {
  }

  lemma NotWhite(b: Byte)
    requires b == SLASH || b == QUOTE
    ensures !IsWhite(b)
  {
  }

  /** A closed text is left with exactly the bytes that lie in a literal, or lie outside literals and comments and are
      neither space, tab, carriage return nor line feed. */
  lemma MinifiedKeeps(c: Bytes, text: Bytes)
    requires Holds(c, text) && Closed(text)
    ensures MinifyFrom(c, 0) == Some(Kept(text, |text|))
  {
    hide KeptFrom, Kept, MinifyFrom;
    ClosedIff(c, |text|);
    ScanKept(c, text, 0);
    KeptSplit(text, 0);
    NothingKept(text);
    assert [] + KeptFrom(Code, text, 0) == KeptFrom(Code, text, 0);
  }

  lemma NothingKept(text: Bytes)
    ensures Kept(text, 0) == [] && ModeAfter(Code, text[..0]) == Code
  {
    assert text[..0] == [];
  }

  // ---------------------------------------------------------------------------------------------
  // In place

  lemma PrependJoin(a: Bytes, b: Bytes, r: Option<Bytes>)
    ensures Prepend(a, Prepend(b, r)) == Prepend(a + b, r)
    ensures Prepend([], r) == r
  {
    if r.Some? {
      assert a + (b + r.value) == a + b + r.value;
      assert [] + r.value == r.value;
    }
  }

  /** The buffer with what was kept so far moved to its front and the unread rest in place. */
  ghost predicate Moved(now: Bytes, c: Bytes, kept: Bytes, i: nat) {
    |now| == |c| && |kept| <= i <= |c| && now[..|kept|] == kept && now[i..] == c[i..]
  }

  lemma MovedByte(now: Bytes, c: Bytes, kept: Bytes, i: nat, next: Bytes)
    requires Moved(now, c, kept, i) && i < |c| && next == now[|kept| := now[i]]
    ensures Moved(next, c, kept + [c[i]], i + 1)
  {
    assert now[i] == now[i..][0] == c[i];
    assert next[..|kept| + 1] == kept + [c[i]];
    assert next[i + 1..] == now[i..][1..];
  }

  method CopyByte(a: array<Byte>, into: nat, i: nat, ghost c: Bytes, ghost kept: Bytes)
    requires Moved(a[..], c, kept, i) && into == |kept| && i < a.Length
    modifies a
    ensures Moved(a[..], c, kept + [c[i]], i + 1)
    ensures i + 1 < a.Length ==> a[i + 1] == c[i + 1]
  {
    ghost var before := a[..];
    a[into] := a[i];
    assert a[..] == before[into := before[i]];
    MovedByte(before, c, kept, i, a[..]);
    if i + 1 < a.Length {
      UnreadByte(a[..], c, kept + [c[i]], i + 1);
    }
  }

  lemma UnreadByte(a: Bytes, c: Bytes, kept: Bytes, i: nat)
    requires Moved(a, c, kept, i) && i < |c|
    ensures a[i] == c[i]
  {
    assert a[i] == a[i..][0] && c[i] == c[i..][0];
  }

  /** One unit of a literal: a byte, or a backslash with the byte after it, unless that is the terminator. */
  method CopyUnit(a: array<Byte>, into: nat, start: nat, ghost c: Bytes, ghost n: nat, ghost kept: Bytes)
    returns (i: nat, overran: bool)
    requires Moved(a[..], c, kept, start) && into == |kept| && Terminator(c, n) && start < n && a[start] == c[start]
    requires a[start] != QUOTE
    modifies a
    ensures overran ==> LiteralEnd(c, start).None?
    ensures !overran ==> start < i <= start + 2 && i <= n && LiteralEnd(c, i) == LiteralEnd(c, start)
    ensures !overran ==> Moved(a[..], c, kept + c[start..i], i) && a[i] == c[i]
  {
    i, overran := start, false;
    ghost var out := kept;
    if a[i] == BACKSLASH {
      CopyByte(a, into, i, c, out);
      out := out + [c[i]];
      i := i + 1;
      if a[i] == 0 {
        overran := true;
        return;
      }
    }
    CopyByte(a, into + (i - start), i, c, out);
    out := out + [c[i]];
    i := i + 1;
    assert out == kept + c[start..i];
  }

  /** A string literal is copied through its closing quote, the write cursor never passing the read cursor. A literal
      that is not closed takes the read cursor past the terminator; the model stops there. */
  method CopyLiteral(a: array<Byte>, into: nat, start: nat, ghost c: Bytes, ghost n: nat, ghost kept: Bytes)
    returns (i: nat, overran: bool)
    requires Moved(a[..], c, kept, start) && into == |kept| && Terminator(c, n) && start < n && c[start] == QUOTE
    modifies a
    ensures overran <==> LiteralEnd(c, start + 1).None?
    ensures !overran ==> i == LiteralEnd(c, start + 1).value + 1 <= n
    ensures !overran ==> Moved(a[..], c, kept + c[start..i], i)
  {
    hide LiteralEnd, Moved;
    MovedSize(a[..], c, kept, start);
    CopyByte(a, into, start, c, kept);
    i := start + 1;
    MovedSize(a[..], c, kept + [c[start]], i);
    ghost var out := kept + [c[start]];
    while a[i] != 0 && a[i] != QUOTE
      invariant start < i <= n && n < a.Length && LiteralEnd(c, i) == LiteralEnd(c, start + 1)
      invariant out == kept + c[start..i] && Moved(a[..], c, out, i) && a[i] == c[i]
      decreases n - i
    {
      ghost var before, at := out, i;
      i, overran := CopyUnit(a, into + (i - start), i, c, n, out);
      if overran {
        return;
      }
      out := before + c[at..i];
      LongerSlice(c, kept, start, at, i);
      MovedSize(a[..], c, out, i);
    }
    LiteralStops(c, i);
    overran := a[i] == 0;
    if !overran {
      CopyByte(a, into + (i - start), i, c, out);
      LongerSlice(c, kept, start, i, i + 1);
      i := i + 1;
    }
  }

  lemma MovedSize(now: Bytes, c: Bytes, kept: Bytes, i: nat)
    requires Moved(now, c, kept, i)
    ensures |now| == |c| && |kept| <= i <= |c| && (i < |c| ==> now[i] == c[i])
  {
    if i < |c| {
      assert now[i..][0] == c[i..][0];
    }
  }

  lemma LiteralStops(c: Bytes, i: nat)
    requires i < |c| && (c[i] == 0 || c[i] == QUOTE)
    ensures LiteralEnd(c, i) == if c[i] == QUOTE then Some(i) else None
  {
  }

  lemma LongerSlice(c: Bytes, kept: Bytes, i: nat, j: nat, k: nat)
    requires i <= j <= k <= |c|
    ensures kept + c[i..j] + c[j..k] == kept + c[i..k]
    ensures k == j + 1 ==> kept + c[i..j] + [c[j]] == kept + c[i..k]
  {
  }

  ghost predicate Unread(a: array<Byte>, c: Bytes, from: nat)
    reads a
  {
    |c| == a.Length && forall k :: from <= k < a.Length ==> a[k] == c[k]
  }

  method SkipLine(a: array<Byte>, start: nat, ghost c: Bytes, ghost n: nat) returns (i: nat)
    requires Unread(a, c, start) && Terminator(c, n) && start <= n
    ensures i == LineEnd(c, start) <= n
  {
    i := start;
    while a[i] != 0 && a[i] != NEWLINE
      invariant start <= i <= n && LineEnd(c, i) == LineEnd(c, start)
      decreases n - i
    {
      i := i + 1;
    }
  }

  /** Past a block comment; one that is not closed takes the read cursor past the terminator. */
  method SkipBlock(a: array<Byte>, start: nat, ghost c: Bytes, ghost n: nat) returns (i: nat, overran: bool)
    requires Unread(a, c, start) && Terminator(c, n) && start <= n
    ensures overran <==> BlockEnd(c, start).None?
    ensures !overran ==> i == BlockEnd(c, start).value + 2 <= n
  {
    i := start;
    while a[i] != 0 && !(a[i] == STAR && a[i + 1] == SLASH)
      invariant start <= i <= n && BlockEnd(c, i) == BlockEnd(c, start)
      decreases n - i
    {
      i := i + 1;
    }
    overran := a[i] == 0;
    i := i + 2;
  }

  lemma MovedUnread(a: array<Byte>, c: Bytes, kept: Bytes, i: nat)
    requires Moved(a[..], c, kept, i)
    ensures Unread(a, c, i)
  {
    forall k | i <= k < a.Length ensures a[k] == c[k] {
      assert a[k] == a[..][i..][k - i] && c[k] == c[i..][k - i];
    }
  }

  lemma MovedAhead(now: Bytes, c: Bytes, kept: Bytes, i: nat, j: nat)
    requires Moved(now, c, kept, i) && i <= j <= |c|
    ensures Moved(now, c, kept, j)
  {
    assert now[j..] == now[i..][j - i..] && c[j..] == c[i..][j - i..];
  }

  /** The position of the scan: what is kept so far, with what the rest will add, is the whole result. */
  ghost predicate Scanned(c: Bytes, kept: Bytes, i: nat) {
    MinifyFrom(c, 0) == Prepend(kept, MinifyFrom(c, i))
  }

  lemma ScanKeeps(c: Bytes, kept: Bytes, i: nat, part: Bytes, j: nat)
    requires Scanned(c, kept, i) && MinifyFrom(c, i) == Prepend(part, MinifyFrom(c, j))
    ensures Scanned(c, kept + part, j)
  {
    PrependJoin(kept, part, MinifyFrom(c, j));
  }

  /** A line comment starts at `i`: its second slash makes no difference to where it ends. */
  lemma LineSkipped(c: Bytes, n: nat, i: nat)
    requires Terminator(c, n) && i < n && c[i] == SLASH && c[i + 1] == SLASH
    ensures i < LineEnd(c, i) && MinifyFrom(c, i) == MinifyFrom(c, LineEnd(c, i))
  {
    assert LineEnd(c, i) == LineEnd(c, i + 1);
  }

  /** One turn of the loop. */
  method MinifyStep(a: array<Byte>, into: nat, i: nat, ghost c: Bytes, ghost n: nat, ghost kept: Bytes)
    returns (to: nat, next: nat, overran: bool, ghost out: Bytes)
    requires Moved(a[..], c, kept, i) && into == |kept| && Terminator(c, n) && Scanned(c, kept, i) && i < n
    modifies a
    ensures overran ==> MinifyFrom(c, 0).None?
    ensures !overran ==> Moved(a[..], c, out, next) && to == |out| && Scanned(c, out, next) && i < next <= n
  {
    hide LiteralEnd, BlockEnd, LineEnd;
    MovedUnread(a, c, kept, i);
    to, next, out, overran := into, i + 1, kept, false;
    if IsWhite(a[i]) {
      MovedAhead(a[..], c, kept, i, i + 1);
    } else if a[i] == SLASH && a[i + 1] == SLASH {
      LineSkipped(c, n, i);
      next := SkipLine(a, i, c, n);
      MovedAhead(a[..], c, kept, i, next);
    } else if a[i] == SLASH && a[i + 1] == STAR {
      next, overran := SkipBlock(a, i, c, n);
      if !overran {
        MovedAhead(a[..], c, kept, i, next);
      }
    } else if a[i] == QUOTE {
      next, overran := CopyLiteral(a, into, i, c, n, kept);
      if !overran {
        to, out := into + (next - i), kept + c[i..next];
        ScanKeeps(c, kept, i, c[i..next], next);
      }
    } else {
      CopyByte(a, into, i, c, kept);
      to, out := into + 1, kept + [c[i]];
      ScanKeeps(c, kept, i, [c[i]], i + 1);
    }
  }

  /** `cJSON_Minify` on any text with a terminator. If all its literals and block comments are closed, the front of the
      buffer becomes the minified text with its terminator, and no byte is overwritten before it is read; otherwise the
      read cursor passes the terminator, and the model stops there. */
  method Minify(a: array<Byte>) returns (overran: bool)
    requires 0 in a[..]
    modifies a
    ensures overran <==> !Closed(old(a[..TextLength(a[..])]))
    ensures var text := old(a[..TextLength(a[..])]);
      !overran ==> var r := Kept(text, |text|); |r| < a.Length && a[..|r| + 1] == r + [0]
    ensures overran <==> MinifyFrom(old(a[..]), 0).None?
    ensures !overran ==> var r := MinifyFrom(old(a[..]), 0).value; |r| < a.Length && a[..|r| + 1] == r + [0]
  {
    hide MinifyFrom, Closed, Kept;
    var into, i := 0, 0;
    ghost var c, out := a[..], [];
    ghost var n := TextLength(c);
    assert c[..n] == a[..TextLength(a[..])];
    ClosedIff(c, n);
    if Closed(c[..n]) {
      MinifiedKeeps(c, c[..n]);
    }
    PrependJoin([], [], MinifyFrom(c, 0));
    while a[i] != 0
      invariant i <= n && into == |out| && Moved(a[..], c, out, i) && Scanned(c, out, i) && a[i] == c[i]
      decreases n - i
    {
      into, i, overran, out := MinifyStep(a, into, i, c, n, out);
      if overran {
        return;
      }
      UnreadByte(a[..], c, out, i);
    }
    overran := false;
    AtEnd(c, i);
    assert out + [] == out;
    a[into] := 0;
    assert a[..into + 1] == out + [0];
  }

  lemma AtEnd(c: Bytes, i: nat)
    requires i < |c| && c[i] == 0
    ensures MinifyFrom(c, i) == Some([])
  {
  }
}
