/** Numbers: plain decimal printing, and the scan that feeds `strtod` (utils/cJSON/cJSON.c, print_number,
    parse_number). */
module JsonNumber {
  import opened JsonTypes
  import opened JsonString

  predicate IsDigit(b: Byte) {
    48 <= b <= 57
  }

  predicate IsNumberChar(b: Byte) {
    IsDigit(b) || b == PLUS || b == MINUS || b == 101 || b == 69 || b == DOT
  }

  function Digits(n: nat): (r: Bytes)
    ensures |r| > 0 && forall i :: 0 <= i < |r| ==> IsDigit(r[i])
  {
    if n < 10 then [48 + n] else Digits(n / 10) + [48 + n % 10]
  }

  /** An integer under the 15-digit format. */
  function PrintNum(num: Num): (r: Bytes)
    ensures |r| > 0 && (IsDigit(r[0]) || r[0] == MINUS)
    ensures forall i :: 0 <= i < |r| ==> IsNumberChar(r[i])
  {
    if num.mantissa < 0 then [MINUS] + Digits(-num.mantissa) else Digits(num.mantissa)
  }

  // ---------------------------------------------------------------------------------------------
  // strtod on a run of number characters, without rounding

  function DigitsEnd(s: Bytes, i: nat): (r: nat)
    requires i <= |s|
    ensures i <= r <= |s|
    decreases |s| - i
  {
    if i < |s| && IsDigit(s[i]) then DigitsEnd(s, i + 1) else i
  }

  function Value(s: Bytes): int {
    if s == [] then 0 else Value(s[..|s| - 1]) * 10 + (s[|s| - 1] as int - 48)
  }

  /** End of the optional exponent that may follow at `i`. */
  function ExponentEnd(s: Bytes, i: nat): (r: nat)
    requires i <= |s|
    ensures i <= r <= |s|
  {
    if i < |s| && (s[i] == 101 || s[i] == 69) then
      var j := if i + 1 < |s| && (s[i + 1] == PLUS || s[i + 1] == MINUS) then i + 2 else i + 1;
      if j < |s| && IsDigit(s[j]) then DigitsEnd(s, j) else i
    else i
  }

  function ExponentValue(s: Bytes, i: nat, end: nat): int
    requires i < end <= |s|
  {
    if i + 1 < end && s[i + 1] == MINUS then -Value(s[i + 2..end])
    else if i + 1 < end && s[i + 1] == PLUS then Value(s[i + 2..end])
    else Value(s[i + 1..end])
  }

  /** The longest prefix that is a number, and its value. */
  function Strtod(s: Bytes): (r: Parsed<Num>)
    ensures r.Ok? ==> 0 < r.off <= |s|
  {
    var start := if |s| > 0 && (s[0] == PLUS || s[0] == MINUS) then 1 else 0;
    var whole := DigitsEnd(s, start);
    var dot := whole < |s| && s[whole] == DOT;
    var fraction := if dot then DigitsEnd(s, whole + 1) else whole;
    var places := if dot then fraction - (whole + 1) else 0;
    if whole - start + places == 0 then Fail
    else
      var digits := s[start..whole] + (if dot then s[whole + 1..fraction] else []);
      var mantissa := if start == 1 && s[0] == MINUS then -Value(digits) else Value(digits);
      var end := ExponentEnd(s, fraction);
      var exponent := if end == fraction then 0 else ExponentValue(s, fraction, end);
      Ok(Num(mantissa, exponent - places), end)
  }

  /** End of the run of number characters from `i`, at most up to `limit`. */
  function RunEnd(c: Bytes, i: nat, limit: nat): (r: nat)
    requires i <= limit
    ensures i <= r <= limit && (i <= |c| ==> r <= |c|)
    decreases limit - i
  {
    if i < limit && i < |c| && IsNumberChar(c[i]) then RunEnd(c, i + 1, limit) else i
  }

  /** The scan copies at most 63 characters. */
  const NUMBER_BUFFER: nat := 63

  function ParseNumber(c: Bytes, off: nat): (r: Parsed<Num>)
    requires off < |c|
    ensures r.Ok? ==> off < r.off <= |c| && IsNumberChar(c[r.off - 1])
  {
    var end := RunEnd(c, off, off + NUMBER_BUFFER);
    RunChars(c, off, off + NUMBER_BUFFER);
    var r := Strtod(c[off..end]);
    if r.Fail? then Fail else Ok(r.value, off + r.off)
  }

  lemma {:induction false} RunChars(c: Bytes, i: nat, limit: nat)
    requires i <= limit && i <= |c|
    ensures forall k :: i <= k < RunEnd(c, i, limit) ==> IsNumberChar(c[k])
    decreases limit - i
  {
    if i < limit && i < |c| && IsNumberChar(c[i]) {
      RunChars(c, i + 1, limit);
    }
  }

  /** The loop of `parse_number` that collects the run. */
  method CollectRun(c: Bytes, off: nat) returns (run: Bytes)
    requires off < |c|
    ensures run == c[off..RunEnd(c, off, off + NUMBER_BUFFER)]
  {
    var i := 0;
    run := [];
    while i < NUMBER_BUFFER && off + i < |c| && IsNumberChar(c[off + i])
      invariant i <= NUMBER_BUFFER && off + i <= |c| && run == c[off..off + i]
      invariant RunEnd(c, off, off + NUMBER_BUFFER) == RunEnd(c, off + i, off + NUMBER_BUFFER)
    {
      run := run + [c[off + i]];
      i := i + 1;
    }
  }

  // ---------------------------------------------------------------------------------------------
  // Numbers as they are written

  /** Sign, digits, a point with further digits, and an exponent. */
  datatype NumText = NumText(sign: Option<Byte>, whole: Bytes, point: bool, fraction: Bytes, exponent: Option<Exponent>)

  /** `letter` is an `e` in either case. */
  datatype Exponent = Exponent(letter: Byte, sign: Option<Byte>, digits: Bytes)

  predicate AllDigits(s: Bytes) {
    forall i :: 0 <= i < |s| ==> 48 <= s[i] <= 57
  }

  predicate LegalSign(sign: Option<Byte>) {
    sign.Some? ==> sign.value == 43 || sign.value == 45
  }

  predicate LegalExponent(e: Exponent) {
    (e.letter == 101 || e.letter == 69) && LegalSign(e.sign) && AllDigits(e.digits) && e.digits != []
  }

  /** There is a digit before the point or behind it. */
  predicate LegalNum(n: NumText) {
    && LegalSign(n.sign) && AllDigits(n.whole) && AllDigits(n.fraction) && |n.whole| + |n.fraction| > 0
    && (!n.point ==> n.fraction == []) && (n.exponent.Some? ==> LegalExponent(n.exponent.value))
  }

  function SignText(sign: Option<Byte>): Bytes {
    if sign.Some? then [sign.value] else []
  }

  function PointText(n: NumText): Bytes {
    if n.point then [46] + n.fraction else []
  }

  function ExponentText(e: Option<Exponent>): Bytes {
    if e.Some? then [e.value.letter] + SignText(e.value.sign) + e.value.digits else []
  }

  function NumBytes(n: NumText): Bytes {
    SignText(n.sign) + n.whole + PointText(n) + ExponentText(n.exponent)
  }

  function Pow10(k: nat): (p: nat)
    ensures p > 0
  {
    if k == 0 then 1 else 10 * Pow10(k - 1)
  }

  /** The number digits write, by their places. */
  function Decimal(s: Bytes): int {
    if s == [] then 0 else (s[0] as int - 48) * Pow10(|s| - 1) + Decimal(s[1..])
  }

  function Signed(sign: Option<Byte>, n: int): int {
    if sign == Some(45) then -n else n
  }

  function ExponentOf(e: Option<Exponent>): int {
    if e.Some? then Signed(e.value.sign, Decimal(e.value.digits)) else 0
  }

  /** The number written, as an integer times a power of ten. */
  function NumOf(n: NumText): Num {
    Num(Signed(n.sign, Decimal(n.whole + n.fraction)), ExponentOf(n.exponent) - |n.fraction|)
  }

  /** A power of ten with any exponent. */
  function Ten(e: int): real {
    if e >= 0 then Pow10(e) as real else 1.0 / Pow10(0 - e) as real
  }

  /** What a number stands for. */
  function Amount(num: Num): real {
    num.mantissa as real * Ten(num.exponent)
  }

  lemma TenDown(e: int)
    ensures Ten(e - 1) * 10.0 == Ten(e)
  {
    if e <= 0 {
      OneTenth(Pow10(0 - e) as real);
      assert Pow10(1 - e) == 10 * Pow10(0 - e);
    } else {
      assert Pow10(e) == 10 * Pow10(e - 1);
    }
  }

  lemma OneTenth(p: real)
    requires p > 0.0
    ensures 1.0 / (10.0 * p) * 10.0 == 1.0 / p
  {
    Divides(1.0, 10.0 * p);
    Divides(1.0, p);
    var x, y := 1.0 / (10.0 * p), 1.0 / p;
    Equal(x * 10.0, y, p);
  }

  lemma Divides(a: real, b: real)
    requires b != 0.0
    ensures a / b * b == a
  {
  }

  lemma Equal(x: real, y: real, p: real)
    requires p > 0.0 && x * p == y * p
    ensures x == y
  {
  }

  lemma {:induction false} TenShift(e: int, k: nat)
    ensures Ten(e - k) * Pow10(k) as real == Ten(e)
    decreases k
  {
    hide Ten;
    if k > 0 {
      TenShift(e, k - 1);
      TenDown(e - (k - 1));
      Regroup(Ten(e - k), Pow10(k - 1) as real);
      assert Pow10(k) as real == 10.0 * Pow10(k - 1) as real;
    }
  }

  lemma Regroup(t: real, p: real)
    ensures t * (10.0 * p) == t * 10.0 * p
  {
  }

  lemma {:induction false} DecimalJoin(a: Bytes, b: Bytes)
    ensures Decimal(a + b) == Decimal(a) * Pow10(|b|) + Decimal(b)
    decreases |a|
  {
    if a == [] {
      assert a + b == b;
    } else {
      assert (a + b)[0] == a[0] && (a + b)[1..] == a[1..] + b;
      DecimalJoin(a[1..], b);
      PowJoin(|a| - 1, |b|);
      Spread(a[0] as int - 48, Pow10(|a| - 1), Pow10(|b|), Decimal(a[1..]));
    }
  }

  lemma Spread(d: int, p: int, q: int, r: int)
    ensures (d * p + r) * q == d * (p * q) + r * q
  {
  }

  lemma {:induction false} PowJoin(i: nat, j: nat)
    ensures Pow10(i + j) == Pow10(i) * Pow10(j)
    decreases i
  {
    if i > 0 {
      PowJoin(i - 1, j);
      Spread(10, Pow10(i - 1), Pow10(j), 0);
    }
  }

  lemma Scale(w: real, f: real, k: real, t: real)
    requires k > 0.0
    ensures (w * k + f) * t == (w + f / k) * (t * k)
  {
    Divides(f, k);
    Spreads(w, f / k, k);
    Swaps(w + f / k, k, t);
  }

  lemma Spreads(w: real, g: real, k: real)
    ensures (w + g) * k == w * k + g * k
  {
  }

  lemma Swaps(x: real, k: real, t: real)
    ensures (x * k) * t == x * (t * k)
  {
  }

  /** The number read from a text stands for its digits before the point, and those behind it as a fraction, times its
      power of ten. */
  lemma AmountIs(n: NumText)
    ensures var k := Pow10(|n.fraction|) as real;
      && k > 0.0
      && Amount(NumOf(n)) ==
           (if n.sign == Some(45) then -1.0 else 1.0)
           * (Decimal(n.whole) as real + Decimal(n.fraction) as real / k) * Ten(ExponentOf(n.exponent))
  {
    hide Ten, Decimal, Pow10;
    var p := Pow10(|n.fraction|);
    var e, w, f, d := ExponentOf(n.exponent), Decimal(n.whole), Decimal(n.fraction), Decimal(n.whole + n.fraction);
    DecimalJoin(n.whole, n.fraction);
    TenShift(e, |n.fraction|);
    Scale(w as real, f as real, p as real, Ten(e - |n.fraction|));
    Reals(w, p, f, d);
    Negates(d as real, Ten(e - |n.fraction|));
    Negates(w as real + f as real / p as real, Ten(e));
  }

  lemma Reals(w: int, p: int, f: int, d: int)
    requires d == w * p + f
    ensures d as real == w as real * p as real + f as real
  {
  }

  lemma Negates(x: real, t: real)
    ensures -x * t == -1.0 * x * t && -x * t == -(x * t)
  {
  }

  // ---------------------------------------------------------------------------------------------
  // They are read as such

  lemma {:induction false} ValueIsDecimal(s: Bytes)
    ensures Value(s) == Decimal(s)
    decreases |s|
  {
    if s != [] {
      var n := |s| - 1;
      ValueIsDecimal(s[..n]);
      DecimalJoin(s[..n], [s[n]]);
      assert s[..n] + [s[n]] == s;
      assert [s[n]][1..] == [];
      assert Pow10(1) == 10;
    }
  }

  /** A digit run ends where something else follows. */
  lemma {:induction false} DigitsStop(s: Bytes, i: nat, ds: Bytes)
    requires i + |ds| <= |s| && s[i..i + |ds|] == ds && AllDigits(ds)
    requires i + |ds| < |s| ==> !IsDigit(s[i + |ds|])
    ensures DigitsEnd(s, i) == i + |ds|
    decreases |ds|
  {
    if ds != [] {
      assert s[i] == s[i..i + |ds|][0] == ds[0] && s[i + 1..i + |ds|] == s[i..i + |ds|][1..];
      DigitsStop(s, i + 1, ds[1..]);
    }
  }

  lemma {:induction false} DigitsRun(s: Bytes, i: nat)
    requires i <= |s|
    ensures AllDigits(s[i..DigitsEnd(s, i)])
    decreases |s| - i
  {
    if i < |s| && IsDigit(s[i]) {
      DigitsRun(s, i + 1);
      assert s[i..DigitsEnd(s, i)] == [s[i]] + s[i + 1..DigitsEnd(s, i)];
    }
  }

  /** Where the parts of a number are. */
  lemma NumParts(n: NumText)
    requires LegalNum(n)
    ensures var s := NumBytes(n);
      var a := |SignText(n.sign)|; var b := a + |n.whole|; var p := b + |PointText(n)|;
      && p <= |s| && s[..a] == SignText(n.sign) && s[a..b] == n.whole && s[b..p] == PointText(n)
      && s[p..] == ExponentText(n.exponent)
  {
    var s := NumBytes(n);
    var x, y, z, w := SignText(n.sign), n.whole, PointText(n), ExponentText(n.exponent);
    assert s == x + y + z + w;
    hide NumBytes, PointText, SignText, ExponentText;
    FourParts(x, y, z, w);
  }

  lemma FourParts(x: Bytes, y: Bytes, z: Bytes, w: Bytes)
    ensures var s := x + y + z + w; var a := |x|; var b := a + |y|; var p := b + |z|;
      s[..a] == x && s[a..b] == y && s[b..p] == z && s[p..] == w
  {
  }

  /** Where the parts of an exponent are. */
  lemma ExponentParts(s: Bytes, p: nat, e: Exponent)
    requires p <= |s| && s[p..] == ExponentText(Some(e)) && LegalExponent(e)
    ensures var j := p + 1 + |SignText(e.sign)|;
      && j < |s| && s[p] == e.letter && (e.sign.Some? ==> s[p + 1] == e.sign.value) && s[j..] == e.digits
      && IsDigit(s[j]) && (e.sign.None? ==> s[p + 1] != PLUS && s[p + 1] != MINUS)
  {
    var x, y, z := [e.letter], SignText(e.sign), e.digits;
    var j := p + 1 + |y|;
    ThreeParts(s, p, x, y, z);
    assert s[j] == s[j..][0];
    if e.sign.Some? {
      assert s[p + 1] == s[p + 1..j][0];
    }
  }

  lemma ThreeParts(s: Bytes, p: nat, x: Bytes, y: Bytes, z: Bytes)
    requires p <= |s| && s[p..] == x + y + z && |x| == 1
    ensures var j := p + 1 + |y|; p < |s| && s[p] == x[0] && j <= |s| && s[p + 1..j] == y && s[j..] == z
  {
    assert s[p] == s[p..][0];
    var j := p + 1 + |y|;
    assert s[p + 1..j] == s[p..][1..1 + |y|];
    assert s[j..] == s[p..][1 + |y|..];
  }

  lemma ExponentReads(s: Bytes, p: nat, e: Option<Exponent>)
    requires p <= |s| && s[p..] == ExponentText(e) && (e.Some? ==> LegalExponent(e.value))
    ensures ExponentEnd(s, p) == |s|
    ensures e.Some? ==> p < |s| && ExponentValue(s, p, |s|) == ExponentOf(e)
  {
    hide ExponentText, DigitsEnd, Value, Decimal;
    if e.Some? {
      var x := e.value;
      var j := p + 1 + |SignText(x.sign)|;
      ExponentParts(s, p, x);
      assert s[j..j + |x.digits|] == s[j..|s|] == s[j..];
      DigitsStop(s, j, x.digits);
      ValueIsDecimal(x.digits);
    } else {
      NoExponent(s, p);
    }
  }

  lemma NoExponent(s: Bytes, p: nat)
    requires p <= |s| && s[p..] == ExponentText(None)
    ensures p == |s|
  {
  }

  /** The reading, place by place. */
  lemma StrtodAt(s: Bytes, a: nat, b: nat, p: nat, end: nat, n: NumText)
    requires LegalNum(n) && a <= b <= p <= end <= |s| && a == |SignText(n.sign)| && |s| > 0
    requires (s[0] == PLUS || s[0] == MINUS <==> n.sign.Some?) && (n.sign.Some? ==> s[0] == n.sign.value)
    requires DigitsEnd(s, a) == b && s[a..b] == n.whole && (b < |s| && s[b] == DOT <==> n.point)
    requires if n.point then DigitsEnd(s, b + 1) == p && s[b + 1..p] == n.fraction else p == b
    requires ExponentEnd(s, p) == end && ExponentOf(n.exponent) == if end == p then 0 else ExponentValue(s, p, end)
    ensures Strtod(s) == Ok(NumOf(n), end)
  {
    hide Value, Decimal, ExponentEnd, ExponentValue, DigitsEnd, ExponentText, PointText, LegalExponent, ExponentOf;
    assert n.whole + [] == n.whole;
    ValueIsDecimal(n.whole + n.fraction);
  }

  /** Every number as it is written is read whole. */
  lemma StrtodReads(n: NumText)
    requires LegalNum(n)
    ensures Strtod(NumBytes(n)) == Ok(NumOf(n), |NumBytes(n)|)
  {
    hide Value, Decimal, ExponentEnd, ExponentValue, ExponentText, DigitsEnd, NumBytes, Strtod, LegalExponent;
    var s := NumBytes(n);
    var a := |SignText(n.sign)|;
    var b := a + |n.whole|;
    var p := b + |PointText(n)|;
    NumParts(n);
    StartsAt(n, s);
    WholeEnds(n, s, a, b, p);
    DigitsStop(s, a, n.whole);
    if n.point {
      PointAt(n, s, b, p);
      DigitsStop(s, b + 1, n.fraction);
    } else {
      NoPoint(n, s, b);
    }
    ExponentReads(s, p, n.exponent);
    ExponentNone(n.exponent, s, p);
    StrtodAt(s, a, b, p, |s|, n);
  }

  lemma ExponentNone(e: Option<Exponent>, s: Bytes, p: nat)
    requires p <= |s| && s[p..] == ExponentText(e)
    ensures p == |s| <==> e.None?
    ensures p < |s| ==> s[p] == e.value.letter
  {
    if p < |s| {
      assert s[p] == s[p..][0];
    }
  }

  lemma StartsAt(n: NumText, s: Bytes)
    requires LegalNum(n) && s == NumBytes(n)
    ensures |s| > 0 && (s[0] == PLUS || s[0] == MINUS <==> n.sign.Some?) && (n.sign.Some? ==> s[0] == n.sign.value)
  {
    NumParts(n);
    if n.sign.Some? {
      assert s[0] == s[..1][0];
    } else if n.whole != [] {
      assert s[0] == s[0..|n.whole|][0] == n.whole[0];
    } else {
      assert s[0] == s[0..|PointText(n)|][0];
    }
  }

  /** Behind the digits before the point come the point, an exponent, or nothing. */
  lemma WholeEnds(n: NumText, s: Bytes, a: nat, b: nat, p: nat)
    requires LegalNum(n) && a <= b <= p <= |s| && s[b..p] == PointText(n) && s[p..] == ExponentText(n.exponent)
    ensures b < |s| ==> !IsDigit(s[b]) && (s[b] == DOT <==> n.point)
    ensures b == |s| ==> !n.point
    ensures p < |s| ==> !IsDigit(s[p])
  {
    ExponentNone(n.exponent, s, p);
    if n.point {
      assert s[b] == s[b..p][0];
    }
  }

  lemma PointAt(n: NumText, s: Bytes, b: nat, p: nat)
    requires n.point && b <= p <= |s| && s[b..p] == PointText(n)
    ensures b < |s| && s[b] == DOT && b + 1 + |n.fraction| == p && s[b + 1..p] == n.fraction
  {
    assert s[b] == s[b..p][0] && s[b + 1..p] == s[b..p][1..];
  }

  lemma NoPoint(n: NumText, s: Bytes, b: nat)
    requires LegalNum(n) && !n.point && b <= |s| && (b < |s| ==> (s[b] == DOT <==> n.point))
    ensures !(b < |s| && s[b] == DOT) && n.fraction == [] && PointText(n) == []
  {
  }

  /** Whatever is read as a number is one as it is written. */
  lemma StrtodRead(s: Bytes) returns (n: NumText)
    requires Strtod(s).Ok? && |s| > 0
    ensures LegalNum(n) && NumBytes(n) == s[..Strtod(s).off] && NumOf(n) == Strtod(s).value
  {
    hide Value, Decimal, DigitsEnd, NumBytes, ExponentEnd, ExponentValue, ExponentOf, ExponentText, LegalExponent, Strtod,
      NumOf, PointText, AllDigits;
    var start := if s[0] == PLUS || s[0] == MINUS then 1 else 0;
    var whole := DigitsEnd(s, start);
    var dot := whole < |s| && s[whole] == DOT;
    var fraction := if dot then DigitsEnd(s, whole + 1) else whole;
    StrtodSome(s, start, whole, fraction);
    var e := ExponentRead(s, fraction);
    n := NumText(if start == 1 then Some(s[0]) else None, s[start..whole], dot, if dot then s[whole + 1..fraction] else [], e);
    NoDigits();
    DigitsRun(s, start);
    if dot {
      DigitsRun(s, whole + 1);
    }
    StrtodAt(s, start, whole, fraction, ExponentEnd(s, fraction), n);
    PointSlice(s, n, whole, fraction);
    NumSlices(s, n, start, whole, fraction, ExponentEnd(s, fraction));
  }

  lemma NoDigits()
    ensures AllDigits([])
  {
  }

  /** There are digits where a number is read. */
  lemma StrtodSome(s: Bytes, start: nat, whole: nat, fraction: nat)
    requires |s| > 0 && start == (if s[0] == PLUS || s[0] == MINUS then 1 else 0) && whole == DigitsEnd(s, start)
    requires fraction == if whole < |s| && s[whole] == DOT then DigitsEnd(s, whole + 1) else whole
    requires Strtod(s).Ok?
    ensures whole - start + (if whole < |s| && s[whole] == DOT then fraction - (whole + 1) else 0) > 0
  {
    hide Value, DigitsEnd, ExponentEnd, ExponentValue;
  }

  lemma PointSlice(s: Bytes, n: NumText, whole: nat, fraction: nat)
    requires whole <= fraction <= |s| && (!n.point ==> fraction == whole)
    requires n.point ==> whole < fraction && s[whole] == DOT && n.fraction == s[whole + 1..fraction]
    ensures PointText(n) == s[whole..fraction]
  {
  }

  lemma NumSlices(s: Bytes, n: NumText, start: nat, whole: nat, fraction: nat, end: nat)
    requires start <= whole <= fraction <= end <= |s|
    requires SignText(n.sign) == s[..start] && n.whole == s[start..whole] && PointText(n) == s[whole..fraction]
    requires ExponentText(n.exponent) == s[fraction..end]
    ensures NumBytes(n) == s[..end]
  {
    hide SignText, PointText, ExponentText;
  }

  lemma ExponentRead(s: Bytes, p: nat) returns (e: Option<Exponent>)
    requires p <= |s|
    ensures e.Some? ==> LegalExponent(e.value)
    ensures ExponentText(e) == s[p..ExponentEnd(s, p)]
    ensures ExponentOf(e) == if ExponentEnd(s, p) == p then 0 else ExponentValue(s, p, ExponentEnd(s, p))
  {
    hide Value, Decimal, DigitsEnd;
    var end := ExponentEnd(s, p);
    if end == p {
      e := None;
    } else {
      var signed := s[p + 1] == PLUS || s[p + 1] == MINUS;
      var j := if signed then p + 2 else p + 1;
      DigitsRun(s, j);
      DigitsSome(s, j);
      var sign: Option<Byte> := if signed then Some(s[p + 1]) else None;
      e := Some(Exponent(s[p], sign, s[j..end]));
      ValueIsDecimal(s[j..end]);
      assert s[p..end] == [s[p]] + SignText(sign) + s[j..end];
    }
  }

  lemma DigitsSome(s: Bytes, j: nat)
    requires j < |s| && IsDigit(s[j])
    ensures DigitsEnd(s, j) > j
  {
  }

  // ---------------------------------------------------------------------------------------------
  // In a text

  /** Bytes a number cannot go on with. */
  predicate EndsNumber(b: Byte) {
    !(48 <= b <= 57) && b != 43 && b != 45 && b != 46 && b != 69 && b != 101
  }

  lemma NumberChars(n: NumText)
    requires LegalNum(n)
    ensures forall i :: 0 <= i < |NumBytes(n)| ==> IsNumberChar(NumBytes(n)[i])
  {
  }

  lemma {:induction false} RunOf(c: Bytes, i: nat, n: nat, limit: nat)
    requires i + n < |c| && i + n <= limit && !IsNumberChar(c[i + n])
    requires forall k :: i <= k < i + n ==> IsNumberChar(c[k])
    ensures RunEnd(c, i, limit) == i + n
    decreases n
  {
    if n > 0 {
      RunOf(c, i + 1, n - 1, limit);
    }
  }

  /** A number of at most 63 characters, with something behind it that it cannot go on with. */
  lemma NumberParses(c: Bytes, off: nat, n: NumText)
    requires LegalNum(n) && Found(c, off, NumBytes(n)) && |NumBytes(n)| <= 63
    requires off + |NumBytes(n)| < |c| && EndsNumber(c[off + |NumBytes(n)|])
    ensures ParseNumber(c, off) == Ok(NumOf(n), off + |NumBytes(n)|)
  {
    hide Strtod, NumOf, LegalNum, NumBytes, RunEnd;
    var s := NumBytes(n);
    NumberChars(n);
    forall k | off <= k < off + |s| ensures IsNumberChar(c[k]) {
      FoundAt(c, off, s, k - off);
    }
    RunOf(c, off, |s|, off + NUMBER_BUFFER);
    StrtodReads(n);
  }

  /** What parses as a number is one as it is written. */
  lemma ParsedNumber(c: Bytes, off: nat) returns (n: NumText)
    requires off < |c| && ParseNumber(c, off).Ok?
    ensures LegalNum(n) && Found(c, off, NumBytes(n)) && |NumBytes(n)| <= 63
    ensures ParseNumber(c, off) == Ok(NumOf(n), off + |NumBytes(n)|)
  {
    hide Strtod, NumOf, LegalNum, NumBytes, RunEnd;
    var end := RunEnd(c, off, off + NUMBER_BUFFER);
    n := StrtodRead(c[off..end]);
    assert c[off..end][..|NumBytes(n)|] == c[off..off + |NumBytes(n)|];
  }

  // ---------------------------------------------------------------------------------------------
  // A printed integer reads back

  lemma {:induction false} DigitsDecimal(n: nat)
    ensures Decimal(Digits(n)) == n && AllDigits(Digits(n))
  {
    if n < 10 {
      assert [48 + n][1..] == [];
    } else {
      DigitsDecimal(n / 10);
      DecimalJoin(Digits(n / 10), [48 + n % 10]);
      assert [48 + n % 10][1..] == [];
      assert Pow10(1) == 10;
    }
  }

  lemma {:induction false} DigitsShort(n: nat, k: nat)
    requires k > 0 && n < Pow10(k)
    ensures |Digits(n)| <= k
  {
    if n >= 10 {
      assert n / 10 < Pow10(k - 1);
      DigitsShort(n / 10, k - 1);
    }
  }

  lemma Pow15()
    ensures Pow10(15) == 1_000_000_000_000_000
  {
    assert Pow10(3) == 1000;
    assert Pow10(6) == 1_000_000;
    assert Pow10(9) == 1_000_000_000;
    assert Pow10(12) == 1_000_000_000_000;
  }

  /** How an integer is written. */
  function IntegerText(num: Num): NumText {
    if num.mantissa < 0 then NumText(Some(45), Digits(-num.mantissa), false, [], None)
    else NumText(None, Digits(num.mantissa), false, [], None)
  }

  /** The print of an integer below 10^15 in magnitude is how it is written, with at most 16 characters. */
  lemma PrintedNumber(num: Num)
    requires PlainInteger(num)
    ensures var n := IntegerText(num);
      LegalNum(n) && NumBytes(n) == PrintNum(num) && NumOf(n) == num && |NumBytes(n)| <= 16
  {
    hide Digits, Decimal, Pow10;
    var m := if num.mantissa < 0 then -num.mantissa else num.mantissa;
    DigitsDecimal(m);
    Pow15();
    DigitsShort(m, 15);
    assert Digits(m) + [] == Digits(m);
  }

  lemma PrintedNumberParses(c: Bytes, off: nat, num: Num)
    requires PlainInteger(num) && Found(c, off, PrintNum(num))
    requires off + |PrintNum(num)| < |c| && EndsNumber(c[off + |PrintNum(num)|])
    ensures ParseNumber(c, off) == Ok(num, off + |PrintNum(num)|)
  {
    PrintedNumber(num);
    NumberParses(c, off, IntegerText(num));
  }
}
