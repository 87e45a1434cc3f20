/**
 * RFC 8259 as a relation between texts and values (white space of section 2, values of sections 3 to 5, numbers of
 * section 6, strings of section 7), written out in code units of its own, and how the parser's scans of strings and
 * numbers meet it.
 */
module JsonGrammar {
  import opened Basics
  import opened JsonText
  import opened JsonValue
  import opened StrictJson
  import opened JsonRoundTrip

  /** Space, tab, line feed and carriage return. */
  predicate AllSpace(t: Text) {
    forall i :: 0 <= i < |t| ==> t[i] == 0x20 || t[i] == 0x09 || t[i] == 0x0A || t[i] == 0x0D
  }

  // ---------------------------------------------------------------- strings

  /** The letter after a backslash and the code unit the two stand for. */
  predicate ShortPair(letter: Unit, u: Unit) {
    || (letter == 0x22 && u == 0x22) || (letter == 0x5C && u == 0x5C) || (letter == 0x2F && u == 0x2F) || (letter == 0x62 && u == 0x08)
    || (letter == 0x66 && u == 0x0C) || (letter == 0x6E && u == 0x0A) || (letter == 0x72 && u == 0x0D) || (letter == 0x74 && u == 0x09)
  }

  /** A hexadecimal digit of either case and its value. */
  predicate HexPair(letter: Unit, n: nat) {
    || (letter == 0x30 && n == 0) || (letter == 0x31 && n == 1) || (letter == 0x32 && n == 2) || (letter == 0x33 && n == 3) || (letter == 0x34 && n == 4) || (letter == 0x35 && n == 5)
    || (letter == 0x36 && n == 6) || (letter == 0x37 && n == 7) || (letter == 0x38 && n == 8) || (letter == 0x39 && n == 9) || (letter == 0x41 && n == 10) || (letter == 0x42 && n == 11)
    || (letter == 0x43 && n == 12) || (letter == 0x44 && n == 13) || (letter == 0x45 && n == 14) || (letter == 0x46 && n == 15) || (letter == 0x61 && n == 10) || (letter == 0x62 && n == 11)
    || (letter == 0x63 && n == 12) || (letter == 0x64 && n == 13) || (letter == 0x65 && n == 14) || (letter == 0x66 && n == 15)
  }

  /** Four hexadecimal digits and the code unit they stand for. */
  ghost predicate FourHex(t: Text, u: Unit) {
    && |t| == 4
    && exists a: nat, b: nat, c: nat, d: nat :: HexPair(t[0], a) && HexPair(t[1], b) && HexPair(t[2], c) && HexPair(t[3], d) && u == a * 4096 + b * 256 + c * 16 + d
  }

  /** One code unit written as itself, by a two-character escape, or by four hexadecimal digits. */
  ghost predicate UnitSpelled(u: Unit, t: Text) {
    || (t == [u] && u >= 0x20 && u != 0x22 && u != 0x5C)
    || (|t| == 2 && t[0] == 0x5C && ShortPair(t[1], u))
    || (|t| == 6 && t[0] == 0x5C && t[1] == 0x75 && FourHex(t[2..], u))
  }

  lemma HexMeans(letter: Unit, n: nat)
    ensures HexPair(letter, n) <==> IsHex(letter) && HexValue(letter) == n
  {
  }

  lemma FourHexMeans(t: Text, u: Unit)
    ensures FourHex(t, u) <==> |t| == 4 && StartsHex4(t) && Hex4Value(t) == u
  {
    forall letter, n: nat ensures HexPair(letter, n) <==> IsHex(letter) && HexValue(letter) == n { HexMeans(letter, n); }
    hide HexPair, IsHex;
    if |t| == 4 && StartsHex4(t) && Hex4Value(t) == u {
      var a, b, c, d := HexValue(t[0]), HexValue(t[1]), HexValue(t[2]), HexValue(t[3]);
      assert HexPair(t[0], a) && HexPair(t[1], b) && HexPair(t[2], c) && HexPair(t[3], d);
    }
  }

  lemma ShortMeans(letter: Unit, u: Unit)
    ensures ShortPair(letter, u) <==> Escapable(letter) && letter != LOWER_U && ShortValue(letter) == u
  {
  }

  /** The decoder's own tables agree with the grammar's. */
  lemma SpelledMeans(u: Unit, t: Text)
    ensures UnitSpelled(u, t) <==>
      || (t == [u] && u > 0x1F && u != QUOTE && u != BACKSLASH)
      || (|t| == 2 && t[0] == BACKSLASH && Escapable(t[1]) && t[1] != LOWER_U && ShortValue(t[1]) == u)
      || (|t| == 6 && t[0] == BACKSLASH && t[1] == LOWER_U && StartsHex4(t[2..]) && Hex4Value(t[2..]) == u)
  {
    if |t| == 2 { ShortMeans(t[1], u); }
    if |t| == 6 { FourHexMeans(t[2..], u); }
    hide ShortPair, FourHex, Escapable, ShortValue, StartsHex4, Hex4Value;
  }

  /** The characters between the quotes spell the string. */
  ghost predicate Spells(s: Text, body: Text) {
    if s == [] then body == []
    else exists n :: 0 < n <= |body| && UnitSpelled(s[0], body[..n]) && Spells(s[1..], body[n..])
  }

  /** A spelled unit is taken whole by the scan and read back by the decoder, whatever follows. */
  lemma SpelledReads(u: Unit, e: Text, rest: Text)
    requires UnitSpelled(u, e)
    ensures e != [] && e[0] != QUOTE && BodyUnit(e + rest) == Some(|e|)
    ensures Unescape(e + rest) == [u] + Unescape(rest)
    ensures Scan(e + rest) == Further(Scan(rest), |e|)
  {
    SpelledMeans(u, e);
    hide UnitSpelled;
    var t := e + rest;
    assert t[|e|..] == rest;
    if |e| == 6 {
      assert t[2..][..4] == e[2..];
      assert StartsHex4(t[2..]) && Hex4Value(t[2..]) == u;
    }
  }

  /** What the scan takes next is one spelled unit. */
  lemma BodyUnitSpells(t: Text) returns (u: Unit)
    requires t != [] && t[0] != QUOTE && Scan(t).Some?
    ensures BodyUnit(t).Some? && UnitSpelled(u, t[..BodyUnit(t).value])
    ensures Scan(t[BodyUnit(t).value..]).Some? && Scan(t).value == Scan(t[BodyUnit(t).value..]).value + BodyUnit(t).value
  {
    var n := BodyUnit(t).value;
    var e := t[..n];
    u := if n == 1 then t[0] else if n == 2 then ShortValue(t[1]) else Hex4Value(t[2..]);
    SpelledMeans(u, e);
    hide UnitSpelled;
    assert n == 6 ==> e[2..] == t[2..6];
  }

  lemma SpellsMore(u: Unit, s: Text, e: Text, body: Text)
    requires UnitSpelled(u, e) && Spells(s, body)
    ensures Spells([u] + s, e + body)
  {
    var longer := e + body;
    assert ([u] + s)[1..] == s;
    assert longer[..|e|] == e && longer[|e|..] == body;
    hide UnitSpelled;
    assert 0 < |e| <= |longer| by { SpelledReads(u, e, []); }
    assert UnitSpelled(([u] + s)[0], longer[..|e|]) && Spells(([u] + s)[1..], longer[|e|..]);
  }

  lemma SpellsFirst(s: Text, body: Text) returns (e: Text, tail: Text)
    requires Spells(s, body) && s != []
    ensures body == e + tail && UnitSpelled(s[0], e) && Spells(s[1..], tail)
  {
    var n :| 0 < n <= |body| && UnitSpelled(s[0], body[..n]) && Spells(s[1..], body[n..]);
    e, tail := body[..n], body[n..];
  }

  /** A spelling is scanned to its closing quote and decoded to what it spells. */
  lemma {:induction false} SpelledScans(s: Text, body: Text, rest: Text)
    requires Spells(s, body)
    ensures Unescape(body) == s && Scan(body + ([QUOTE] + rest)) == Some(|body|)
    decreases |s|
  {
    var close := [QUOTE] + rest;
    if s == [] {
      assert body + close == close;
    } else {
      hide UnitSpelled, Spells, Unescape, Scan;
      var e, tail := SpellsFirst(s, body);
      SpelledScans(s[1..], tail, rest);
      SpelledReads(s[0], e, tail);
      SpelledReads(s[0], e, tail + close);
      Regroup(e, tail, close);
      assert [s[0]] + s[1..] == s;
    }
  }

  /** A text cut at `n` and then at `end`. */
  lemma CutTwice(t: Text, n: nat, end: nat)
    requires n <= end <= |t|
    ensures end - n <= |t[n..]| && t[..end] == t[..n] + t[n..][..end - n]
  {
  }

  lemma EmptyScan(t: Text)
    requires t != [] && t[0] == QUOTE
    ensures Scan(t) == Some(0) && Spells(Unescape(t[..0]), t[..0])
  {
    assert t[..0] == [];
  }

  lemma ScanHasText(t: Text)
    requires Scan(t).Some?
    ensures t != [] && Scan(t).value <= |t|
  {
  }

  /** Whatever the scan accepts is a spelling of what the decoder makes of it. */
  lemma {:induction false} ScannedSpells(t: Text)
    requires Scan(t).Some?
    ensures Scan(t).value <= |t| && Spells(Unescape(t[..Scan(t).value]), t[..Scan(t).value])
    decreases |t|
  {
    hide UnitSpelled, Spells, Unescape, Scan, BodyUnit;
    ScanHasText(t);
    if t[0] == QUOTE {
      EmptyScan(t);
    } else {
      var end := Scan(t).value;
      var u := BodyUnitSpells(t);
      var n := BodyUnit(t).value;
      ScannedSpells(t[n..]);
      CutTwice(t, n, end);
      SpelledReads(u, t[..n], t[n..][..end - n]);
      SpellsMore(u, Unescape(t[n..][..end - n]), t[..n], t[n..][..end - n]);
    }
  }

  /** A quoted text for the string. */
  ghost predicate Quoted(s: Text, t: Text) {
    |t| >= 2 && t[0] == 0x22 && t[|t| - 1] == 0x22 && Spells(s, t[1..|t| - 1])
  }

  /** What the string reader makes of a text whose scan ends. */
  lemma StringUnfolds(l: Limits, t: Text)
    ensures StringAt(l, t).Some? ==> t != [] && t[0] == QUOTE && Scan(t[1..]).Some?
    ensures t != [] && t[0] == QUOTE && Scan(t[1..]).Some? ==>
      Scan(t[1..]).value < |t[1..]|
      && var s := Unescape(t[1..][..Scan(t[1..]).value]);
         StringAt(l, t) == if StringFits(l, s) then Some((s, t[1..][Scan(t[1..]).value + 1..])) else None
  {
    hide Scan, Unescape, WellFormed;
  }

  lemma QuotedParts(s: Text, t: Text, rest: Text) returns (body: Text)
    requires Quoted(s, t)
    ensures Spells(s, body) && t + rest != [] && (t + rest)[0] == QUOTE && (t + rest)[1..] == body + ([QUOTE] + rest)
    ensures (body + ([QUOTE] + rest))[..|body|] == body && (body + ([QUOTE] + rest))[|body| + 1..] == rest
  {
    hide Spells;
    body := t[1..|t| - 1];
  }

  /** The string reader accepts exactly the quoted texts whose string is short enough and well formed. */
  lemma QuotedReads(l: Limits, s: Text, t: Text, rest: Text)
    requires Quoted(s, t) && StringFits(l, s)
    ensures StringAt(l, t + rest) == Some((s, rest))
  {
    hide Quoted, Spells, Scan, Unescape, WellFormed, StringAt, StringFits;
    var body := QuotedParts(s, t, rest);
    SpelledScans(s, body, rest);
    StringUnfolds(l, t + rest);
  }

  lemma QuotedSlice(s: Text, t: Text, end: nat)
    requires t != [] && t[0] == QUOTE && end < |t[1..]| && t[1..][end] == QUOTE && Spells(s, t[1..][..end])
    ensures end + 2 <= |t| && Quoted(s, t[..end + 2]) && t[end + 2..] == t[1..][end + 1..]
  {
    hide Spells;
    assert t[..end + 2][1..end + 1] == t[1..][..end];
  }

  lemma {:induction false} ScanEnds(t: Text)
    requires Scan(t).Some?
    ensures Scan(t).value < |t| && t[Scan(t).value] == QUOTE
    decreases |t|
  {
    if t[0] != QUOTE {
      var u := BodyUnitSpells(t);
      var n := BodyUnit(t).value;
      ScanEnds(t[n..]);
      hide Scan, BodyUnit, UnitSpelled;
      assert n > 0;
    }
  }

  lemma ReadIsQuoted(l: Limits, t: Text) returns (n: nat)
    requires StringAt(l, t).Some?
    ensures 2 <= n <= |t| && Quoted(StringAt(l, t).value.0, t[..n]) && t[n..] == StringAt(l, t).value.1 && StringFits(l, StringAt(l, t).value.0)
  {
    hide Quoted, Spells, Scan, Unescape, WellFormed, StringAt, StringFits;
    StringUnfolds(l, t);
    ScannedSpells(t[1..]);
    ScanEnds(t[1..]);
    n := Scan(t[1..]).value + 2;
    QuotedSlice(StringAt(l, t).value.0, t, Scan(t[1..]).value);
  }

  // ---------------------------------------------------------------- numbers

  /** At least one digit and nothing else. */
  predicate DigitsOnly(t: Text) {
    t != [] && forall i :: 0 <= i < |t| ==> 0x30 <= t[i] <= 0x39
  }

  predicate WholeForm(t: Text) {
    DigitsOnly(t) && (t[0] == 0x30 ==> |t| == 1)
  }

  /** A point and digits, or nothing. */
  predicate FractionForm(t: Text) {
    t == [] || (t[0] == 0x2E && DigitsOnly(t[1..]))
  }

  /** The letter in either case, a sign or none, and digits; or nothing. */
  predicate ExponentForm(t: Text) {
    t == [] || ((t[0] == 0x65 || t[0] == 0x45) && (DigitsOnly(t[1..]) || (|t| > 1 && (t[1] == 0x2B || t[1] == 0x2D) && DigitsOnly(t[2..]))))
  }

  /** Sign, whole part, fraction and exponent, cut at `a`, `b` and `c`. */
  predicate NumberCut(t: Text, a: nat, b: nat, c: nat) {
    && a <= b <= c <= |t| && (a == 0 || (a == 1 && t[0] == 0x2D))
    && WholeForm(t[a..b]) && FractionForm(t[b..c]) && ExponentForm(t[c..])
  }

  function Tens(k: nat): (p: nat)
    ensures p > 0
  {
    if k == 0 then 1 else 10 * Tens(k - 1)
  }

  /** The place-value sum of the digits. */
  function PlaceValue(t: Text): nat
    requires t == [] || DigitsOnly(t)
  {
    if t == [] then 0 else (t[0] - 0x30) * Tens(|t| - 1) + PlaceValue(t[1..])
  }

  lemma TimesTen(x: int, k: int)
    ensures x * (10 * k) == x * k * 10
  {
  }

  lemma {:induction false} PlaceOneMore(t: Text, d: Unit)
    requires t == [] || DigitsOnly(t)
    requires 0x30 <= d <= 0x39
    ensures DigitsOnly(t + [d]) && PlaceValue(t + [d]) == PlaceValue(t) * 10 + (d - 0x30)
    decreases |t|
  {
    var u := t + [d];
    if t == [] {
      assert u == [d] && u[1..] == [] && Tens(0) == 1;
    } else {
      PlaceOneMore(t[1..], d);
      assert u[1..] == t[1..] + [d];
      TimesTen(t[0] - 0x30, Tens(|t| - 1));
    }
  }

  /** The digit loop of the parser's model computes the place-value sum. */
  lemma {:induction false} PlaceValueMeans(t: Text)
    requires t == [] || DigitsOnly(t)
    ensures (forall i :: 0 <= i < |t| ==> IsDigit(t[i])) && PlaceValue(t) == NatValue(t)
    decreases |t|
  {
    if t != [] {
      var front, d := t[..|t| - 1], t[|t| - 1];
      PlaceValueMeans(front);
      PlaceOneMore(front, d);
      assert t == front + [d];
    }
  }

  lemma WholeValueMeans(t: Text)
    requires WholeForm(t)
    ensures DigitsOnly(t) && (forall i :: 0 <= i < |t| ==> IsDigit(t[i])) && PlaceValue(t) == NatValue(t)
  {
    PlaceValueMeans(t);
  }

  /** A plain integer of at most 2^53 - 1 other than negative zero is that integer; any other number keeps its text. */
  predicate CutDenotes(number: Number, t: Text, a: nat, b: nat, c: nat)
    requires NumberCut(t, a, b, c)
  {
    var m: int := PlaceValue(t[a..b]);
    if b == |t| && m <= 9007199254740991 && (a == 1 ==> m > 0) then number == Int(if a == 1 then -m else m) else number == Other(t)
  }

  ghost predicate NumberWritten(number: Number, t: Text) {
    exists a: nat, b: nat, c: nat :: NumberCut(t, a, b, c) && CutDenotes(number, t, a, b, c)
  }

  /** What follows cannot be part of a number. */
  predicate Ended(rest: Text) {
    rest == [] || (!IsDigit(rest[0]) && rest[0] != DOT && rest[0] != 0x65 && rest[0] != 0x45)
  }

  lemma ReadIsNumber(t: Text)
    requires NumberAt(t).Some?
    ensures NumberWritten(NumberAt(t).value.0, t[..NumberAt(t).value.1])
  {
    var sign := if t != [] && t[0] == MINUS then 1 else 0;
    var head := sign + WholeLength(t[sign..]);
    var length := head + FractionLength(t[head..]);
    var all := length + ExponentLength(t[length..]);
    assert sign <= head <= length <= all <= |t| && WholeLength(t[sign..]) > 0;
    hide WholeLength, FractionLength, ExponentLength, NatValue, WholeForm, FractionForm, ExponentForm, NumberAt;
    WholeIs(t[sign..]);
    FractionIs(t[head..]);
    ExponentIs(t[length..]);
    ReadParts(t, sign, head, length, all);
  }

  lemma ReadParts(t: Text, sign: nat, head: nat, length: nat, all: nat)
    requires NumberAt(t).Some? && sign == (if t != [] && t[0] == MINUS then 1 else 0)
    requires sign <= head <= length <= all <= |t|
    requires head == sign + WholeLength(t[sign..]) && length == head + FractionLength(t[head..]) && all == length + ExponentLength(t[length..])
    requires WholeForm(t[sign..][..head - sign]) && FractionForm(t[head..][..length - head]) && ExponentForm(t[length..][..all - length])
    ensures NumberWritten(NumberAt(t).value.0, t[..NumberAt(t).value.1])
  {
    hide WholeLength, FractionLength, ExponentLength, NatValue, WholeForm, FractionForm, ExponentForm;
    var e := t[..all];
    assert e[sign..head] == t[sign..][..head - sign] == t[sign..head];
    assert e[head..length] == t[head..][..length - head];
    assert e[length..] == t[length..][..all - length];
    assert NumberCut(e, sign, head, length);
    WholeValueMeans(e[sign..head]);
    hide PlaceValue;
    assert CutDenotes(NumberAt(t).value.0, e, sign, head, length);
  }

  lemma WholeIs(t: Text)
    ensures WholeLength(t) > 0 ==> WholeForm(t[..WholeLength(t)])
  {
  }

  lemma FractionIs(t: Text)
    ensures FractionForm(t[..FractionLength(t)])
  {
    if FractionLength(t) > 0 { assert t[..FractionLength(t)][1..] == t[1..][..DigitCount(t[1..])]; }
  }

  lemma ExponentIs(t: Text)
    ensures ExponentForm(t[..ExponentLength(t)])
  {
    var n := ExponentLength(t);
    if n > 0 {
      var sign := if |t| > 1 && (t[1] == PLUS || t[1] == MINUS) then 1 else 0;
      assert t[..n][1 + sign..] == t[1 + sign..][..DigitCount(t[1 + sign..])];
    }
  }

  lemma WholeReads(w: Text, rest: Text)
    requires WholeForm(w) && (rest == [] || !IsDigit(rest[0]))
    ensures WholeLength(w + rest) == |w|
  {
    DigitCountOf(w, rest);
  }

  lemma FractionReads(f: Text, rest: Text)
    requires FractionForm(f) && (rest == [] || (!IsDigit(rest[0]) && rest[0] != DOT))
    ensures FractionLength(f + rest) == |f|
  {
    if f != [] {
      DigitCountOf(f[1..], rest);
      assert (f + rest)[1..] == f[1..] + rest;
    } else {
      assert f + rest == rest;
    }
  }

  lemma ExponentReads(e: Text, rest: Text)
    requires ExponentForm(e) && Ended(rest)
    ensures ExponentLength(e + rest) == |e|
  {
    if e == [] {
      assert e + rest == rest;
    } else {
      var sign := if DigitsOnly(e[1..]) then 0 else 1;
      assert sign == 0 ==> IsDigit(e[1..][0]);
      DigitCountOf(e[1 + sign..], rest);
      assert (e + rest)[1 + sign..] == e[1 + sign..] + rest;
      assert (e + rest)[1] == e[1];
    }
  }

  lemma CutsWithRest(t: Text, rest: Text, a: nat, b: nat, c: nat)
    requires a <= b <= c <= |t|
    ensures var u := t + rest;
      && u[a..] == t[a..b] + (t[b..c] + (t[c..] + rest)) && u[b..] == t[b..c] + (t[c..] + rest) && u[c..] == t[c..] + rest
      && u[a..b] == t[a..b] && u[..|t|] == t
  {
  }

  /** Three matched lengths decide what the pattern reads. */
  lemma NumberFromLengths(u: Text, a: nat, b: nat, c: nat, all: nat, number: Number)
    requires a == (if u != [] && u[0] == MINUS then 1 else 0) && a < b <= c <= all <= |u|
    requires WholeLength(u[a..]) == b - a && FractionLength(u[b..]) == c - b && ExponentLength(u[c..]) == all - c
    requires NumberCut(u[..all], a, b, c) && CutDenotes(number, u[..all], a, b, c)
    ensures NumberAt(u) == Some((number, all))
  {
    hide WholeLength, FractionLength, ExponentLength, NatValue, WholeForm, FractionForm, ExponentForm;
    assert u[..all][a..b] == u[a..b];
    WholeValueMeans(u[a..b]);
    hide PlaceValue;
  }

  lemma FirstOf(t: Text, rest: Text)
    ensures t == [] ==> t + rest == rest
    ensures t != [] ==> t + rest != [] && (t + rest)[0] == t[0]
  {
  }

  /** A number text is read whole, as what it denotes, when nothing after it can belong to it. */
  lemma NumberReads(number: Number, t: Text, rest: Text)
    requires NumberWritten(number, t) && Ended(rest)
    ensures NumberAt(t + rest) == Some((number, |t|))
  {
    var a: nat, b: nat, c: nat :| NumberCut(t, a, b, c) && CutDenotes(number, t, a, b, c);
    var w, f, e := t[a..b], t[b..c], t[c..];
    CutsWithRest(t, rest, a, b, c);
    FirstOf(e, rest);
    FirstOf(f, e + rest);
    assert IsDigit(w[0]) && t[a] == w[0] && (t + rest)[0] == t[0];
    WholeReads(w, f + (e + rest));
    FractionReads(f, e + rest);
    ExponentReads(e, rest);
    hide WholeLength, FractionLength, ExponentLength, NatValue, CutDenotes, NumberAt, PlaceValue, NumberWritten, Ended, WholeForm, FractionForm, ExponentForm;
    NumberFromLengths(t + rest, a, b, c, |t|, number);
  }

  // ---------------------------------------------------------------- values

  /** The text of a value, without white space around it. */
  ghost predicate Writes(v: Json, t: Text)
    decreases v, 2, 0
  {
    match v
    case Null => t == [0x6E, 0x75, 0x6C, 0x6C]
    case Bool(b) => t == if b then [0x74, 0x72, 0x75, 0x65] else [0x66, 0x61, 0x6C, 0x73, 0x65]
    case Num(number) => NumberWritten(number, t)
    case Str(s) => Quoted(s, t)
    case Arr(items) => Between(0x5B, 0x5D, t) && if items == [] then AllSpace(Inner(t)) else ItemsWritten(items, Inner(t))
    case Obj(entries) => Between(0x7B, 0x7D, t) && if entries.Keys == {} then AllSpace(Inner(t)) else EntriesWritten(v, Inner(t))
  }

  predicate Between(opening: Unit, closing: Unit, t: Text) {
    |t| >= 2 && t[0] == opening && t[|t| - 1] == closing
  }

  function Inner(t: Text): Text
    requires |t| >= 2
  {
    t[1..|t| - 1]
  }

  /** A value with white space on either side. */
  ghost predicate Padded(v: Json, t: Text)
    decreases v, 3, 0
  {
    exists i: nat, j: nat :: PaddedAt(v, t, i, j)
  }

  ghost predicate PaddedAt(v: Json, t: Text, i: nat, j: nat)
    decreases v, 2, 1
  {
    i <= j <= |t| && AllSpace(t[..i]) && Writes(v, t[i..j]) && AllSpace(t[j..])
  }

  /** One or more padded values with commas between them. */
  ghost predicate ItemsWritten(items: seq<Json>, t: Text)
    decreases items, 0, 0
  {
    items != [] &&
    if |items| == 1 then Padded(items[0], t)
    else exists k: nat :: k < |t| && t[k] == 0x2C && Padded(items[0], t[..k]) && ItemsWritten(items[1..], t[k + 1..])
  }

  /** The members, each key once, in some order. */
  ghost predicate EntriesWritten(v: Json, t: Text)
    requires v.Obj?
    decreases v, 1, 0
  {
    exists ks: seq<Text> :: ks != [] && NoRepeats(ks) && KeySet(ks) == v.entries.Keys && MembersWritten(v, ks, t)
  }

  predicate NoRepeats(ks: seq<Text>) {
    forall i, j :: 0 <= i < j < |ks| ==> ks[i] != ks[j]
  }

  ghost predicate MembersWritten(v: Json, ks: seq<Text>, t: Text)
    requires v.Obj?
    decreases v, 0, |ks|
  {
    ks != [] &&
    if |ks| == 1 then MemberWritten(v, ks[0], t)
    else exists k: nat :: k < |t| && t[k] == 0x2C && MemberWritten(v, ks[0], t[..k]) && MembersWritten(v, ks[1..], t[k + 1..])
  }

  ghost predicate MemberWritten(v: Json, key: Text, t: Text)
    requires v.Obj?
    decreases v, 0, 0
  {
    key in v.entries && exists a: nat, b: nat, c: nat :: MemberAt(v, key, t, a, b, c)
  }

  /** White space, the quoted key up to `b`, white space, the colon at `c`, the padded value. */
  ghost predicate MemberAt(v: Json, key: Text, t: Text, a: nat, b: nat, c: nat)
    requires v.Obj? && key in v.entries
    decreases v.entries[key], 4, 0
  {
    a <= b <= c < |t| && AllSpace(t[..a]) && Quoted(key, t[a..b]) && AllSpace(t[b..c]) && t[c] == 0x3A && Padded(v.entries[key], t[c + 1..])
  }
}
