/** JSON strings and numbers as UTF-16 text: escaping, unescaping, surrogate pairing and decimal lexemes. */
module JsonText {
  import opened Basics

  type Unit = u: int | 0 <= u < 0x10000
  type Text = seq<Unit>

  const QUOTE: Unit := 0x22
  const BACKSLASH: Unit := 0x5C
  const COMMA: Unit := 0x2C
  const COLON: Unit := 0x3A
  const OPEN_BRACE: Unit := 0x7B
  const CLOSE_BRACE: Unit := 0x7D
  const OPEN_BRACKET: Unit := 0x5B
  const CLOSE_BRACKET: Unit := 0x5D
  const MINUS: Unit := 0x2D
  const PLUS: Unit := 0x2B
  const DOT: Unit := 0x2E
  const ZERO: Unit := 0x30
  const LOWER_U: Unit := 0x75
  const BYTE_ORDER_MARK: Unit := 0xFEFF

  // ---------------------------------------------------------------- surrogates

  predicate High(u: Unit) { 0xD800 <= u <= 0xDBFF }
  predicate Low(u: Unit) { 0xDC00 <= u <= 0xDFFF }

  /** Every high surrogate is followed by a low one and every low one is preceded by a high one. */
  predicate WellFormed(s: Text) {
    if s == [] then true
    else if High(s[0]) then |s| >= 2 && Low(s[1]) && WellFormed(s[2..])
    else !Low(s[0]) && WellFormed(s[1..])
  }

  /** What the printer's own scan accepts: a comparison with a missing code unit never fails it. */
  predicate LooselyFormed(s: Text) {
    if s == [] then true
    else if High(s[0]) then |s| == 1 || (Low(s[1]) && LooselyFormed(s[2..]))
    else !Low(s[0]) && LooselyFormed(s[1..])
  }

  /** The printer's scan lets through exactly one kind of broken text: one ending in an unpaired high surrogate. */
  lemma {:induction false} LooseEnds(s: Text)
    ensures LooselyFormed(s) <==> WellFormed(s) || (s != [] && High(s[|s| - 1]) && WellFormed(s[..|s| - 1]))
    ensures s != [] && High(s[|s| - 1]) ==> !WellFormed(s)
    decreases |s|
  {
    if s != [] && High(s[0]) {
      if |s| >= 2 {
        LooseEnds(s[2..]);
        if |s| > 2 { assert s[..|s| - 1][2..] == s[2..][..|s| - 3]; }
      }
    } else if s != [] {
      LooseEnds(s[1..]);
      if |s| > 1 { assert s[..|s| - 1][1..] == s[1..][..|s| - 2]; }
    }
  }

  /** The parser's surrogate scan over a decoded string. */
  method CheckSurrogates(s: Text) returns (ok: bool)
    ensures ok == WellFormed(s)
  {
    var index := 0;
    while index < |s|
      invariant index <= |s| && WellFormed(s) == WellFormed(s[index..])
    {
      var code := s[index];
      if High(code) {
        if !(index + 1 < |s| && Low(s[index + 1])) { return false; }
        assert s[index..][2..] == s[index + 2..];
        index := index + 1;
      } else if Low(code) {
        return false;
      } else {
        assert s[index..][1..] == s[index + 1..];
      }
      index := index + 1;
    }
    return true;
  }

  /** The printer's surrogate scan: past the end there is no code unit, and no comparison with it holds. */
  method AssertValidUnicode(s: Text) returns (ok: bool)
    ensures ok == LooselyFormed(s)
  {
    var index := 0;
    while index < |s|
      invariant index <= |s| + 1 && LooselyFormed(s) == LooselyFormed(if index <= |s| then s[index..] else [])
    {
      var code := s[index];
      if High(code) {
        if index + 1 < |s| && !Low(s[index + 1]) { return false; }
        if index + 1 < |s| { assert s[index..][2..] == s[index + 2..]; }
        index := index + 1;
      } else if Low(code) {
        return false;
      } else {
        assert s[index..][1..] == s[index + 1..];
      }
      index := index + 1;
    }
    return true;
  }

  // ---------------------------------------------------------------- escapes

  function HexDigit(n: int): (u: Unit)
    requires 0 <= n < 16
  {
    if n < 10 then ZERO + n else 0x61 + (n - 10)
  }

  predicate IsHex(u: Unit) { 0x30 <= u <= 0x39 || 0x41 <= u <= 0x46 || 0x61 <= u <= 0x66 }

  function HexValue(u: Unit): (n: int)
    requires IsHex(u)
    ensures 0 <= n < 16
  {
    if u <= 0x39 then u - 0x30 else if u <= 0x46 then u - 0x41 + 10 else u - 0x61 + 10
  }

  function Hex4(u: Unit): (t: Text)
    ensures |t| == 4 && forall i :: 0 <= i < 4 ==> IsHex(t[i])
  {
    [HexDigit(u / 4096), HexDigit(u / 256 % 16), HexDigit(u / 16 % 16), HexDigit(u % 16)]
  }

  predicate StartsHex4(t: Text) {
    |t| >= 4 && IsHex(t[0]) && IsHex(t[1]) && IsHex(t[2]) && IsHex(t[3])
  }

  function Hex4Value(t: Text): Unit
    requires StartsHex4(t)
  {
    HexValue(t[0]) * 4096 + HexValue(t[1]) * 256 + HexValue(t[2]) * 16 + HexValue(t[3])
  }

  /** The letter after a backslash for the code units that have a short escape. */
  function ShortEscape(u: Unit): Option<Unit> {
    if u == QUOTE then Some(QUOTE)
    else if u == BACKSLASH then Some(BACKSLASH)
    else if u == 0x08 then Some(0x62)
    else if u == 0x0C then Some(0x66)
    else if u == 0x0A then Some(0x6E)
    else if u == 0x0D then Some(0x72)
    else if u == 0x09 then Some(0x74)
    else None
  }

  predicate Escapable(u: Unit) {
    u == QUOTE || u == BACKSLASH || u == 0x2F || u == 0x62 || u == 0x66 || u == 0x6E || u == 0x72 || u == 0x74 || u == LOWER_U
  }

  function ShortValue(u: Unit): Unit {
    if u == 0x62 then 0x08 else if u == 0x66 then 0x0C else if u == 0x6E then 0x0A
    else if u == 0x72 then 0x0D else if u == 0x74 then 0x09 else u
  }

  /** One code unit of output text, escaped where the printer escapes it. */
  function EscapeUnit(u: Unit): Text {
    if ShortEscape(u).Some? then [BACKSLASH, ShortEscape(u).value]
    else if u < 0x20 || High(u) || Low(u) then [BACKSLASH, LOWER_U] + Hex4(u)
    else [u]
  }

  /** The printer leaves surrogate pairs alone and escapes unpaired surrogates. */
  function Escape(s: Text): Text {
    if s == [] then []
    else if |s| >= 2 && High(s[0]) && Low(s[1]) then s[..2] + Escape(s[2..])
    else EscapeUnit(s[0]) + Escape(s[1..])
  }

  /** How much of a string body one character takes: itself, or an escape; control characters are refused. */
  function BodyUnit(t: Text): (n: Option<nat>)
    requires t != []
    ensures n.Some? ==> 0 < n.value <= |t|
  {
    if t[0] == BACKSLASH then
      if |t| == 1 || !Escapable(t[1]) then None
      else if t[1] == LOWER_U then if StartsHex4(t[2..]) then Some(6) else None
      else Some(2)
    else if t[0] <= 0x1F then None
    else Some(1)
  }

  /** Distance to the closing quote of a string body, if the body is well written. */
  function Scan(t: Text): (end: Option<nat>)
    ensures end.Some? ==> end.value < |t| && t[end.value] == QUOTE
  {
    if t == [] then None
    else if t[0] == QUOTE then Some(0)
    else
      match BodyUnit(t)
      case None => None
      case Some(length) => Further(Scan(t[length..]), length)
  }

  function Further(end: Option<nat>, steps: nat): Option<nat> {
    if end.Some? then Some(end.value + steps) else None
  }

  /** The string a well-written body stands for. */
  function Unescape(body: Text): Text {
    if body == [] then []
    else if body[0] == BACKSLASH && |body| >= 2 then
      if body[1] == LOWER_U && StartsHex4(body[2..]) then [Hex4Value(body[2..])] + Unescape(body[6..])
      else [ShortValue(body[1])] + Unescape(body[2..])
    else [body[0]] + Unescape(body[1..])
  }

  lemma Hex4Undone(u: Unit)
    ensures StartsHex4(Hex4(u)) && Hex4Value(Hex4(u)) == u
  {
    assert u / 256 == u / 4096 * 16 + u / 256 % 16;
    assert u / 16 == u / 256 * 16 + u / 16 % 16;
    assert u == u / 16 * 16 + u % 16;
    forall n | 0 <= n < 16 ensures HexValue(HexDigit(n)) == n {}
  }

  /** One escaped unit is read back whole, whatever follows. */
  lemma UnitUndone(u: Unit, t: Text)
    ensures Unescape(EscapeUnit(u) + t) == [u] + Unescape(t)
    ensures Scan(EscapeUnit(u) + t) == Further(Scan(t), |EscapeUnit(u)|)
  {
    var e := EscapeUnit(u) + t;
    if ShortEscape(u).Some? {
      assert e[2..] == t;
    } else if u < 0x20 || High(u) || Low(u) {
      Hex4Undone(u);
      assert e[2..][..4] == Hex4(u);
      assert e[6..] == t;
    } else {
      assert e[1..] == t;
    }
  }

  /** A surrogate pair passes through both ways. */
  lemma PairUndone(high: Unit, low: Unit, t: Text)
    requires High(high) && Low(low)
    ensures Unescape([high, low] + t) == [high, low] + Unescape(t)
    ensures Scan([high, low] + t) == Further(Scan(t), 2)
  {
    var e := [high, low] + t;
    assert e[1..] == [low] + t;
    assert e[1..][1..] == t;
  }

  lemma Regroup(a: Text, b: Text, c: Text)
    ensures (a + b) + c == a + (b + c)
  {
  }

  /** How much of a string the escaper takes at a time. */
  function Lead(s: Text): (n: nat)
    requires s != []
    ensures 1 <= n <= |s|
  {
    if |s| >= 2 && High(s[0]) && Low(s[1]) then 2 else 1
  }

  /** What the escaper makes of the lead is read back whole, whatever follows. */
  lemma LeadUndone(s: Text, t: Text) returns (e: Text)
    requires s != []
    ensures Escape(s) == e + Escape(s[Lead(s)..])
    ensures Unescape(e + t) == s[..Lead(s)] + Unescape(t)
    ensures Scan(e + t) == Further(Scan(t), |e|)
  {
    if Lead(s) == 2 {
      e := s[..2];
      assert e == [s[0], s[1]];
      PairUndone(s[0], s[1], t);
    } else {
      e := EscapeUnit(s[0]);
      UnitUndone(s[0], t);
      assert s[..1] == [s[0]];
    }
    hide Unescape, Scan, EscapeUnit;
  }

  /** Unescaping undoes escaping, for every string. */
  lemma {:induction false} EscapeUndone(s: Text)
    ensures Unescape(Escape(s)) == s
    decreases |s|
  {
    if s != [] {
      hide Unescape, Escape;
      var tail := s[Lead(s)..];
      EscapeUndone(tail);
      var e := LeadUndone(s, Escape(tail));
      assert s == s[..Lead(s)] + tail;
    }
  }

  /** An escaped string ends at its own closing quote. */
  lemma {:induction false} EscapeScans(s: Text, rest: Text)
    ensures Scan(Escape(s) + ([QUOTE] + rest)) == Some(|Escape(s)|)
    decreases |s|
  {
    var close := [QUOTE] + rest;
    if s == [] {
      assert Escape(s) + close == close;
    } else {
      hide Scan, Escape;
      var tail := s[Lead(s)..];
      EscapeScans(tail, rest);
      var e := LeadUndone(s, Escape(tail) + close);
      Regroup(e, Escape(tail), close);
    }
  }

  // ---------------------------------------------------------------- numbers

  predicate IsDigit(u: Unit) { 0x30 <= u <= 0x39 }

  function Digits(n: nat): (t: Text)
    ensures t != [] && forall i :: 0 <= i < |t| ==> IsDigit(t[i])
  {
    if n < 10 then [ZERO + n] else Digits(n / 10) + [ZERO + n % 10]
  }

  function Decimal(n: int): Text {
    if n < 0 then [MINUS] + Digits(-n) else Digits(n)
  }

  function NatValue(t: Text): nat
    requires forall i :: 0 <= i < |t| ==> IsDigit(t[i])
  {
    if t == [] then 0
    else
      assert IsDigit(t[|t| - 1]);
      NatValue(t[..|t| - 1]) * 10 + (t[|t| - 1] as int - 0x30)
  }

  lemma {:induction false} DigitsUndone(n: nat)
    ensures NatValue(Digits(n)) == n
    ensures Digits(n)[0] == ZERO ==> n == 0 && |Digits(n)| == 1
  {
    var t := Digits(n);
    if n < 10 {
      assert t[..0] == [];
    } else {
      DigitsUndone(n / 10);
      assert t[..|t| - 1] == Digits(n / 10);
    }
  }

  function DigitCount(t: Text): (n: nat)
    ensures n <= |t| && forall i :: 0 <= i < n ==> IsDigit(t[i])
    ensures n < |t| ==> !IsDigit(t[n])
  {
    if t == [] || !IsDigit(t[0]) then 0 else 1 + DigitCount(t[1..])
  }

  /** Length of the integer part the number pattern matches: a lone zero, or digits not starting with zero. */
  function WholeLength(t: Text): (n: nat)
    ensures n <= |t| && forall i :: 0 <= i < n ==> IsDigit(t[i])
  {
    if t != [] && t[0] == ZERO then 1 else DigitCount(t)
  }

  function FractionLength(t: Text): (n: nat)
    ensures n <= |t|
  {
    if t != [] && t[0] == DOT && DigitCount(t[1..]) > 0 then 1 + DigitCount(t[1..]) else 0
  }

  function ExponentLength(t: Text): (n: nat)
    ensures n <= |t|
  {
    if t == [] || !(t[0] == 0x65 || t[0] == 0x45) then 0
    else
      var sign := if |t| > 1 && (t[1] == PLUS || t[1] == MINUS) then 1 else 0;
      if DigitCount(t[1 + sign..]) > 0 then 1 + sign + DigitCount(t[1 + sign..]) else 0
  }

  datatype Number = Int(n: int) | Other(lexeme: Text)

  /** The longest number at the start of the text: a safe integer, or the lexeme of anything else. */
  function NumberAt(t: Text): (r: Option<(Number, nat)>)
    ensures r.Some? ==> 0 < r.value.1 <= |t|
  {
    var sign := if t != [] && t[0] == MINUS then 1 else 0;
    var whole := WholeLength(t[sign..]);
    if whole == 0 then None
    else
      var head := sign + whole;
      var length := head + FractionLength(t[head..]);
      var all := length + ExponentLength(t[length..]);
      var magnitude: int := NatValue(t[sign..head]);
      if all == head && magnitude <= MAX_SAFE && (sign == 1 ==> magnitude > 0) then Some((Int(if sign == 1 then -magnitude else magnitude), all))
      else Some((Other(t[..all]), all))
  }

  /** Nothing that follows extends a number. */
  predicate Terminated(rest: Text) {
    rest == [] || rest[0] == COMMA || rest[0] == CLOSE_BRACE || rest[0] == CLOSE_BRACKET
  }

  lemma {:induction false} DigitCountOf(t: Text, rest: Text)
    requires forall i :: 0 <= i < |t| ==> IsDigit(t[i])
    requires rest == [] || !IsDigit(rest[0])
    ensures DigitCount(t + rest) == |t|
    decreases |t|
  {
    if t == [] {
      assert t + rest == rest;
    } else {
      DigitCountOf(t[1..], rest);
      assert (t + rest)[1..] == t[1..] + rest;
    }
  }

  lemma WholeLengthOf(n: nat, rest: Text)
    requires Terminated(rest)
    ensures WholeLength(Digits(n) + rest) == |Digits(n)|
    ensures FractionLength(rest) == 0 && ExponentLength(rest) == 0
  {
    DigitsUndone(n);
    DigitCountOf(Digits(n), rest);
    hide Digits;
  }

  /** A match with neither fraction nor exponent is an integer. */
  lemma IntegerAt(t: Text, sign: nat, head: nat)
    requires sign == (if t != [] && t[0] == MINUS then 1 else 0) && sign < head <= |t|
    requires WholeLength(t[sign..]) == head - sign
    requires FractionLength(t[head..]) == 0 && ExponentLength(t[head..]) == 0
    requires forall i :: 0 <= i < head - sign ==> IsDigit(t[sign..head][i])
    requires NatValue(t[sign..head]) <= MAX_SAFE && (sign == 1 ==> NatValue(t[sign..head]) > 0)
    ensures NumberAt(t) == (var m: int := NatValue(t[sign..head]); Some((Int(if sign == 1 then -m else m), head)))
  {
    hide WholeLength, FractionLength, ExponentLength, NatValue;
  }

  lemma SliceParts(a: Text, b: Text, c: Text)
    ensures (a + b + c)[|a|..] == b + c
    ensures (a + b + c)[|a| + |b|..] == c
    ensures (a + b + c)[|a|..|a| + |b|] == b
  {
  }

  /** A printed integer is read back whole when nothing after it extends it. */
  lemma DecimalUndone(n: int, rest: Text)
    requires -MAX_SAFE <= n <= MAX_SAFE && Terminated(rest)
    ensures NumberAt(Decimal(n) + rest) == Some((Int(n), |Decimal(n)|))
  {
    var magnitude: nat := if n < 0 then -n else n;
    var sign, digits := if n < 0 then [MINUS] else [], Digits(magnitude);
    DigitsUndone(magnitude);
    WholeLengthOf(magnitude, rest);
    assert IsDigit(digits[0]);
    hide Digits, WholeLength, FractionLength, ExponentLength, NatValue, NumberAt;
    assert Decimal(n) == sign + digits;
    SliceParts(sign, digits, rest);
    IntegerAt(sign + digits + rest, |sign|, |sign| + |digits|);
  }
}
