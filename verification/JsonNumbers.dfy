/**
 * Integers written with a fraction or an exponent.  The parser model keeps such a number as its text; here its exact
 * decimal value is worked out, and with it the stability of printing what was parsed, for every text of safe integers.
 */
module JsonNumbers {
  import opened Basics
  import opened JsonText
  import opened JsonValue
  import opened StrictJson
  import opened JsonRoundTrip
  import opened JsonGrammar

  function SignLength(t: Text): (n: nat)
    ensures n <= |t|
  {
    if t != [] && t[0] == MINUS then 1 else 0
  }

  /** End of the whole part, and of the fraction. */
  function WholeEnd(t: Text): (n: nat)
    ensures SignLength(t) <= n <= |t|
  {
    SignLength(t) + WholeLength(t[SignLength(t)..])
  }

  function FractionEnd(t: Text): (n: nat)
    ensures WholeEnd(t) <= n <= |t|
  {
    WholeEnd(t) + FractionLength(t[WholeEnd(t)..])
  }

  /** Leading digits of a text, as a number. */
  function LeadingValue(t: Text): nat {
    NatValue(t[..DigitCount(t)])
  }

  /** How many digits the fraction has. */
  function Scale(t: Text): nat {
    if FractionEnd(t) == WholeEnd(t) then 0 else FractionEnd(t) - WholeEnd(t) - 1
  }

  /** The digits before and after the point, read as one number. */
  function Mantissa(t: Text): nat {
    LeadingValue(t[SignLength(t)..WholeEnd(t)]) * Tens(Scale(t))
      + if Scale(t) == 0 then 0 else LeadingValue(t[WholeEnd(t) + 1..FractionEnd(t)])
  }

  function Exponent(t: Text): int {
    var u := t[FractionEnd(t)..];
    if |u| < 2 then 0
    else if u[1] == MINUS then 0 - LeadingValue(u[2..])
    else if u[1] == PLUS then LeadingValue(u[2..])
    else LeadingValue(u[1..])
  }

  /** The number is `Mantissa * 10^Shift`, up to its sign. */
  function Shift(t: Text): int {
    Exponent(t) - Scale(t)
  }

  /** The exact value when it is a whole number. */
  function Magnitude(t: Text): Option<nat> {
    Scaled(Mantissa(t), Shift(t))
  }

  function Scaled(m: nat, shift: int): Option<nat> {
    if shift >= 0 then Some(m * Tens(shift))
    else if m % Tens(-shift) == 0 then Some(m / Tens(-shift))
    else None
  }

  /** The safe integer a number text denotes exactly; negative zero is none. */
  function Exact(t: Text): Option<int> {
    match Magnitude(t)
    case None => None
    case Some(m) =>
      var n: int := m;
      if n > MAX_SAFE || (SignLength(t) == 1 && n == 0) then None else Some(if SignLength(t) == 1 then -n else n)
  }

  /** `m` times the power of ten is `n` up to its sign; no division, so no rounding. */
  predicate Amounts(m: nat, power: int, n: int) {
    m * Tens(if power > 0 then power else 0) == (if n < 0 then -n else n) * Tens(if power < 0 then -power else 0)
  }

  /** Exactness, by cross-multiplying: the mantissa and the integer differ by the power of ten only. */
  lemma ExactMeans(t: Text, n: int)
    ensures Exact(t) == Some(n) <==>
      && -MAX_SAFE <= n <= MAX_SAFE && (SignLength(t) == 1 <==> n < 0)
      && Amounts(Mantissa(t), Shift(t), n)
  {
    var m: nat := if n < 0 then -n else n;
    var M := Mantissa(t);
    hide Mantissa, Shift, SignLength, Tens;
    if Shift(t) >= 0 {
      assert Tens(0) == 1 by { PowZero(); }
      assert m * Tens(0) == m;
    } else {
      assert Tens(0) == 1 by { PowZero(); }
      Divides(M, Tens(-Shift(t)), m);
    }
  }

  lemma PowZero()
    ensures Tens(0) == 1
  {
  }

  lemma Divides(a: nat, p: nat, m: nat)
    requires p > 0
    ensures a % p == 0 && a / p == m <==> a == m * p
  {
    if a == m * p { Quotient(a, p, m); }
    if a % p == 0 && a / p == m { assert a == a / p * p + a % p; }
  }

  lemma {:induction false} Order(x: int, k: nat, p: nat)
    ensures x * p + p <= (x + 1 + k) * p
  {
    if k > 0 { Order(x, k - 1, p); }
  }

  lemma Quotient(a: nat, p: nat, m: nat)
    requires p > 0 && a == m * p
    ensures a / p == m && a % p == 0
  {
    var q := a / p;
    assert a == q * p + a % p;
    if q < m { Order(q, m - q - 1, p); }
    if m < q { Order(m, q - m - 1, p); }
  }

  lemma TensApart(k: nat, j: nat)
    ensures Tens(k + j) == Tens(k) * Tens(j)
  {
    if k > 0 {
      TensApart(k - 1, j);
      assert 10 * Tens(k - 1) * Tens(j) == 10 * (Tens(k - 1) * Tens(j));
    }
  }

  lemma PlaceFirst(t: Text)
    requires DigitsOnly(t)
    ensures PlaceValue(t) == (t[0] - 0x30) * Tens(|t| - 1) + PlaceValue(t[1..])
  {
  }

  lemma DigitsJoin(a: Text, b: Text)
    requires DigitsOnly(a) && (b == [] || DigitsOnly(b))
    ensures DigitsOnly(a + b) && (a[1..] == [] || DigitsOnly(a[1..])) && 0x30 <= a[0]
    ensures (a + b)[1..] == a[1..] + b && (a + b)[0] == a[0]
  {
  }

  lemma {:induction false} PlaceJoin(a: Text, b: Text)
    requires (a == [] || DigitsOnly(a)) && (b == [] || DigitsOnly(b))
    ensures a + b == [] || DigitsOnly(a + b)
    ensures PlaceValue(a + b) == PlaceValue(a) * Tens(|b|) + PlaceValue(b)
    decreases |a|
  {
    if a == [] {
      assert a + b == b;
    } else {
      hide PlaceValue, Tens, DigitsOnly;
      DigitsJoin(a, b);
      PlaceJoin(a[1..], b);
      PlaceFirst(a);
      PlaceFirst(a + b);
      TensApart(|a| - 1, |b|);
      Distribute(a[0] - 0x30, Tens(|a| - 1), PlaceValue(a[1..]), Tens(|b|));
    }
  }

  lemma Distribute(x: int, p: int, y: int, q: int)
    ensures (x * p + y) * q == x * (p * q) + y * q
  {
  }

  lemma AllLeading(t: Text)
    requires t == [] || DigitsOnly(t)
    ensures LeadingValue(t) == PlaceValue(t)
  {
    PlaceValueMeans(t);
    DigitCountOf(t, []);
    assert t + [] == t && t[..|t|] == t;
  }

  /** The digits after the point. */
  function FractionDigits(t: Text, b: nat, c: nat): Text
    requires b <= c <= |t|
  {
    if b == c then [] else t[b + 1..c]
  }

  /** The power of ten written after the letter. */
  function Power(t: Text, a: nat, b: nat, c: nat): int
    requires NumberCut(t, a, b, c)
  {
    if c == |t| then 0
    else if t[c + 1] == 0x2D then 0 - PlaceValue(t[c + 2..])
    else if t[c + 1] == 0x2B then PlaceValue(t[c + 2..])
    else PlaceValue(t[c + 1..])
  }

  lemma CutParts(t: Text, a: nat, b: nat, c: nat)
    requires NumberCut(t, a, b, c)
    ensures t[a..] == t[a..b] + (t[b..c] + t[c..]) && t[b..] == t[b..c] + t[c..]
    ensures a < b && 0x30 <= t[a] <= 0x39 && t[a] == t[a..b][0]
    ensures t[b..c] != [] ==> t[b..c][0] == 0x2E
    ensures t[c..] != [] ==> t[c..][0] == 0x65 || t[c..][0] == 0x45
  {
  }

  lemma CutEnds(t: Text, a: nat, b: nat, c: nat)
    requires NumberCut(t, a, b, c)
    ensures SignLength(t) == a && WholeEnd(t) == b && FractionEnd(t) == c
  {
    var w, f, e := t[a..b], t[b..c], t[c..];
    CutParts(t, a, b, c);
    assert WholeForm(w) && FractionForm(f);
    hide WholeForm, FractionForm, ExponentForm, WholeLength, FractionLength;
    FirstOf(f, e);
    WholeReads(w, f + e);
    FractionReads(f, e);
  }

  lemma MantissaMeans(t: Text, a: nat, b: nat, c: nat)
    requires NumberCut(t, a, b, c)
    ensures DigitsOnly(t[a..b] + FractionDigits(t, b, c))
    ensures Mantissa(t) == PlaceValue(t[a..b] + FractionDigits(t, b, c)) && Scale(t) == |FractionDigits(t, b, c)|
  {
    CutEnds(t, a, b, c);
    var w, f := t[a..b], FractionDigits(t, b, c);
    assert b < c ==> t[b..c][1..] == f;
    AllLeading(w);
    AllLeading(f);
    PlaceJoin(w, f);
    hide WholeEnd, FractionEnd, LeadingValue, PlaceValue;
    assert Tens(0) == 1;
    assert f == [] ==> PlaceValue(f) == 0 by { NoPlaces(); }
  }

  lemma NoPlaces()
    ensures PlaceValue([]) == 0
  {
  }

  lemma ExponentMeans(t: Text, a: nat, b: nat, c: nat)
    requires NumberCut(t, a, b, c)
    ensures Exponent(t) == Power(t, a, b, c)
  {
    CutEnds(t, a, b, c);
    var u := t[c..];
    hide WholeEnd, FractionEnd, LeadingValue, PlaceValue;
    if u != [] {
      assert |u| >= 2 && u[1] == t[c + 1];
      assert u[1..] == t[c + 1..] && u[2..] == t[c + 2..];
      if u[1] == MINUS || u[1] == PLUS {
        assert !DigitsOnly(u[1..]) by { assert u[1..][0] == u[1]; }
        AllLeading(u[2..]);
      } else {
        AllLeading(u[1..]);
      }
    }
  }

  lemma ShiftMeans(t: Text)
    ensures Shift(t) == Exponent(t) - Scale(t)
  {
  }

  /**
   * The integer read is the one the text writes: sign, whole part, fraction and exponent of any cut of section 6 give
   * digits and a power of ten whose product it is.
   */
  lemma ExactOfCut(t: Text, a: nat, b: nat, c: nat, n: int)
    requires NumberCut(t, a, b, c)
    ensures DigitsOnly(t[a..b] + FractionDigits(t, b, c))
    ensures var digits, power := t[a..b] + FractionDigits(t, b, c), Power(t, a, b, c) - |FractionDigits(t, b, c)|;
      Exact(t) == Some(n) <==>
        && -9007199254740991 <= n <= 9007199254740991 && (a == 1 <==> n < 0)
        && Amounts(PlaceValue(digits), power, n)
  {
    CutEnds(t, a, b, c);
    MantissaMeans(t, a, b, c);
    ExponentMeans(t, a, b, c);
    ShiftMeans(t);
    hide WholeEnd, FractionEnd, PlaceValue, Mantissa, Exponent, Scale, Exact, Power, Tens, Shift, Amounts, NumberCut, DigitsOnly, FractionDigits;
    ExactMeans(t, n);
  }

  lemma OneDigit(d: Unit)
    requires IsDigit(d)
    ensures DigitCount([d]) == 1 && NatValue([d]) == d - 0x30 && LeadingValue([d]) == d - 0x30 && LeadingValue([]) == 0
  {
    assert [d][1..] == [] && [d][..0] == [] && [d][..1] == [d];
  }

  /** `1.0` is the integer one. */
  lemma OnePointZero()
    ensures Exact([0x31, DOT, 0x30]) == Some(1)
  {
    var t: Text := [0x31, DOT, 0x30];
    assert t[0..] == t && t[1..] == [DOT, 0x30] && t[1..][1..] == [0x30];
    OneDigit(0x30);
    OneDigit(0x31);
    assert DigitCount(t[1..]) == 0 && DigitCount(t) == 1;
    assert WholeLength(t) == 1;
    assert WholeEnd(t) == 1;
    assert FractionLength(t[1..]) == 2;
    assert FractionEnd(t) == 3 && Scale(t) == 1;
    assert t[0..1] == [0x31] && t[2..3] == [0x30] && t[3..] == [];
    hide LeadingValue, WholeEnd, FractionEnd, DigitCount;
    assert Tens(1) == 10 by { PowZero(); }
    assert Mantissa(t) == 10 && Shift(t) == -1;
  }

  /** `1e2` is a hundred. */
  lemma OneHundred()
    ensures Exact([0x31, 0x65, 0x32]) == Some(100)
  {
    var t: Text := [0x31, 0x65, 0x32];
    assert t[0..] == t && t[1..] == [0x65, 0x32];
    OneDigit(0x31);
    OneDigit(0x32);
    assert WholeEnd(t) == 1 && FractionEnd(t) == 1 && Scale(t) == 0;
    assert t[0..1] == [0x31] && t[1..][1..] == [0x32];
    hide LeadingValue, WholeEnd, FractionEnd, DigitCount;
    PowZero();
    assert Tens(2) == 100;
    assert Mantissa(t) == 1 && Shift(t) == 2;
  }

  // ---------------------------------------------------------------- values

  /** The value the platform holds: integers are integers however they were written. */
  ghost function Normal(v: Json): Json
    decreases v
  {
    match v
    case Num(Other(t)) => if Exact(t).Some? then Num(Int(Exact(t).value)) else v
    case Arr(items) => Arr(seq(|items|, i requires 0 <= i < |items| => Normal(items[i])))
    case Obj(entries) => Obj(map k | k in entries :: Normal(entries[k]))
    case _ => v
  }

  lemma {:induction false} NormalFits(l: Limits, finite: Text -> bool, v: Json, depth: nat)
    requires Fits(l, finite, v, depth)
    ensures Fits(l, finite, Normal(v), depth)
    decreases v
  {
    match v {
      case Arr(items) =>
        forall i | 0 <= i < |items| ensures Fits(l, finite, Normal(items[i]), depth + 1) { NormalFits(l, finite, items[i], depth + 1); }
      case Obj(entries) =>
        forall k | k in entries ensures Fits(l, finite, Normal(entries[k]), depth + 1) { NormalFits(l, finite, entries[k], depth + 1); }
        assert Normal(v).entries.Keys == entries.Keys;
        assert |Normal(v).entries| == |Normal(v).entries.Keys| && |entries| == |entries.Keys|;
      case _ =>
    }
    hide Exact, StringFits, Reserved;
  }

  lemma {:induction false} NormalCounts(v: Json)
    ensures Count(Normal(v)) == Count(v)
    decreases v, 1, 0
  {
    match v {
      case Arr(items) => ItemsCount(items);
      case Obj(entries) =>
        assert Normal(v).entries.Keys == entries.Keys;
        MembersCount(v, entries.Keys);
      case _ =>
    }
    hide Exact, CountMembers, CountItems;
  }

  lemma {:induction false} ItemsCount(items: seq<Json>)
    ensures CountItems(seq(|items|, i requires 0 <= i < |items| => Normal(items[i]))) == CountItems(items)
    decreases items, 0, 0
  {
    if items != [] {
      var all := seq(|items|, i requires 0 <= i < |items| => Normal(items[i]));
      var rest := items[1..];
      assert all[1..] == seq(|rest|, i requires 0 <= i < |rest| => Normal(rest[i]));
      hide Normal, Count;
      NormalCounts(items[0]);
      ItemsCount(rest);
    }
  }

  lemma {:induction false} MembersCount(v: Json, ks: set<Text>)
    requires v.Obj? && ks <= v.entries.Keys
    ensures Normal(v).Obj? && ks <= Normal(v).entries.Keys && CountMembers(Normal(v), ks) == CountMembers(v, ks)
    decreases v, 0, |ks|
  {
    assert Normal(v).entries.Keys == v.entries.Keys;
    if ks != {} {
      var k :| k in ks;
      assert Normal(v).entries[k] == Normal(v.entries[k]);
      CountWithout(v, ks, k);
      CountWithout(Normal(v), ks, k);
      NormalCounts(v.entries[k]);
      MembersCount(v, ks - {k});
    }
    hide Count, CountMembers, Exact;
  }

  /**
   * Printing what was parsed and parsing it again gives the same value, for every accepted text whose numbers are safe
   * integers, however they were written.
   */
  lemma PrintedParseIsStable(l: Limits, finite: Text -> bool, text: Text, v: Json)
    requires Parse(l, finite, text) == Some(v) && Integral(Normal(v))
    ensures Parse(l, finite, Print(Normal(v))) == Some(Normal(v))
  {
    hide Value, Fits, Count, Print, Integral, Normal;
    ParsedFits(l, finite, text, 0, 0);
    NormalFits(l, finite, v, 0);
    NormalCounts(v);
    RoundTrip(l, finite, Normal(v));
  }
}
