/** What the printer writes, measured against the grammar: legal, escaped by the book, and nowhere longer than it need be. */
module JsonPrinted {
  import opened Basics
  import opened JsonText
  import opened JsonValue
  import opened StrictJson
  import opened JsonRoundTrip
  import opened JsonGrammar
  import opened JsonAccepts
  import opened JsonReads

  // ---------------------------------------------------------------- terms in plain words

  /** Every high surrogate has its low one behind it, and every low one its high one before it. */
  predicate Paired(s: Text) {
    && (forall i :: 0 <= i < |s| && 0xD800 <= s[i] <= 0xDBFF ==> i + 1 < |s| && 0xDC00 <= s[i + 1] <= 0xDFFF)
    && (forall i :: 0 <= i < |s| && 0xDC00 <= s[i] <= 0xDFFF ==> i > 0 && 0xD800 <= s[i - 1] <= 0xDBFF)
  }

  /** The parser's surrogate scan accepts exactly the strings whose surrogates are paired. */
  lemma {:induction false} WellFormedMeans(s: Text)
    ensures WellFormed(s) <==> Paired(s)
    decreases |s|
  {
    PairedHead(s);
    hide Paired;
    if s != [] && High(s[0]) && |s| >= 2 && Low(s[1]) {
      WellFormedMeans(s[2..]);
      if Paired(s) { PairedCut(s, 2); }
      if Paired(s[2..]) { PairedJoin(s, 2); }
    } else if s != [] && !High(s[0]) && !Low(s[0]) {
      WellFormedMeans(s[1..]);
      if Paired(s) { PairedCut(s, 1); }
      if Paired(s[1..]) { PairedJoin(s, 1); }
    }
  }

  lemma PairedHead(s: Text)
    ensures s == [] ==> Paired(s)
    ensures s != [] && High(s[0]) && (|s| == 1 || !Low(s[1])) ==> !Paired(s)
    ensures s != [] && Low(s[0]) ==> !Paired(s)
  {
  }

  /** Cutting off a pair, or a unit that is no surrogate. */
  predicate Cuts(s: Text, n: nat) {
    n <= |s| && if n == 2 then High(s[0]) && Low(s[1]) else n == 1 && !High(s[0]) && !Low(s[0])
  }

  lemma PairedCut(s: Text, n: nat)
    requires Cuts(s, n) && Paired(s)
    ensures Paired(s[n..])
  {
    var r := s[n..];
    forall i | 0 <= i < |r| ensures r[i] == s[i + n] {}
    forall i | 0 <= i < |r| && 0xD800 <= r[i] <= 0xDBFF ensures i + 1 < |r| && 0xDC00 <= r[i + 1] <= 0xDFFF { assert s[i + n] == r[i]; }
    forall i | 0 <= i < |r| && 0xDC00 <= r[i] <= 0xDFFF ensures i > 0 && 0xD800 <= r[i - 1] <= 0xDBFF { assert s[i + n] == r[i]; }
  }

  lemma PairedJoin(s: Text, n: nat)
    requires Cuts(s, n) && Paired(s[n..])
    ensures Paired(s)
  {
    var r := s[n..];
    forall i | n <= i < |s| ensures s[i] == r[i - n] {}
    forall i | 0 <= i < |s| && 0xD800 <= s[i] <= 0xDBFF ensures i + 1 < |s| && 0xDC00 <= s[i + 1] <= 0xDFFF {
      if i >= n { assert r[i - n] == s[i]; }
    }
    forall i | 0 <= i < |s| && 0xDC00 <= s[i] <= 0xDFFF ensures i > 0 && 0xD800 <= s[i - 1] <= 0xDBFF {
      if i >= n { assert r[i - n] == s[i]; }
    }
  }

  /** The code units of an ASCII word. */
  predicate Reads(k: Text, word: string) {
    |k| == |word| && forall i :: 0 <= i < |k| ==> k[i] == word[i] as int
  }

  /** The three keys the parser refuses. */
  lemma ReservedMeans(k: Text)
    ensures Reserved(k) <==> Reads(k, "__proto__") || Reads(k, "constructor") || Reads(k, "prototype")
  {
    assert Reads(PROTO, "__proto__") && Reads(CONSTRUCTOR, "constructor") && Reads(PROTOTYPE, "prototype");
    if Reads(k, "__proto__") { assert k == PROTO; }
    if Reads(k, "constructor") { assert k == CONSTRUCTOR; }
    if Reads(k, "prototype") { assert k == PROTOTYPE; }
  }

  lemma SameHead(a: Text, b: Text, k: nat)
    requires 0 < k <= |a| && k <= |b| && a[..k] == b[..k]
    ensures a[0] == b[0]
  {
    assert a[..k][0] == b[..k][0];
  }

  /** Code-unit order: at the first difference the smaller unit comes first, and a prefix before what it begins. */
  lemma {:induction false} LessMeans(a: Text, b: Text)
    ensures Less(a, b) <==> exists k: nat :: k <= |a| && k < |b| && a[..k] == b[..k] && (k == |a| || a[k] < b[k])
    decreases |a|
  {
    if b == [] {
    } else if a == [] {
      assert a[..0] == b[..0];
    } else {
      LessMeans(a[1..], b[1..]);
      forall k: nat | 0 < k <= |a| && k < |b| && a[..k] == b[..k] ensures a[0] == b[0] { SameHead(a, b, k); }
      if a[0] == b[0] {
        if k: nat :| k <= |a[1..]| && k < |b[1..]| && a[1..][..k] == b[1..][..k] && (k == |a[1..]| || a[1..][k] < b[1..][k]) {
          assert a[..k + 1] == [a[0]] + a[1..][..k] && b[..k + 1] == [b[0]] + b[1..][..k];
        }
        if k: nat :| k <= |a| && k < |b| && a[..k] == b[..k] && (k == |a| || a[k] < b[k]) {
          if k > 0 { assert a[1..][..k - 1] == a[..k][1..] && b[1..][..k - 1] == b[..k][1..]; }
        }
      } else {
        assert a[..0] == b[..0];
      }
    }
  }

  /** An index key is the shortest decimal numeral of a number below 2^32 - 1. */
  lemma IndexMeans(k: Text)
    ensures IsIndex(k) <==> DigitsOnly(k) && (|k| > 1 ==> k[0] != 0x30) && PlaceValue(k) < 4294967295
  {
    if k != [] && AllDigits(k) { PlaceValueMeans(k); }
    hide PlaceValue, NatValue;
  }

  // ---------------------------------------------------------------- escapes

  predicate HasPair(u: Unit) {
    exists letter: Unit :: ShortPair(letter, u)
  }

  lemma PairsAre(u: Unit)
    ensures HasPair(u) <==> u in {0x22, 0x5C, 0x2F, 0x08, 0x0C, 0x0A, 0x0D, 0x09}
    ensures forall letter: Unit :: ShortPair(letter, u) && u != 0x2F ==> EscapeUnit(u) == [0x5C, letter]
  {
    assert u == 0x22 ==> ShortPair(0x22, u);
    assert u == 0x5C ==> ShortPair(0x5C, u);
    assert u == 0x2F ==> ShortPair(0x2F, u);
    assert u == 0x08 ==> ShortPair(0x62, u);
    assert u == 0x0C ==> ShortPair(0x66, u);
    assert u == 0x0A ==> ShortPair(0x6E, u);
    assert u == 0x0D ==> ShortPair(0x72, u);
    assert u == 0x09 ==> ShortPair(0x74, u);
  }

  /** Escapes that must be are the short ones where there are, else four lower-case digits; nothing else is escaped. */
  lemma EscapesAre(u: Unit)
    ensures forall letter: Unit :: ShortPair(letter, u) && u != 0x2F ==> EscapeUnit(u) == [0x5C, letter]
    ensures !HasPair(u) && (u < 0x20 || 0xD800 <= u <= 0xDFFF) ==>
      var e := EscapeUnit(u);
      |e| == 6 && e[0] == 0x5C && e[1] == 0x75 && FourHex(e[2..], u) && forall i :: 2 <= i < 6 ==> !(0x41 <= e[i] <= 0x46)
    ensures u == 0x2F || (!HasPair(u) && u >= 0x20 && !(0xD800 <= u <= 0xDFFF)) ==> EscapeUnit(u) == [u]
  {
    PairsAre(u);
    Hex4Undone(u);
    FourHexMeans(Hex4(u), u);
    assert EscapeUnit(u) == [BACKSLASH, LOWER_U] + Hex4(u) ==> EscapeUnit(u)[2..] == Hex4(u);
    hide FourHex, StartsHex4, Hex4Value, HasPair, ShortPair;
  }

  /** A unit's escape is one of its spellings, and outside surrogates a shortest one. */
  lemma EscapeUnitSpells(u: Unit, e: Text)
    ensures UnitSpelled(u, EscapeUnit(u))
    ensures UnitSpelled(u, e) && !High(u) && !Low(u) ==> |EscapeUnit(u)| <= |e|
  {
    EscapesAre(u);
    PairsAre(u);
    assert u == 0x2F ==> ShortPair(0x2F, u);
    hide FourHex, EscapeUnit;
    if letter: Unit :| ShortPair(letter, u) && u != 0x2F { assert EscapeUnit(u) == [0x5C, letter]; }
  }

  lemma SpelledOne(u: Unit, e: Text)
    requires UnitSpelled(u, e)
    ensures |e| >= 1
  {
  }

  /** The printed form of a string spells it, and for paired surrogates no spelling is shorter. */
  lemma {:induction false} EscapeIsShortest(s: Text, body: Text)
    requires WellFormed(s) && Spells(s, body)
    ensures |Escape(s)| <= |body|
    decreases |s|
  {
    if s != [] {
      hide UnitSpelled, Spells;
      var e, tail := SpellsFirst(s, body);
      SpelledOne(s[0], e);
      if High(s[0]) {
        assert s[1..] != [];
        var f, more := SpellsFirst(s[1..], tail);
        SpelledOne(s[1], f);
        assert s[1..][1..] == s[2..];
        EscapeIsShortest(s[2..], more);
      } else {
        EscapeUnitSpells(s[0], e);
        EscapeIsShortest(s[1..], tail);
      }
    }
  }

  // ---------------------------------------------------------------- the strict limits

  /** Within the limits of the strict parser, in numbers. */
  ghost predicate InLimits(finite: Text -> bool, v: Json, depth: nat)
    decreases v
  {
    && depth <= 32
    && match v
       case Null => true
       case Bool(_) => true
       case Num(number) => (match number case Int(n) => -9007199254740991 <= n <= 9007199254740991 case Other(lexeme) => finite(lexeme))
       case Str(s) => |s| <= 16384 && Paired(s)
       case Arr(items) => |items| <= 256 && forall i :: 0 <= i < |items| ==> InLimits(finite, items[i], depth + 1)
       case Obj(entries) => |entries| <= 256 && forall k :: k in entries ==> KeyInLimits(k) && InLimits(finite, entries[k], depth + 1)
  }

  predicate KeyInLimits(k: Text) {
    |k| <= 16384 && Paired(k) && !Reads(k, "__proto__") && !Reads(k, "constructor") && !Reads(k, "prototype")
  }

  lemma {:induction false} InLimitsMeans(finite: Text -> bool, v: Json, depth: nat)
    ensures InLimits(finite, v, depth) <==> Fits(STRICT, finite, v, depth)
    decreases v
  {
    hide Paired, WellFormed, Reads, Reserved;
    match v {
      case Str(s) => WellFormedMeans(s);
      case Arr(items) =>
        forall i | 0 <= i < |items| { InLimitsMeans(finite, items[i], depth + 1); }
      case Obj(entries) =>
        forall k | k in entries
          ensures KeyInLimits(k) <==> StringFits(STRICT, k) && !Reserved(k)
          ensures InLimits(finite, entries[k], depth + 1) <==> Fits(STRICT, finite, entries[k], depth + 1)
        {
          WellFormedMeans(k);
          ReservedMeans(k);
          InLimitsMeans(finite, entries[k], depth + 1);
        }
        hide KeyInLimits, StringFits;
      case _ =>
    }
  }

  /** The strict parser accepts exactly the RFC 8259 texts of values of at most 4096 nodes within these limits. */
  lemma StrictParseIff(finite: Text -> bool, text: Text, v: Json)
    ensures Parse(STRICT, finite, text) == Some(v) <==> Padded(v, text) && InLimits(finite, v, 0) && Count(v) <= 4096
  {
    InLimitsMeans(finite, v, 0);
    ParseIff(STRICT, finite, text, v);
    hide Parse, Padded, InLimits, Fits, Count;
  }

  // ---------------------------------------------------------------- what is printed

  /** The printed text is a text of the value. */
  lemma PrintedIsJson(l: Limits, finite: Text -> bool, v: Json)
    requires Integral(v) && Fits(l, finite, v, 0)
    ensures Padded(v, Print(v))
  {
    var wide := l.(nodes := Count(v));
    WidenNodes(l, wide, finite, v, 0);
    RoundTrip(wide, finite, v);
    ParseIff(wide, finite, Print(v), v);
    hide Parse, Padded, Fits, Count, Print;
  }

  lemma {:induction false} WidenNodes(l: Limits, w: Limits, finite: Text -> bool, v: Json, depth: nat)
    requires Fits(l, finite, v, depth) && w.depth == l.depth && w.units == l.units && w.entries == l.entries
    ensures Fits(w, finite, v, depth)
    decreases v
  {
    match v {
      case Arr(items) =>
        forall i | 0 <= i < |items| { WidenNodes(l, w, finite, items[i], depth + 1); }
      case Obj(entries) =>
        forall k | k in entries ensures Fits(w, finite, entries[k], depth + 1) { WidenNodes(l, w, finite, entries[k], depth + 1); }
        hide Reserved, WellFormed;
      case _ =>
    }
  }

  lemma IntegerText(n: int, t: Text)
    requires NumberWritten(Int(n), t)
    ensures t == Decimal(n)
  {
    var a: nat, b: nat, c: nat :| NumberCut(t, a, b, c) && CutDenotes(Int(n), t, a, b, c);
    WholeValueMeans(t[a..b]);
    DigitsOfValue(t[a..b]);
    hide PlaceValue, NatValue, Digits;
    assert b == |t| && t == t[..a] + t[a..b];
    assert a == 1 ==> t[..a] == [0x2D];
  }

  lemma QuotedIsShortest(s: Text, t: Text)
    requires WellFormed(s) && Quoted(s, t)
    ensures |Quote(s)| <= |t|
  {
    EscapeIsShortest(s, t[1..|t| - 1]);
    hide Escape, Spells, WellFormed;
  }

  /** No text of the value is shorter than its printed one: there is no white space and no needless escape in it. */
  lemma {:induction false} PrintIsShortest(l: Limits, finite: Text -> bool, v: Json, t: Text, depth: nat)
    requires Integral(v) && Fits(l, finite, v, depth) && Padded(v, t)
    ensures |Print(v)| <= |t|
    decreases v, 1, 0
  {
    hide Padded, Writes, Print, Fits, Integral;
    var ws, core, gap := Unpads(v, t);
    if v.Arr? {
      ShortestArray(l, finite, v, core, depth);
    } else if v.Obj? {
      ShortestObject(l, finite, v, core, depth);
    } else {
      ShortestScalar(l, finite, v, core, depth);
    }
  }

  lemma ShortestScalar(l: Limits, finite: Text -> bool, v: Json, core: Text, depth: nat)
    requires Integral(v) && Fits(l, finite, v, depth) && Writes(v, core) && !v.Arr? && !v.Obj?
    ensures |Print(v)| <= |core|
  {
    hide NumberWritten, Quoted, Quote, WellFormed, Decimal;
    if v.Num? { IntegerText(v.number.n, core); }
    if v.Str? { QuotedIsShortest(v.s, core); }
  }

  lemma {:induction false} ShortestArray(l: Limits, finite: Text -> bool, v: Json, core: Text, depth: nat)
    requires v.Arr? && Integral(v) && Fits(l, finite, v, depth) && Writes(v, core)
    ensures |Print(v)| <= |core|
    decreases v, 0, 0
  {
    if v.items != [] {
      hide ItemsWritten, PrintItems;
      ShortestItems(l, finite, v.items, core[1..|core| - 1], depth + 1);
    }
  }

  lemma {:induction false} ShortestItems(l: Limits, finite: Text -> bool, items: seq<Json>, t: Text, depth: nat)
    requires (forall i :: 0 <= i < |items| ==> Integral(items[i]) && Fits(l, finite, items[i], depth)) && ItemsWritten(items, t)
    ensures |PrintItems(items)| <= |t|
    decreases items, 0, 0
  {
    hide Padded, Print, Fits, Integral;
    if |items| == 1 {
      PrintIsShortest(l, finite, items[0], t, depth);
    } else {
      var a, b := ItemsPart(items, t);
      hide ItemsWritten;
      PrintIsShortest(l, finite, items[0], a, depth);
      ShortestItems(l, finite, items[1..], b, depth);
    }
  }

  /** Room for the members of these keys, with a comma for each. */
  ghost function Room(v: Json, ks: set<Text>): nat
    requires v.Obj? && ks <= v.entries.Keys
    decreases |ks|
  {
    if ks == {} then 0
    else
      var k :| k in ks;
      MemberRoom(v, k) + Room(v, ks - {k})
  }

  ghost function MemberRoom(v: Json, k: Text): nat
    requires v.Obj? && k in v.entries
  {
    |Quote(k)| + 1 + |Print(v.entries[k])| + 1
  }

  lemma {:induction false} RoomWithout(v: Json, ks: set<Text>, k: Text)
    requires v.Obj? && ks <= v.entries.Keys && k in ks
    ensures Room(v, ks) == MemberRoom(v, k) + Room(v, ks - {k})
    decreases |ks|
  {
    hide MemberRoom;
    var first :| first in ks && Room(v, ks) == MemberRoom(v, first) + Room(v, ks - {first});
    if first != k {
      RoomWithout(v, ks - {first}, k);
      RoomWithout(v, ks - {k}, first);
      assert ks - {first} - {k} == ks - {k} - {first};
    }
  }

  /** However the keys are ordered, their printed members take the same room. */
  lemma {:induction false} PrintedRoom(v: Json, ks: seq<Text>)
    requires KeysIn(v, ks) && ks != [] && NoRepeats(ks) && KeySet(ks) <= v.entries.Keys
    ensures |PrintMembers(v, ks)| + 1 == Room(v, KeySet(ks))
    decreases |ks|
  {
    hide Print, Quote, Room;
    TailOfKeys(ks);
    assert ks[0] in KeySet(ks) by { MemberOfKeySet(ks, ks[0]); }
    RoomWithout(v, KeySet(ks), ks[0]);
    if |ks| == 1 {
      NoRoom(v, KeySet(ks[1..]), ks[1..]);
    } else {
      assert forall k :: k in ks[1..] ==> k in ks;
      PrintedRoom(v, ks[1..]);
    }
  }

  lemma NoRoom(v: Json, s: set<Text>, ks: seq<Text>)
    requires v.Obj? && ks == [] && s == KeySet(ks) && s <= v.entries.Keys
    ensures Room(v, s) == 0
  {
  }

  lemma {:induction false} ShortestMembers(l: Limits, finite: Text -> bool, v: Json, ks: seq<Text>, t: Text, depth: nat)
    requires v.Obj? && Integral(v) && Fits(l, finite, v, depth) && MembersWritten(v, ks, t) && NoRepeats(ks) && KeySet(ks) <= v.entries.Keys
    ensures Room(v, KeySet(ks)) <= |t| + 1
    decreases v, 0, |ks|
  {
    hide Print, Quote, Room, Fits, Integral, MemberWritten, MembersWritten, KeySet, NoRepeats;
    MembersNotEmpty(v, ks, t);
    TailOfKeys(ks);
    assert ks[0] in KeySet(ks) by { MemberOfKeySet(ks, ks[0]); }
    RoomWithout(v, KeySet(ks), ks[0]);
    if |ks| == 1 {
      OnlyMember(v, ks, t);
      ShortestMember(l, finite, v, ks[0], t, depth);
      NoRoom(v, KeySet(ks[1..]), ks[1..]);
    } else {
      var a, b := MembersPart(v, ks, t);
      ShortestMember(l, finite, v, ks[0], a, depth);
      ShortestMembers(l, finite, v, ks[1..], b, depth);
    }
  }

  lemma {:induction false} ShortestMember(l: Limits, finite: Text -> bool, v: Json, k: Text, t: Text, depth: nat)
    requires v.Obj? && k in v.entries && Integral(v) && Fits(l, finite, v, depth) && MemberWritten(v, k, t)
    ensures MemberRoom(v, k) <= |t| + 1
    decreases v, 0, 0
  {
    var a, quoted, b, padded := MemberSplit(v, k, t);
    assert StringFits(l, k) && Fits(l, finite, v.entries[k], depth + 1) && Integral(v.entries[k]);
    hide MemberWritten, Padded, Quoted, Print, Fits, Integral, Quote, Reserved;
    QuotedIsShortest(k, quoted);
    PrintIsShortest(l, finite, v.entries[k], padded, depth + 1);
  }

  lemma ObjectParts(v: Json, core: Text) returns (ks: seq<Text>, inner: Text)
    requires v.Obj? && v.entries.Keys != {} && Writes(v, core)
    ensures |core| == |inner| + 2 && NoRepeats(ks) && KeySet(ks) == v.entries.Keys && MembersWritten(v, ks, inner)
  {
    inner := core[1..|core| - 1];
    assert EntriesWritten(v, inner);
    hide MembersWritten, NoRepeats, KeySet;
    ks :| ks != [] && NoRepeats(ks) && KeySet(ks) == v.entries.Keys && MembersWritten(v, ks, inner);
  }

  lemma PrintedObject(v: Json)
    requires v.Obj? && v.entries.Keys != {} && PROTO !in v.entries
    ensures |Print(v)| == Room(v, v.entries.Keys) + 1
  {
    var keys := v.entries.Keys;
    assert keys - {PROTO} == keys;
    OrderedKeysOf(keys);
    var own := OrderedKeys(keys);
    assert |Print(v)| == |PrintMembers(v, own)| + 2;
    hide OrderedKeys, Print, PrintMembers, Room, Before;
    OrderedOnce(own);
    assert KeySet(own) == keys by { forall k ensures k in KeySet(own) <==> k in keys { MemberOfKeySet(own, k); } }
    PrintedRoom(v, own);
  }

  lemma {:induction false} ShortestObject(l: Limits, finite: Text -> bool, v: Json, core: Text, depth: nat)
    requires v.Obj? && Integral(v) && Fits(l, finite, v, depth) && Writes(v, core)
    ensures |Print(v)| <= |core|
    decreases v, 0, |v.entries| + 1
  {
    if v.entries.Keys == {} {
      EmptyObject(v, core);
    } else {
      assert PROTO !in v.entries;
      hide Print, Fits, Integral, Writes, MembersWritten, Room, NoRepeats;
      var ks, inner := ObjectParts(v, core);
      OncePerKey(v, ks);
      ShortestMembers(l, finite, v, ks, inner, depth);
      PrintedObject(v);
    }
  }

  lemma EmptyObject(v: Json, core: Text)
    requires v.Obj? && v.entries.Keys == {} && Writes(v, core)
    ensures |Print(v)| <= |core|
  {
    assert v.entries.Keys - {PROTO} == {};
  }

  /** A list without repeats is as long as its set. */
  lemma OncePerKey(v: Json, ks: seq<Text>)
    requires v.Obj? && NoRepeats(ks) && KeySet(ks) == v.entries.Keys
    ensures |ks| == |v.entries|
  {
    CountOnce(ks);
    assert |v.entries.Keys| == |v.entries|;
  }

  lemma {:induction false} CountOnce(ks: seq<Text>)
    requires NoRepeats(ks)
    ensures |KeySet(ks)| == |ks|
  {
    if ks != [] {
      TailOfKeys(ks);
      CountOnce(ks[1..]);
      assert ks[0] in KeySet(ks);
    }
  }

  lemma OrderedOnce(ks: seq<Text>)
    requires Ordered(ks)
    ensures NoRepeats(ks)
  {
    forall i, j | 0 <= i < j < |ks| ensures ks[i] != ks[j] { BeforeIsStrictOrder(ks[i], ks[j], ks[i]); }
    hide Before;
  }
}
