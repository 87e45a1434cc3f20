/** JSON values, the order in which JavaScript enumerates their keys, and the canonical printer. */
module JsonValue {
  import opened Basics
  import opened JsonText

  /** An object is its entries: canonical text never depends on the order they were inserted in. */
  datatype Json = Null | Bool(b: bool) | Num(number: Number) | Str(s: Text) | Arr(items: seq<Json>) | Obj(entries: map<Text, Json>)

  const NULL_TEXT: Text := [0x6E, 0x75, 0x6C, 0x6C]
  const TRUE_TEXT: Text := [0x74, 0x72, 0x75, 0x65]
  const FALSE_TEXT: Text := [0x66, 0x61, 0x6C, 0x73, 0x65]

  /** `__proto__`, `constructor` and `prototype`. */
  const PROTO: Text := [0x5F, 0x5F, 0x70, 0x72, 0x6F, 0x74, 0x6F, 0x5F, 0x5F]
  const CONSTRUCTOR: Text := [0x63, 0x6F, 0x6E, 0x73, 0x74, 0x72, 0x75, 0x63, 0x74, 0x6F, 0x72]
  const PROTOTYPE: Text := [0x70, 0x72, 0x6F, 0x74, 0x6F, 0x74, 0x79, 0x70, 0x65]

  predicate Reserved(key: Text) {
    key == PROTO || key == CONSTRUCTOR || key == PROTOTYPE
  }

  // ---------------------------------------------------------------- key order

  predicate Less(a: Text, b: Text) {
    if b == [] then false
    else if a == [] then true
    else a[0] < b[0] || (a[0] == b[0] && Less(a[1..], b[1..]))
  }

  predicate AllDigits(k: Text) {
    forall i :: 0 <= i < |k| ==> IsDigit(k[i])
  }

  /** An array index: the decimal form of an integer below 2^32 - 1. */
  predicate IsIndex(k: Text) {
    k != [] && AllDigits(k) && (k[0] == ZERO ==> |k| == 1) && NatValue(k) < 0xFFFF_FFFF
  }

  /** Own keys are enumerated array indices first, in numeric order; inserted in sorted order, the others follow by code unit. */
  predicate Before(a: Text, b: Text) {
    if IsIndex(a) && IsIndex(b) then NatValue(a) < NatValue(b)
    else if IsIndex(a) || IsIndex(b) then IsIndex(a)
    else Less(a, b)
  }

  lemma {:induction false} LessIsStrictOrder(a: Text, b: Text, c: Text)
    ensures !Less(a, a)
    ensures Less(a, b) || a == b || Less(b, a)
    ensures Less(a, b) && Less(b, c) ==> Less(a, c)
    decreases |a| + |b| + |c|
  {
    if a != [] { LessIsStrictOrder(a[1..], if b == [] then [] else b[1..], if c == [] then [] else c[1..]); }
    if a != [] && b != [] { assert a == [a[0]] + a[1..] && b == [b[0]] + b[1..]; }
  }

  lemma {:induction false} DigitsOfValue(k: Text)
    requires k != [] && AllDigits(k) && (k[0] == ZERO ==> |k| == 1)
    ensures Digits(NatValue(k)) == k
  {
    var init := k[..|k| - 1];
    assert IsDigit(k[|k| - 1]);
    assert k == init + [k[|k| - 1]];
    if init != [] {
      DigitsOfValue(init);
      DigitsUndone(NatValue(init));
      assert init[0] == k[0];
    }
  }

  lemma BeforeIsStrictOrder(a: Text, b: Text, c: Text)
    ensures !Before(a, a)
    ensures Before(a, b) || a == b || Before(b, a)
    ensures Before(a, b) && Before(b, c) ==> Before(a, c)
  {
    LessIsStrictOrder(a, b, c);
    if IsIndex(a) { DigitsOfValue(a); }
    if IsIndex(b) { DigitsOfValue(b); }
    hide Less, Digits, NatValue;
  }

  predicate Ordered(ks: seq<Text>) {
    forall i, j :: 0 <= i < j < |ks| ==> Before(ks[i], ks[j])
  }

  lemma {:induction false} FirstExists(s: set<Text>)
    requires s != {}
    ensures exists k :: k in s && forall o :: o in s ==> o == k || Before(k, o)
    decreases |s|
  {
    var x :| x in s;
    if s == {x} {
      assert x in s && forall o :: o in s ==> o == x || Before(x, o);
    } else {
      FirstExists(s - {x});
      var y :| y in s - {x} && forall o :: o in s - {x} ==> o == y || Before(y, o);
      BeforeIsStrictOrder(x, y, x);
      var k := if Before(x, y) then x else y;
      forall o | o in s ensures o == k || Before(k, o) {
        assert o == x || o in s - {x};
        BeforeIsStrictOrder(x, y, o);
      }
      assert k in s && forall o :: o in s ==> o == k || Before(k, o);
    }
  }

  /** The keys of a set in enumeration order. */
  ghost function OrderedKeys(s: set<Text>): seq<Text> {
    if s == {} then []
    else
      FirstExists(s);
      var k :| k in s && forall o :: o in s ==> o == k || Before(k, o);
      [k] + OrderedKeys(s - {k})
  }

  lemma {:induction false} OrderedKeysOf(s: set<Text>)
    ensures Ordered(OrderedKeys(s)) && |OrderedKeys(s)| == |s|
    ensures forall k :: k in OrderedKeys(s) <==> k in s
  {
    if s != {} {
      var ks := OrderedKeys(s);
      OrderedKeysOf(s - {ks[0]});
      assert ks == [ks[0]] + ks[1..];
      forall j | 0 < j < |ks| ensures Before(ks[0], ks[j]) { assert ks[j] in ks[1..]; }
    }
  }

  /** One set of keys has one order: however a list of exactly these keys came to be ordered, it is this list. */
  lemma {:induction false} OrderIsUnique(ks: seq<Text>, s: set<Text>)
    requires Ordered(ks) && (forall k :: k in ks <==> k in s)
    ensures ks == OrderedKeys(s)
  {
    OrderedKeysOf(s);
    var os := OrderedKeys(s);
    if ks == [] {
      assert s == {};
    } else {
      assert ks[0] in s;
      var first := os[0];
      assert first in ks;
      BeforeIsStrictOrder(ks[0], first, ks[0]);
      assert ks[0] == first;
      forall k ensures k in ks[1..] <==> k in s - {first} {
        BeforeIsStrictOrder(first, k, first);
        assert ks == [first] + ks[1..];
      }
      OrderIsUnique(ks[1..], s - {first});
    }
  }

  /** Adding an own property to an object: an index goes to its numeric place, any other key to the end. */
  function InsertProperty(props: seq<Text>, key: Text): seq<Text> {
    if !IsIndex(key) || props == [] then props + [key]
    else if IsIndex(props[0]) && NatValue(props[0]) < NatValue(key) then [props[0]] + InsertProperty(props[1..], key)
    else [key] + props
  }

  /** The own keys of an object after the given insertions. */
  function PropertyOrder(inserted: seq<Text>): seq<Text> {
    if inserted == [] then [] else InsertProperty(PropertyOrder(inserted[..|inserted| - 1]), inserted[|inserted| - 1])
  }

  predicate CodeUnitSorted(ks: seq<Text>) {
    forall i, j :: 0 <= i < j < |ks| ==> Less(ks[i], ks[j])
  }

  lemma {:induction false} InsertionKeepsOrder(props: seq<Text>, key: Text)
    requires Ordered(props) && key !in props
    requires !IsIndex(key) ==> forall p :: p in props ==> IsIndex(p) || Less(p, key)
    ensures Ordered(InsertProperty(props, key))
    ensures forall k :: k in InsertProperty(props, key) <==> k in props || k == key
  {
    if !IsIndex(key) || props == [] {
      forall p | p in props ensures Before(p, key) {}
    } else if IsIndex(props[0]) && NatValue(props[0]) < NatValue(key) {
      assert props == [props[0]] + props[1..];
      InsertionKeepsOrder(props[1..], key);
      var r := InsertProperty(props[1..], key);
      forall j | 0 <= j < |r| ensures Before(props[0], r[j]) { assert r[j] in r; assert r[j] != key ==> r[j] in props[1..]; }
    } else {
      BeforeIsStrictOrder(key, props[0], key);
      forall j | 0 <= j < |props| ensures Before(key, props[j]) { BeforeIsStrictOrder(key, props[0], props[j]); }
    }
  }

  /** Assigning keys in code-unit order leaves them enumerated in the one canonical order. */
  lemma {:induction false} SortedInsertionOrder(sorted: seq<Text>, s: set<Text>)
    requires CodeUnitSorted(sorted) && (forall k :: k in sorted <==> k in s)
    ensures PropertyOrder(sorted) == OrderedKeys(s)
  {
    InsertionsAreOrdered(sorted);
    OrderIsUnique(PropertyOrder(sorted), s);
  }

  lemma {:induction false} InsertionsAreOrdered(sorted: seq<Text>)
    requires CodeUnitSorted(sorted)
    ensures Ordered(PropertyOrder(sorted)) && forall k :: k in PropertyOrder(sorted) <==> k in sorted
  {
    if sorted != [] {
      var init, key := sorted[..|sorted| - 1], sorted[|sorted| - 1];
      InsertionsAreOrdered(init);
      LessIsStrictOrder(key, key, key);
      assert sorted == init + [key];
      forall p | p in init ensures Less(p, key) && p != key {
        var i :| 0 <= i < |init| && init[i] == p;
        assert sorted[i] == p;
      }
      InsertionKeepsOrder(PropertyOrder(init), key);
    }
  }

  // ---------------------------------------------------------------- the printer

  function Quote(s: Text): Text {
    [QUOTE] + Escape(s) + [QUOTE]
  }

  /** Canonical text of an integral value; an own `__proto__` entry sets a prototype and is lost. */
  ghost function Print(v: Json): Text
    decreases v, 1, 0
  {
    match v
    case Null => NULL_TEXT
    case Bool(b) => if b then TRUE_TEXT else FALSE_TEXT
    case Num(number) => (match number case Int(n) => Decimal(n) case Other(lexeme) => lexeme)
    case Str(s) => Quote(s)
    case Arr(items) => [OPEN_BRACKET] + PrintItems(items) + [CLOSE_BRACKET]
    case Obj(entries) =>
      OrderedKeysOf(entries.Keys - {PROTO});
      [OPEN_BRACE] + PrintMembers(v, OrderedKeys(entries.Keys - {PROTO})) + [CLOSE_BRACE]
  }

  ghost function PrintItems(items: seq<Json>): Text
    decreases items, 0, 0
  {
    if items == [] then []
    else if |items| == 1 then Print(items[0])
    else Print(items[0]) + [COMMA] + PrintItems(items[1..])
  }

  predicate KeysIn(v: Json, ks: seq<Text>) {
    v.Obj? && forall k :: k in ks ==> k in v.entries
  }

  ghost function PrintMembers(v: Json, ks: seq<Text>): Text
    requires KeysIn(v, ks)
    decreases v, 0, |ks|
  {
    if ks == [] then []
    else
      var first := Quote(ks[0]) + [COLON] + Print(v.entries[ks[0]]);
      if |ks| == 1 then first else first + [COMMA] + PrintMembers(v, ks[1..])
  }
}
