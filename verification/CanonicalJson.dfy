/** The canonical printer step by step, what it accepts, and exactly when the strict parser reads it back. */
module CanonicalJson {
  import opened Basics
  import opened JsonText
  import opened JsonValue
  import opened StrictJson
  import opened JsonRoundTrip

  /** What `canonicalize` lets through: safe integers, and strings and keys passing its own surrogate scan. */
  ghost predicate Acceptable(v: Json)
    decreases v
  {
    match v
    case Num(number) => number.Int? && -MAX_SAFE <= number.n <= MAX_SAFE
    case Str(s) => LooselyFormed(s)
    case Arr(items) => forall i :: 0 <= i < |items| ==> Acceptable(items[i])
    case Obj(entries) => forall k :: k in entries ==> LooselyFormed(k) && Acceptable(entries[k])
    case _ => true
  }

  /** The parser's size limits and key rules, without its Unicode rule. */
  ghost predicate Sized(l: Limits, v: Json, depth: nat)
    decreases v
  {
    && depth <= l.depth
    && match v
       case Str(s) => |s| <= l.units
       case Arr(items) => |items| <= l.entries && forall i :: 0 <= i < |items| ==> Sized(l, items[i], depth + 1)
       case Obj(entries) => |entries| <= l.entries && forall k :: k in entries ==> |k| <= l.units && !Reserved(k) && Sized(l, entries[k], depth + 1)
       case _ => true
  }

  predicate EndsHigh(s: Text) {
    s != [] && High(s[|s| - 1])
  }

  /** No string and no key ends in a high surrogate. */
  ghost predicate Complete(v: Json)
    decreases v
  {
    match v
    case Str(s) => !EndsHigh(s)
    case Arr(items) => forall i :: 0 <= i < |items| ==> Complete(items[i])
    case Obj(entries) => forall k :: k in entries ==> !EndsHigh(k) && Complete(entries[k])
    case _ => true
  }

  lemma FormedIff(s: Text)
    ensures WellFormed(s) <==> LooselyFormed(s) && !EndsHigh(s)
  {
    LooseEnds(s);
  }

  /** Fitting the parser is being sized, accepted by the printer, and complete. */
  lemma {:induction false} FitsIff(l: Limits, finite: Text -> bool, v: Json, depth: nat)
    requires Integral(v)
    ensures Fits(l, finite, v, depth) <==> Sized(l, v, depth) && Acceptable(v) && Complete(v)
    decreases v
  {
    match v {
      case Str(s) => FormedIff(s);
      case Arr(items) =>
        forall i | 0 <= i < |items| { FitsIff(l, finite, items[i], depth + 1); }
      case Obj(entries) =>
        forall k | k in entries
          ensures WellFormed(k) <==> LooselyFormed(k) && !EndsHigh(k)
          ensures Fits(l, finite, entries[k], depth + 1) <==> Sized(l, entries[k], depth + 1) && Acceptable(entries[k]) && Complete(entries[k])
        {
          FormedIff(k);
          FitsIff(l, finite, entries[k], depth + 1);
        }
        hide WellFormed, LooselyFormed, EndsHigh, Reserved;
      case _ =>
    }
  }

  /**
   * The printer's surrogate scan misses a string that ends in a high surrogate, so what it prints comes back from
   * the parser exactly when no string and no key ends that way.
   */
  lemma AcceptedRoundTrip(finite: Text -> bool, v: Json)
    requires Integral(v) && Acceptable(v) && Sized(STRICT, v, 0) && Count(v) <= STRICT.nodes
    ensures Parse(STRICT, finite, Print(v)) == Some(v) <==> Complete(v)
  {
    FitsIff(STRICT, finite, v, 0);
    RoundTrip(STRICT, finite, v);
    hide Parse, Fits, Sized, Acceptable, Complete, Count, Print, Integral;
  }

  /** Such a value exists: the printer accepts a lone high surrogate and prints its escape, which the parser refuses. */
  lemma LoneSurrogate(finite: Text -> bool)
    ensures var v := Str([0xD83D]);
      && Acceptable(v) && Sized(STRICT, v, 0)
      && Print(v) == [QUOTE, BACKSLASH, LOWER_U, 0x64, 0x38, 0x33, 0x64, QUOTE]
      && Parse(STRICT, finite, Print(v)) == None
  {
    var v := Str([0xD83D]);
    var s: Text := [0xD83D];
    assert s[1..] == [];
    assert Escape(s) == EscapeUnit(0xD83D) + Escape([]);
    assert Hex4(0xD83D) == [0x64, 0x38, 0x33, 0x64];
    LoneRefused(finite);
  }

  lemma LoneRefused(finite: Text -> bool)
    ensures Parse(STRICT, finite, Quote([0xD83D])) == None
  {
    var s: Text := [0xD83D];
    var t := Quote(s);
    EscapeScans(s, []);
    EscapeUndone(s);
    NoSpace(t);
    var e := Escape(s);
    hide Escape, Scan, Unescape;
    assert t[1..] == e + ([QUOTE] + []);
    assert t[1..][..|e|] == e;
    assert StringAt(STRICT, t) == None;
    hide StringAt;
  }

  /** An own `__proto__` entry leaves no trace in the text, so it is the one key the printer cannot tell apart. */
  lemma ProtoIsLost(entries: map<Text, Json>)
    ensures Print(Obj(entries)) == Print(Obj(entries - {PROTO}))
  {
    var less := entries - {PROTO};
    var ks := OrderedKeys(entries.Keys - {PROTO});
    OrderedKeysOf(entries.Keys - {PROTO});
    assert less.Keys == entries.Keys - {PROTO} == less.Keys - {PROTO};
    SameMembers(entries, less, ks);
  }

  lemma {:induction false} SameMembers(a: map<Text, Json>, b: map<Text, Json>, ks: seq<Text>)
    requires forall k :: k in ks ==> k in a && k in b && a[k] == b[k]
    ensures PrintMembers(Obj(a), ks) == PrintMembers(Obj(b), ks)
  {
    if ks != [] {
      assert forall k :: k in ks[1..] ==> k in ks;
      SameMembers(a, b, ks[1..]);
    }
  }

  // ---------------------------------------------------------------- the printer, step by step

  function InsertSorted(ks: seq<Text>, key: Text): seq<Text> {
    if ks == [] || Less(key, ks[0]) then [key] + ks else [ks[0]] + InsertSorted(ks[1..], key)
  }

  lemma {:induction false} InsertSortedKeeps(ks: seq<Text>, key: Text)
    requires CodeUnitSorted(ks) && key !in ks
    ensures CodeUnitSorted(InsertSorted(ks, key))
    ensures forall k :: k in InsertSorted(ks, key) <==> k in ks || k == key
  {
    if ks != [] {
      LessIsStrictOrder(key, ks[0], key);
      if Less(key, ks[0]) {
        forall j | 0 <= j < |ks| ensures Less(key, ks[j]) { LessIsStrictOrder(key, ks[0], ks[j]); }
      } else {
        assert ks == [ks[0]] + ks[1..];
        InsertSortedKeeps(ks[1..], key);
        var r := InsertSorted(ks[1..], key);
        forall j | 0 <= j < |r| ensures Less(ks[0], r[j]) { assert r[j] in r; assert r[j] != key ==> r[j] in ks[1..]; }
      }
    }
  }

  /** `Object.keys(...).sort()`. */
  method SortKeys(keys: set<Text>) returns (sorted: seq<Text>)
    ensures CodeUnitSorted(sorted) && forall k :: k in sorted <==> k in keys
  {
    var pending := keys;
    sorted := [];
    while pending != {}
      invariant pending <= keys && CodeUnitSorted(sorted) && forall k :: k in sorted <==> k in keys && k !in pending
    {
      var key :| key in pending;
      InsertSortedKeeps(sorted, key);
      sorted, pending := InsertSorted(sorted, key), pending - {key};
    }
  }

  lemma {:induction false} PrintItemsAppend(items: seq<Json>, v: Json)
    ensures PrintItems(items + [v]) == (if items == [] then Print(v) else PrintItems(items) + [COMMA] + Print(v))
  {
    if items != [] {
      PrintItemsAppend(items[1..], v);
      assert (items + [v])[1..] == items[1..] + [v] && (items + [v])[0] == items[0];
      hide Print;
      if |items| > 1 {
        assert PrintItems(items) == Print(items[0]) + [COMMA] + PrintItems(items[1..]);
      }
    }
  }

  lemma {:induction false} PrintMembersAppend(v: Json, ks: seq<Text>, key: Text)
    requires KeysIn(v, ks + [key]) && KeysIn(v, ks)
    ensures key in v.entries
    ensures var member := Quote(key) + [COLON] + Print(v.entries[key]);
      PrintMembers(v, ks + [key]) == if ks == [] then member else PrintMembers(v, ks) + [COMMA] + member
    decreases |ks|
  {
    assert key in ks + [key];
    if ks != [] {
      assert (ks + [key])[1..] == ks[1..] + [key] && (ks + [key])[0] == ks[0];
      assert forall k :: k in ks[1..] ==> k in ks;
      PrintMembersAppend(v, ks[1..], key);
      hide Print, Quote;
      if |ks| > 1 {
        assert PrintMembers(v, ks) == Quote(ks[0]) + [COLON] + Print(v.entries[ks[0]]) + [COMMA] + PrintMembers(v, ks[1..]);
      }
    }
  }

  /** The entries under these keys are acceptable and `texts` holds their canonical text. */
  ghost predicate Rendered(v: Json, ks: seq<Text>, texts: map<Text, Text>) {
    && KeysIn(v, ks) && texts.Keys == KeySet(ks)
    && forall k :: k in ks ==> LooselyFormed(k) && Acceptable(v.entries[k]) && texts[k] == Print(v.entries[k])
  }

  lemma RenderedAppend(v: Json, ks: seq<Text>, texts: map<Text, Text>, key: Text)
    requires Rendered(v, ks, texts) && key in v.entries && LooselyFormed(key) && Acceptable(v.entries[key])
    ensures Rendered(v, ks + [key], texts[key := Print(v.entries[key])])
  {
    hide LooselyFormed, Acceptable, Print;
  }

  lemma RenderedAll(v: Json, sorted: seq<Text>, texts: map<Text, Text>)
    requires v.Obj? && Rendered(v, sorted, texts) && CodeUnitSorted(sorted) && forall k :: k in sorted <==> k in v.entries
    ensures Acceptable(v) && PropertyOrder(Without(sorted, PROTO)) == OrderedKeys(v.entries.Keys - {PROTO})
    ensures texts.Keys == v.entries.Keys && forall k :: k in v.entries ==> texts[k] == Print(v.entries[k])
  {
    WithoutSorted(sorted, PROTO);
    SortedInsertionOrder(Without(sorted, PROTO), v.entries.Keys - {PROTO});
    hide LooselyFormed, CodeUnitSorted, Print, Without;
  }

  lemma InsertedNext(ks: seq<Text>, key: Text)
    ensures PropertyOrder(Without(ks + [key], PROTO))
      == if key == PROTO then PropertyOrder(Without(ks, PROTO)) else InsertProperty(PropertyOrder(Without(ks, PROTO)), key)
  {
    WithoutAppend(ks, key, PROTO);
    var inserted := Without(ks, PROTO);
    hide InsertProperty, Without;
    assert (inserted + [key])[..|inserted|] == inserted && inserted + [] == inserted;
  }

  /** Canonicalize every entry in code-unit order of its key, inserting the keys into the result one by one. */
  method CanonicalEntries(v: Json) returns (r: Option<(seq<Text>, map<Text, Text>)>)
    requires v.Obj? && Integral(v)
    ensures r.Some? <==> Acceptable(v)
    ensures r.Some? ==> (
      && r.value.0 == OrderedKeys(v.entries.Keys - {PROTO})
      && r.value.1.Keys == v.entries.Keys && forall k :: k in v.entries ==> r.value.1[k] == Print(v.entries[k]))
    decreases v, 0
  {
    var sorted := SortKeys(v.entries.Keys);
    var props: seq<Text>, texts: map<Text, Text>, i := [], map[], 0;
    assert Rendered(v, [], map[]);
    hide Rendered, PropertyOrder, InsertProperty, Without, LooselyFormed, CodeUnitSorted, Print, Acceptable, Integral, KeysIn;
    PropertyOrderOfNone();
    while i < |sorted|
      invariant i <= |sorted| && Rendered(v, sorted[..i], texts) && props == PropertyOrder(Without(sorted[..i], PROTO))
    {
      var key := sorted[i];
      assert key in sorted;
      RefusedEntry(v, key);
      var text := CanonicalEntry(key, v.entries[key]);
      if text.None? { return None; }
      assert sorted[..i + 1] == sorted[..i] + [key];
      RenderedAppend(v, sorted[..i], texts, key);
      InsertedNext(sorted[..i], key);
      texts := texts[key := text.value];
      if key != PROTO { props := InsertProperty(props, key); }
      i := i + 1;
    }
    assert sorted[..|sorted|] == sorted;
    RenderedAll(v, sorted, texts);
    return Some((props, texts));
  }

  lemma RefusedEntry(v: Json, key: Text)
    requires v.Obj? && key in v.entries && Integral(v)
    ensures Integral(v.entries[key])
    ensures Acceptable(v) ==> LooselyFormed(key) && Acceptable(v.entries[key])
  {
    hide LooselyFormed;
  }

  method CanonicalEntry(key: Text, value: Json) returns (r: Option<Text>)
    requires Integral(value)
    ensures r == if LooselyFormed(key) && Acceptable(value) then Some(Print(value)) else None
    decreases value, 2
  {
    var formed := AssertValidUnicode(key);
    if formed { r := CanonicalText(value); } else { r := None; }
  }

  lemma PropertyOrderOfNone()
    ensures PropertyOrder(Without([], PROTO)) == []
  {
  }

  /** `canonicalJson`: accepted values give their canonical text, all others fail. */
  method CanonicalText(v: Json) returns (r: Option<Text>)
    requires Integral(v)
    ensures r == if Acceptable(v) then Some(Print(v)) else None
    decreases v, 1
  {
    match v {
      case Null => r := Some(NULL_TEXT);
      case Bool(b) => r := Some(if b then TRUE_TEXT else FALSE_TEXT);
      case Num(number) => r := if -MAX_SAFE <= number.n <= MAX_SAFE then Some(Decimal(number.n)) else None;
      case Str(s) =>
        var formed := AssertValidUnicode(s);
        r := if formed then Some(Quote(s)) else None;
      case Arr(items) =>
        var text := CanonicalItems(items);
        r := if text.Some? then Some([OPEN_BRACKET] + text.value + [CLOSE_BRACKET]) else None;
      case Obj(entries) =>
        var done := CanonicalEntries(v);
        if done.None? { return None; }
        OrderedKeysOf(entries.Keys - {PROTO});
        var members := JoinMembers(v, done.value.0, done.value.1);
        r := Some([OPEN_BRACE] + members + [CLOSE_BRACE]);
    }
  }

  lemma PrintNothing()
    ensures PrintItems([]) == []
  {
  }

  method CanonicalItems(items: seq<Json>) returns (r: Option<Text>)
    requires forall i :: 0 <= i < |items| ==> Integral(items[i])
    ensures r == if forall i :: 0 <= i < |items| ==> Acceptable(items[i]) then Some(PrintItems(items)) else None
    decreases items, 0
  {
    PrintNothing();
    hide Print, PrintItems, Acceptable, Integral;
    var text: Text, i := [], 0;
    assert items[..0] == [];
    while i < |items|
      invariant i <= |items| && text == PrintItems(items[..i]) && forall j :: 0 <= j < i ==> Acceptable(items[j])
    {
      var item := CanonicalText(items[i]);
      if item.None? { return None; }
      PrintItemsAppend(items[..i], items[i]);
      assert items[..i + 1] == items[..i] + [items[i]];
      text := if i == 0 then item.value else text + [COMMA] + item.value;
      i := i + 1;
    }
    assert items[..|items|] == items;
    return Some(text);
  }

  /** Own properties are written in the order the object lists them. */
  method JoinMembers(ghost v: Json, props: seq<Text>, texts: map<Text, Text>) returns (text: Text)
    requires KeysIn(v, props) && (forall k :: k in props ==> k in texts && texts[k] == Print(v.entries[k]))
    ensures text == PrintMembers(v, props)
  {
    text := [];
    var i := 0;
    while i < |props|
      invariant i <= |props| && KeysIn(v, props[..i]) && text == PrintMembers(v, props[..i])
    {
      var member := Quote(props[i]) + [COLON] + texts[props[i]];
      assert props[..i + 1] == props[..i] + [props[i]];
      PrintMembersAppend(v, props[..i], props[i]);
      text := if i == 0 then member else text + [COMMA] + member;
      i := i + 1;
    }
    assert props[..|props|] == props;
  }

  function Without(ks: seq<Text>, key: Text): seq<Text> {
    if ks == [] then [] else if ks[0] == key then Without(ks[1..], key) else [ks[0]] + Without(ks[1..], key)
  }

  lemma {:induction false} WithoutAppend(ks: seq<Text>, k: Text, key: Text)
    ensures Without(ks + [k], key) == Without(ks, key) + if k == key then [] else [k]
  {
    if ks != [] {
      assert (ks + [k])[1..] == ks[1..] + [k];
      WithoutAppend(ks[1..], k, key);
    }
  }

  lemma {:induction false} WithoutSorted(ks: seq<Text>, key: Text)
    requires CodeUnitSorted(ks)
    ensures CodeUnitSorted(Without(ks, key))
    ensures forall k :: k in Without(ks, key) <==> k in ks && k != key
  {
    if ks != [] {
      assert ks == [ks[0]] + ks[1..];
      WithoutSorted(ks[1..], key);
      var r := Without(ks[1..], key);
      forall j | 0 <= j < |r| ensures Less(ks[0], r[j]) { assert r[j] in ks[1..]; }
      hide Less;
    }
  }
}
