/** Parsing undoes printing exactly on the values that fit the parser's limits; printing loses nothing else. */
module JsonRoundTrip {
  import opened Basics
  import opened JsonText
  import opened JsonValue
  import opened StrictJson

  predicate StringFits(l: Limits, s: Text) {
    |s| <= l.units && WellFormed(s)
  }

  /** A value the parser could return at this depth, by the limits, the key rules and the number rules. */
  ghost predicate Fits(l: Limits, finite: Text -> bool, v: Json, depth: nat)
    decreases v
  {
    && depth <= l.depth
    && match v
       case Null => true
       case Bool(_) => true
       case Num(number) => (match number case Int(n) => -MAX_SAFE <= n <= MAX_SAFE case Other(lexeme) => finite(lexeme))
       case Str(s) => StringFits(l, s)
       case Arr(items) => |items| <= l.entries && forall i :: 0 <= i < |items| ==> Fits(l, finite, items[i], depth + 1)
       case Obj(entries) =>
         |entries| <= l.entries && forall k :: k in entries ==> StringFits(l, k) && !Reserved(k) && Fits(l, finite, entries[k], depth + 1)
  }

  /** Every number in the value is an integer. */
  ghost predicate Integral(v: Json)
    decreases v
  {
    match v
    case Num(number) => number.Int?
    case Arr(items) => forall i :: 0 <= i < |items| ==> Integral(items[i])
    case Obj(entries) => forall k :: k in entries ==> Integral(entries[k])
    case _ => true
  }

  // ---------------------------------------------------------------- counting nodes

  ghost function Count(v: Json): nat
    decreases v, 1, 0
  {
    match v
    case Arr(items) => 1 + CountItems(items)
    case Obj(entries) => 1 + CountMembers(v, entries.Keys)
    case _ => 1
  }

  ghost function CountItems(items: seq<Json>): nat
    decreases items, 0, 0
  {
    if items == [] then 0 else Count(items[0]) + CountItems(items[1..])
  }

  ghost function CountMembers(v: Json, ks: set<Text>): nat
    requires v.Obj? && ks <= v.entries.Keys
    decreases v, 0, |ks|
  {
    if ks == {} then 0
    else
      var k :| k in ks;
      Count(v.entries[k]) + CountMembers(v, ks - {k})
  }

  lemma {:induction false} CountWithout(v: Json, ks: set<Text>, k: Text)
    requires v.Obj? && ks <= v.entries.Keys && k in ks
    ensures CountMembers(v, ks) == Count(v.entries[k]) + CountMembers(v, ks - {k})
    decreases |ks|
  {
    var first :| first in ks && CountMembers(v, ks) == Count(v.entries[first]) + CountMembers(v, ks - {first});
    if first != k {
      CountWithout(v, ks - {first}, k);
      CountWithout(v, ks - {k}, first);
      assert ks - {first} - {k} == ks - {k} - {first};
    }
  }

  lemma {:induction false} CountAgrees(v: Json, w: Json, ks: set<Text>)
    requires v.Obj? && w.Obj? && ks <= v.entries.Keys && ks <= w.entries.Keys
    requires forall k :: k in ks ==> v.entries[k] == w.entries[k]
    ensures CountMembers(v, ks) == CountMembers(w, ks)
    decreases |ks|
  {
    if ks != {} {
      var k :| k in ks;
      CountWithout(v, ks, k);
      CountWithout(w, ks, k);
      CountAgrees(v, w, ks - {k});
    }
  }

  lemma {:induction false} CountItemsAppend(items: seq<Json>, v: Json)
    ensures CountItems(items + [v]) == CountItems(items) + Count(v)
  {
    if items == [] {
      assert [v][1..] == [];
    } else {
      CountItemsAppend(items[1..], v);
      assert (items + [v])[1..] == items[1..] + [v];
    }
  }

  // ---------------------------------------------------------------- printing, then parsing

  lemma QuoteUndone(l: Limits, s: Text, rest: Text)
    requires StringFits(l, s)
    ensures StringAt(l, Quote(s) + rest) == Some((s, rest))
  {
    EscapeScans(s, rest);
    EscapeUndone(s);
    hide Scan, Unescape, Escape, WellFormed;
    var t, e := Quote(s) + rest, Escape(s);
    assert t[1..] == e + ([QUOTE] + rest);
    assert t[1..][..|e|] == e;
    assert t[1..][|e| + 1..] == rest;
  }

  /** Printed text starts with something that is neither white space, nor a mark, nor a closing bracket. */
  lemma FirstUnit(v: Json)
    requires Integral(v)
    ensures Print(v) != []
    ensures var u := Print(v)[0];
      !IsSpace(u) && u != BYTE_ORDER_MARK && u != CLOSE_BRACKET
      && (v.Num? ==> u == MINUS || IsDigit(u))
      && (u == QUOTE ==> v.Str?) && (u == OPEN_BRACE ==> v.Obj?) && (u == OPEN_BRACKET ==> v.Arr?)
  {
    if v.Num? {
      var n := v.number.n;
      assert IsDigit(Digits(if n < 0 then -n else n)[0]);
    }
  }

  lemma StartsAlike(t: Text, word: Text)
    requires word != []
    ensures Starts(t, word) ==> t[0] == word[0]
  {
    if Starts(t, word) { assert t[..|word|][0] == t[0]; }
  }

  lemma NumberOfPrint(finite: Text -> bool, number: int, rest: Text, n: nat)
    requires -MAX_SAFE <= number <= MAX_SAFE && Terminated(rest)
    ensures Scalar(finite, Decimal(number) + rest, n) == Some(Parsed(Num(Int(number)), rest, n))
  {
    var t := Decimal(number) + rest;
    DecimalUndone(number, rest);
    FirstUnit(Num(Int(number)));
    assert Decimal(number) == Print(Num(Int(number)));
    hide Decimal, NumberAt;
    assert t[0] == Decimal(number)[0];
    assert t[|Decimal(number)|..] == rest;
    StartsAlike(t, TRUE_TEXT);
    StartsAlike(t, FALSE_TEXT);
    StartsAlike(t, NULL_TEXT);
    hide Starts;
  }

  lemma LiteralOfPrint(finite: Text -> bool, v: Json, rest: Text, n: nat)
    requires v.Null? || v.Bool?
    ensures Scalar(finite, Print(v) + rest, n) == Some(Parsed(v, rest, n))
  {
    var t := Print(v) + rest;
    assert t[..|Print(v)|] == Print(v) && t[|Print(v)|..] == rest && t[0] == Print(v)[0];
    StartsAlike(t, TRUE_TEXT);
    StartsAlike(t, FALSE_TEXT);
    StartsAlike(t, NULL_TEXT);
    hide Starts;
  }

  /** Text that opens nothing is read as a scalar. */
  lemma ScalarOpens(l: Limits, finite: Text -> bool, t: Text, n: nat, depth: nat)
    requires n < l.nodes && depth <= l.depth && t != [] && !IsSpace(t[0])
    requires t[0] != QUOTE && t[0] != OPEN_BRACE && t[0] != OPEN_BRACKET
    ensures Value(l, finite, t, n, depth) == Scalar(finite, t, n + 1)
  {
    NoSpace(t);
    hide Scalar, SkipSpace;
  }

  lemma ScalarOfPrint(l: Limits, finite: Text -> bool, v: Json, rest: Text, n: nat, depth: nat)
    requires Fits(l, finite, v, depth) && Integral(v) && Terminated(rest) && !v.Arr? && !v.Obj?
    requires n < l.nodes
    ensures Value(l, finite, Print(v) + rest, n, depth) == Some(Parsed(v, rest, n + 1))
  {
    FirstUnit(v);
    var t := Print(v) + rest;
    if v.Str? {
      NoSpace(t);
      QuoteUndone(l, v.s, rest);
      hide Quote, StringAt, SkipSpace;
    } else {
      if v.Num? { NumberOfPrint(finite, v.number.n, rest, n + 1); } else { LiteralOfPrint(finite, v, rest, n + 1); }
      hide Scalar, Decimal, Value;
      assert t[0] == Print(v)[0];
      ScalarOpens(l, finite, t, n, depth);
    }
  }

  lemma NoSpace(t: Text)
    requires t != [] && !IsSpace(t[0])
    ensures SkipSpace(t) == t
  {
  }

  /** An opening bracket leads to the item loop, or straight to an empty array. */
  lemma ArrayOpens(l: Limits, finite: Text -> bool, inner: Text, n: nat, depth: nat)
    requires n < l.nodes && depth <= l.depth && inner != [] && !IsSpace(inner[0])
    ensures Value(l, finite, [OPEN_BRACKET] + inner, n, depth)
      == if inner[0] == CLOSE_BRACKET then Some(Parsed(Arr([]), inner[1..], n + 1)) else Items(l, finite, inner, n + 1, depth, [])
  {
    var t := [OPEN_BRACKET] + inner;
    NoSpace(t);
    NoSpace(inner);
    assert t[1..] == inner;
    hide SkipSpace, Items;
  }

  lemma ObjectOpens(l: Limits, finite: Text -> bool, inner: Text, n: nat, depth: nat)
    requires n < l.nodes && depth <= l.depth && inner != [] && !IsSpace(inner[0])
    ensures Value(l, finite, [OPEN_BRACE] + inner, n, depth)
      == if inner[0] == CLOSE_BRACE then Some(Parsed(Obj(map[]), inner[1..], n + 1)) else Members(l, finite, inner, n + 1, depth, map[])
  {
    var t := [OPEN_BRACE] + inner;
    NoSpace(t);
    NoSpace(inner);
    assert t[1..] == inner;
    hide SkipSpace, Members;
  }

  /** After an item comes a closing bracket, or a comma and the other items. */
  lemma ItemFollows(l: Limits, finite: Text -> bool, text: Text, n: nat, depth: nat, items: seq<Json>, v: Json, after: Unit, rest: Text, m: nat)
    requires |items| < l.entries && (after == COMMA || after == CLOSE_BRACKET)
    requires Value(l, finite, text, n, depth + 1) == Some(Parsed(v, [after] + rest, m))
    ensures Items(l, finite, text, n, depth, items)
      == if after == CLOSE_BRACKET then Some(Parsed(Arr(items + [v]), rest, m)) else Items(l, finite, rest, m, depth, items + [v])
  {
    NoSpace([after] + rest);
    assert ([after] + rest)[1..] == rest;
    hide Value, SkipSpace;
  }

  lemma MemberFollows(l: Limits, finite: Text -> bool, text: Text, n: nat, depth: nat, done: map<Text, Json>, key: Text, v: Json, after: Unit, rest: Text, m: nat)
    requires after == COMMA || after == CLOSE_BRACE
    requires Member(l, finite, text, n, depth, done.Keys) == Some((key, Parsed(v, [after] + rest, m)))
    ensures Members(l, finite, text, n, depth, done)
      == if after == CLOSE_BRACE then Some(Parsed(Obj(done[key := v]), rest, m)) else Members(l, finite, rest, m, depth, done[key := v])
  {
    NoSpace([after] + rest);
    assert ([after] + rest)[1..] == rest;
    hide Member, SkipSpace;
  }

  /** A quoted key, a colon and a printed value are read as that member. */
  lemma MemberOf(l: Limits, finite: Text -> bool, key: Text, text: Text, n: nat, depth: nat, keys: set<Text>, p: Parsed)
    requires StringFits(l, key) && !Reserved(key) && key !in keys && |keys| < l.entries
    requires Value(l, finite, text, n, depth + 1) == Some(p)
    ensures Member(l, finite, Quote(key) + ([COLON] + text), n, depth, keys) == Some((key, p))
  {
    var after := [COLON] + text;
    QuoteUndone(l, key, after);
    NoSpace(Quote(key) + after);
    NoSpace(after);
    assert after[1..] == text;
    hide Value, SkipSpace, StringAt, Reserved, StringFits;
  }

  /** Parsing printed text gives the value back and stops where it ends, whatever ends it. */
  lemma {:induction false} ValueOfPrint(l: Limits, finite: Text -> bool, v: Json, rest: Text, n: nat, depth: nat)
    requires Fits(l, finite, v, depth) && Integral(v) && Terminated(rest)
    requires n + Count(v) <= l.nodes
    ensures Value(l, finite, Print(v) + rest, n, depth) == Some(Parsed(v, rest, n + Count(v)))
    decreases v, 2, 0
  {
    if v.Arr? {
      ArrayOfPrint(l, finite, v, rest, n, depth);
    } else if v.Obj? {
      ObjectOfPrint(l, finite, v, rest, n, depth);
    } else {
      ScalarOfPrint(l, finite, v, rest, n, depth);
    }
  }

  lemma {:induction false} ArrayOfPrint(l: Limits, finite: Text -> bool, v: Json, rest: Text, n: nat, depth: nat)
    requires v.Arr? && Fits(l, finite, v, depth) && Integral(v) && n + Count(v) <= l.nodes
    ensures Value(l, finite, Print(v) + rest, n, depth) == Some(Parsed(v, rest, n + Count(v)))
    decreases v, 1, 0
  {
    hide Value, Items, Members, Member, SkipSpace, Quote, Reserved, StringFits, Escape, WellFormed;
    var inner := PrintItems(v.items) + ([CLOSE_BRACKET] + rest);
    Enclosed(OPEN_BRACKET, PrintItems(v.items), CLOSE_BRACKET, rest);
    if v.items != [] {
      FirstUnit(v.items[0]);
      ItemsOfPrint(l, finite, [], v.items, rest, n + 1, depth);
      assert inner[0] == Print(v.items[0])[0];
      ArrayOpens(l, finite, inner, n, depth);
      assert [] + v.items == v.items;
    } else {
      assert inner == [CLOSE_BRACKET] + rest && inner[1..] == rest;
      ArrayOpens(l, finite, inner, n, depth);
    }
  }

  lemma Enclosed(opening: Unit, inner: Text, closing: Unit, rest: Text)
    ensures ([opening] + inner + [closing]) + rest == [opening] + (inner + ([closing] + rest))
  {
  }

  /** A value that fits has no `__proto__` entry to lose. */
  lemma ObjectText(l: Limits, finite: Text -> bool, v: Json, depth: nat)
    requires v.Obj? && Fits(l, finite, v, depth)
    ensures var ks := OrderedKeys(v.entries.Keys);
      && KeysIn(v, ks) && Ordered(ks) && KeySet(ks) == v.entries.Keys
      && Print(v) == [OPEN_BRACE] + PrintMembers(v, ks) + [CLOSE_BRACE]
      && Count(v) == 1 + CountMembers(v, KeySet(ks))
      && (ks == [] ==> v == Obj(map[]))
    ensures depth <= l.depth
  {
    var ks := OrderedKeys(v.entries.Keys);
    OrderedKeysOf(v.entries.Keys);
    assert Reserved(PROTO);
    assert PROTO !in v.entries;
    assert KeySet(ks) == v.entries.Keys;
    assert ks == [] ==> v.entries.Keys == {};
    hide OrderedKeys, PrintMembers, Ordered, CountMembers, Fits, Print, Reserved, StringFits;
    PrintObject(v);
  }

  lemma PrintObject(v: Json)
    requires v.Obj? && PROTO !in v.entries
    ensures var ks := OrderedKeys(v.entries.Keys);
      KeysIn(v, ks) && Print(v) == [OPEN_BRACE] + PrintMembers(v, ks) + [CLOSE_BRACE]
  {
    assert v.entries.Keys - {PROTO} == v.entries.Keys;
    OrderedKeysOf(v.entries.Keys);
    hide OrderedKeys, PrintMembers, Ordered;
  }

  lemma {:induction false} ObjectOfPrint(l: Limits, finite: Text -> bool, v: Json, rest: Text, n: nat, depth: nat)
    requires v.Obj? && Fits(l, finite, v, depth) && Integral(v) && n + Count(v) <= l.nodes
    ensures Value(l, finite, Print(v) + rest, n, depth) == Some(Parsed(v, rest, n + Count(v)))
    decreases v, 1, 0
  {
    hide Value, Members, Fits, Integral, Print, Count, CountMembers, OrderedKeys, PrintMembers, Quote, Ordered, KeySet, KeysIn, Taken;
    var ks := OrderedKeys(v.entries.Keys);
    ObjectText(l, finite, v, depth);
    var tail := [CLOSE_BRACE] + rest;
    Enclosed(OPEN_BRACE, PrintMembers(v, ks), CLOSE_BRACE, rest);
    if ks != [] {
      MembersOfPrint(l, finite, v, ks, rest, n + 1, depth);
      NothingTaken(v.entries, ks);
      StartsQuoted(v, ks, tail);
      ObjectOpens(l, finite, PrintMembers(v, ks) + tail, n, depth);
    } else {
      EmptyMembers(v, tail);
      assert tail[1..] == rest;
      ObjectOpens(l, finite, tail, n, depth);
    }
  }

  lemma EmptyMembers(v: Json, tail: Text)
    requires v.Obj?
    ensures KeysIn(v, []) && PrintMembers(v, []) + tail == tail && CountMembers(v, KeySet([])) == 0
  {
    assert KeySet([]) == {};
  }

  lemma StartsQuoted(v: Json, ks: seq<Text>, tail: Text)
    requires KeysIn(v, ks) && ks != []
    ensures PrintMembers(v, ks) + tail != [] && (PrintMembers(v, ks) + tail)[0] == QUOTE
  {
  }

  lemma {:induction false} ItemsOfPrint(l: Limits, finite: Text -> bool, done: seq<Json>, left: seq<Json>, rest: Text, n: nat, depth: nat)
    requires left != [] && |done| + |left| <= l.entries
    requires forall i :: 0 <= i < |left| ==> Fits(l, finite, left[i], depth + 1) && Integral(left[i])
    requires n + CountItems(left) <= l.nodes
    ensures Items(l, finite, PrintItems(left) + ([CLOSE_BRACKET] + rest), n, depth, done)
      == Some(Parsed(Arr(done + left), rest, n + CountItems(left)))
    decreases left, 0, 0
  {
    hide Value, Items, Members, Member, SkipSpace, Quote, Reserved, StringFits, Escape, WellFormed, Print, Count;
    var v := left[0];
    assert left == [v] + left[1..];
    assert done + [v] + left[1..] == done + left;
    if |left| == 1 {
      ValueOfPrint(l, finite, v, [CLOSE_BRACKET] + rest, n, depth + 1);
      ItemFollows(l, finite, Print(v) + ([CLOSE_BRACKET] + rest), n, depth, done, v, CLOSE_BRACKET, rest, n + Count(v));
      assert CountItems(left) == Count(v) && PrintItems(left) == Print(v) && done + left == done + [v];
    } else {
      var next := PrintItems(left[1..]) + ([CLOSE_BRACKET] + rest);
      ValueOfPrint(l, finite, v, [COMMA] + next, n, depth + 1);
      ItemsOfPrint(l, finite, done + [v], left[1..], rest, n + Count(v), depth);
      ItemFollows(l, finite, Print(v) + ([COMMA] + next), n, depth, done, v, COMMA, next, n + Count(v));
      assert PrintItems(left) + ([CLOSE_BRACKET] + rest) == Print(v) + ([COMMA] + next);
    }
  }

  function KeySet(ks: seq<Text>): set<Text> {
    set k | k in ks
  }

  /** The entries read when `ks` are still to come. */
  function Taken(entries: map<Text, Json>, ks: seq<Text>): map<Text, Json> {
    map k | k in entries && k !in ks :: entries[k]
  }

  lemma NothingTaken(entries: map<Text, Json>, ks: seq<Text>)
    requires KeySet(ks) == entries.Keys
    ensures Taken(entries, ks) == map[]
  {
  }

  lemma TailKeys(ks: seq<Text>)
    requires ks != [] && Ordered(ks)
    ensures ks[0] !in ks[1..] && Ordered(ks[1..]) && KeySet(ks) - {ks[0]} == KeySet(ks[1..])
  {
    BeforeIsStrictOrder(ks[0], ks[0], ks[0]);
    assert ks == [ks[0]] + ks[1..];
    hide Before;
  }

  lemma TakeNext(entries: map<Text, Json>, ks: seq<Text>)
    requires ks != [] && ks[0] !in ks[1..] && KeySet(ks) <= entries.Keys
    ensures var done := Taken(entries, ks);
      && ks[0] in entries && ks[0] !in done && |done.Keys| < |entries|
      && done[ks[0] := entries[ks[0]]] == Taken(entries, ks[1..])
    ensures |ks| == 1 ==> Taken(entries, ks[1..]) == entries
  {
    assert ks[0] in KeySet(ks);
    assert ks == [ks[0]] + ks[1..];
    SmallerDomain(entries, Taken(entries, ks), ks[0]);
  }

  lemma MemberFits(l: Limits, finite: Text -> bool, v: Json, key: Text, depth: nat)
    requires v.Obj? && key in v.entries && Fits(l, finite, v, depth) && Integral(v)
    ensures Fits(l, finite, v.entries[key], depth + 1) && Integral(v.entries[key])
    ensures StringFits(l, key) && !Reserved(key) && |v.entries| <= l.entries
  {
    hide StringFits, Reserved;
  }

  /** One printed member is read and what follows it decides how the loop goes on. */
  lemma {:induction false} OneMember(l: Limits, finite: Text -> bool, v: Json, key: Text, after: Unit, next: Text, n: nat, depth: nat, done: map<Text, Json>)
    requires v.Obj? && key in v.entries && key !in done && |done.Keys| < |v.entries|
    requires Fits(l, finite, v, depth) && Integral(v) && (after == COMMA || after == CLOSE_BRACE)
    requires n + Count(v.entries[key]) <= l.nodes
    ensures Members(l, finite, (Quote(key) + [COLON] + Print(v.entries[key])) + ([after] + next), n, depth, done)
      == if after == CLOSE_BRACE then Some(Parsed(Obj(done[key := v.entries[key]]), next, n + Count(v.entries[key])))
         else Members(l, finite, next, n + Count(v.entries[key]), depth, done[key := v.entries[key]])
    decreases v, 0, 0
  {
    hide Value, Items, Members, Member, SkipSpace, Quote, Reserved, StringFits, Escape, WellFormed, Fits, Integral, Print, Count;
    var w, tail := v.entries[key], [after] + next;
    MemberFits(l, finite, v, key, depth);
    ValueOfPrint(l, finite, w, tail, n, depth + 1);
    MemberOf(l, finite, key, Print(w) + tail, n, depth, done.Keys, Parsed(w, tail, n + Count(w)));
    MemberFollows(l, finite, Quote(key) + ([COLON] + (Print(w) + tail)), n, depth, done, key, w, after, next, n + Count(w));
    FirstMember(Quote(key), Print(w), tail);
  }

  lemma MembersUnfold(v: Json, ks: seq<Text>)
    requires KeysIn(v, ks) && ks != []
    ensures ks[0] in v.entries && KeysIn(v, ks[1..])
    ensures var first := Quote(ks[0]) + [COLON] + Print(v.entries[ks[0]]);
      PrintMembers(v, ks) == if |ks| == 1 then first else first + [COMMA] + PrintMembers(v, ks[1..])
  {
    hide Quote, Print;
  }

  /** Everything the member loop needs to know about its first key and the keys after it. */
  lemma FirstKey(v: Json, ks: seq<Text>)
    requires v.Obj? && KeysIn(v, ks) && ks != [] && Ordered(ks)
    ensures ks[0] in v.entries && ks[0] !in Taken(v.entries, ks) && |Taken(v.entries, ks).Keys| < |v.entries|
    ensures KeysIn(v, ks[1..]) && Ordered(ks[1..]) && KeySet(ks) <= v.entries.Keys && KeySet(ks[1..]) <= v.entries.Keys
    ensures Taken(v.entries, ks)[ks[0] := v.entries[ks[0]]] == Taken(v.entries, ks[1..])
    ensures CountMembers(v, KeySet(ks)) == Count(v.entries[ks[0]]) + CountMembers(v, KeySet(ks[1..]))
    ensures var first := Quote(ks[0]) + [COLON] + Print(v.entries[ks[0]]);
      PrintMembers(v, ks) == if |ks| == 1 then first else first + [COMMA] + PrintMembers(v, ks[1..])
    ensures |ks| == 1 ==> v == Obj(Taken(v.entries, ks[1..])) && CountMembers(v, KeySet(ks[1..])) == 0
  {
    hide Ordered, Taken, Quote, Print, Count, CountMembers, PrintMembers, KeySet, KeysIn;
    TailKeys(ks);
    KeysInSet(v, ks);
    KeysInSet(v, ks[1..]);
    TakeNext(v.entries, ks);
    CountFirst(v, ks);
    MembersUnfold(v, ks);
  }

  lemma KeysInSet(v: Json, ks: seq<Text>)
    requires v.Obj?
    ensures KeysIn(v, ks) <==> KeySet(ks) <= v.entries.Keys
    ensures KeysIn(v, ks) && ks != [] ==> KeysIn(v, ks[1..])
  {
    assert forall k :: k in ks ==> k in KeySet(ks);
  }

  lemma CountFirst(v: Json, ks: seq<Text>)
    requires v.Obj? && ks != [] && KeySet(ks) <= v.entries.Keys && KeySet(ks[1..]) == KeySet(ks) - {ks[0]}
    ensures ks[0] in v.entries && CountMembers(v, KeySet(ks)) == Count(v.entries[ks[0]]) + CountMembers(v, KeySet(ks[1..]))
    ensures |ks| == 1 ==> CountMembers(v, KeySet(ks[1..])) == 0
  {
    assert ks[0] in KeySet(ks);
    CountWithout(v, KeySet(ks), ks[0]);
    assert |ks| == 1 ==> KeySet(ks[1..]) == {};
  }

  lemma {:induction false} MembersOfPrint(l: Limits, finite: Text -> bool, v: Json, ks: seq<Text>, rest: Text, n: nat, depth: nat)
    requires v.Obj? && KeysIn(v, ks) && ks != [] && Ordered(ks) && KeySet(ks) <= v.entries.Keys
    requires Fits(l, finite, v, depth) && Integral(v)
    requires n + CountMembers(v, KeySet(ks)) <= l.nodes
    ensures Members(l, finite, PrintMembers(v, ks) + ([CLOSE_BRACE] + rest), n, depth, Taken(v.entries, ks))
      == Some(Parsed(v, rest, n + CountMembers(v, KeySet(ks))))
    decreases v, 0, |ks|
  {
    hide Members, Quote, Fits, Integral, Ordered, Count, CountMembers, Print, PrintMembers, Taken, KeySet, KeysIn;
    FirstKey(v, ks);
    var key, done := ks[0], Taken(v.entries, ks);
    var first := Quote(key) + [COLON] + Print(v.entries[key]);
    if |ks| == 1 {
      OneMember(l, finite, v, key, CLOSE_BRACE, rest, n, depth, done);
    } else {
      var others := PrintMembers(v, ks[1..]);
      OneMember(l, finite, v, key, COMMA, others + ([CLOSE_BRACE] + rest), n, depth, done);
      MembersOfPrint(l, finite, v, ks[1..], rest, n + Count(v.entries[key]), depth);
      MoreMembers(first, others, [CLOSE_BRACE] + rest);
    }
  }

  lemma MoreMembers(first: Text, others: Text, tail: Text)
    ensures (first + [COMMA] + others) + tail == first + ([COMMA] + (others + tail))
  {
  }

  lemma FirstMember(key: Text, value: Text, tail: Text)
    ensures (key + [COLON] + value) + tail == key + ([COLON] + (value + tail))
  {
  }

  lemma SmallerDomain(entries: map<Text, Json>, done: map<Text, Json>, key: Text)
    requires done.Keys <= entries.Keys && key in entries && key !in done
    ensures |done.Keys| < |entries|
  {
    Subset(done.Keys, entries.Keys - {key});
    assert |entries.Keys - {key}| == |entries| - 1;
  }

  lemma {:induction false} Subset(a: set<Text>, b: set<Text>)
    requires a <= b
    ensures |a| <= |b|
    decreases |a|
  {
    if a != {} {
      var x :| x in a;
      Subset(a - {x}, b - {x});
    }
  }

  // ---------------------------------------------------------------- what the parser returns fits

  lemma NumberFits(t: Text)
    ensures match NumberAt(t) case Some(p) => (p.0.Int? ==> -MAX_SAFE <= p.0.n <= MAX_SAFE) case None => true
  {
  }

  /** Whatever the parser accepts keeps every limit, and the node counter is exact. */
  lemma {:induction false} ParsedFits(l: Limits, finite: Text -> bool, text: Text, n: nat, depth: nat)
    ensures match Value(l, finite, text, n, depth)
      case Some(p) => Fits(l, finite, p.value, depth) && p.nodes == n + Count(p.value) && p.nodes <= l.nodes
      case None => true
    decreases |text|, 2
  {
    var t := SkipSpace(text);
    if n + 1 > l.nodes || depth > l.depth || t == [] {
    } else if t[0] == OPEN_BRACE {
      assert Fits(l, finite, Obj(map[]), depth) && Count(Obj(map[])) == 1;
      MembersFit(l, finite, SkipSpace(t[1..]), n + 1, depth, map[]);
      hide Members, Fits, Count, CountMembers;
    } else if t[0] == OPEN_BRACKET {
      assert Fits(l, finite, Arr([]), depth) && Count(Arr([])) == 1;
      ItemsFit(l, finite, SkipSpace(t[1..]), n + 1, depth, []);
      hide Items, Fits, Count, CountItems;
    } else if t[0] != QUOTE {
      NumberFits(t);
      hide NumberAt;
    }
  }

  /** The entries read so far, as an object, keep the limits. */
  ghost predicate EntriesFit(l: Limits, finite: Text -> bool, entries: map<Text, Json>, depth: nat) {
    |entries| <= l.entries && forall k :: k in entries ==> StringFits(l, k) && !Reserved(k) && Fits(l, finite, entries[k], depth + 1)
  }

  lemma {:induction false} MemberParsedFits(l: Limits, finite: Text -> bool, text: Text, n: nat, depth: nat, keys: set<Text>)
    ensures match Member(l, finite, text, n, depth, keys)
      case Some(m) => StringFits(l, m.0) && !Reserved(m.0) && Fits(l, finite, m.1.value, depth + 1)
        && m.1.nodes == n + Count(m.1.value) && m.1.nodes <= l.nodes
      case None => true
    decreases |text|, 0
  {
    var key := StringAt(l, SkipSpace(text));
    if key.Some? {
      var t := SkipSpace(key.value.1);
      if t != [] { ParsedFits(l, finite, t[1..], n, depth + 1); }
      hide Value, Fits, Count, SkipSpace, Reserved;
    }
  }

  /** Adding an entry adds its nodes. */
  lemma CountGrows(entries: map<Text, Json>, key: Text, v: Json)
    requires key !in entries
    ensures Count(Obj(entries[key := v])) == Count(Obj(entries)) + Count(v)
  {
    var grown := entries[key := v];
    CountWithout(Obj(grown), grown.Keys, key);
    assert grown.Keys - {key} == entries.Keys;
    CountAgrees(Obj(grown), Obj(entries), entries.Keys);
  }

  lemma {:induction false} MembersFit(l: Limits, finite: Text -> bool, text: Text, n: nat, depth: nat, entries: map<Text, Json>)
    requires EntriesFit(l, finite, entries, depth) && depth <= l.depth && n <= l.nodes
    ensures match Members(l, finite, text, n, depth, entries)
      case Some(p) => p.value.Obj? && Fits(l, finite, p.value, depth) && p.nodes <= l.nodes && p.nodes + Count(Obj(entries)) == n + Count(p.value)
      case None => true
    decreases |text|, 1
  {
    var m := Member(l, finite, text, n, depth, entries.Keys);
    if m.Some? {
      MemberParsedFits(l, finite, text, n, depth, entries.Keys);
      var key, p := m.value.0, m.value.1;
      var grown, u := entries[key := p.value], SkipSpace(p.rest);
      CountGrows(entries, key, p.value);
      MembersUnfolds(l, finite, text, n, depth, entries, key, p);
      assert EntriesFit(l, finite, grown, depth);
      assert Fits(l, finite, Obj(grown), depth);
      hide Members, Member, Fits, Count, EntriesFit, SkipSpace;
      if u != [] && u[0] == COMMA { MembersFit(l, finite, u[1..], p.nodes, depth, grown); }
    }
  }

  lemma {:induction false} ItemsFit(l: Limits, finite: Text -> bool, text: Text, n: nat, depth: nat, items: seq<Json>)
    requires Fits(l, finite, Arr(items), depth) && n <= l.nodes
    ensures match Items(l, finite, text, n, depth, items)
      case Some(p) => p.value.Arr? && Fits(l, finite, p.value, depth) && p.nodes <= l.nodes && p.nodes + Count(Arr(items)) == n + Count(p.value)
      case None => true
    decreases |text|, 3
  {
    var v := Value(l, finite, text, n, depth + 1);
    if v.Some? && |items| < l.entries {
      ParsedFits(l, finite, text, n, depth + 1);
      var p := v.value;
      var grown, u := items + [p.value], SkipSpace(p.rest);
      CountItemsAppend(items, p.value);
      assert Fits(l, finite, Arr(grown), depth);
      assert Count(Arr(grown)) == Count(Arr(items)) + Count(p.value);
      hide Value, Fits, Count, SkipSpace;
      if u != [] && u[0] == COMMA { ItemsFit(l, finite, u[1..], p.nodes, depth, grown); }
    }
  }

  // ---------------------------------------------------------------- the theorems

  /** For every integral value: parsing its printed text gives it back if and only if it keeps the limits. */
  lemma RoundTrip(l: Limits, finite: Text -> bool, v: Json)
    requires Integral(v)
    ensures Parse(l, finite, Print(v)) == Some(v) <==> Fits(l, finite, v, 0) && Count(v) <= l.nodes
  {
    FirstUnit(v);
    assert Print(v) + [] == Print(v);
    if Fits(l, finite, v, 0) && Count(v) <= l.nodes { ValueOfPrint(l, finite, v, [], 0, 0); }
    ParsedFits(l, finite, Print(v), 0, 0);
    hide Value, Fits, Count, Print, Integral;
  }

  /** Two values that keep some limits, however generous, print alike only if they are equal. */
  lemma PrintIsInjective(l: Limits, finite: Text -> bool, v: Json, w: Json)
    requires Integral(v) && Fits(l, finite, v, 0) && Count(v) <= l.nodes
    requires Integral(w) && Fits(l, finite, w, 0) && Count(w) <= l.nodes
    requires Print(v) == Print(w)
    ensures v == w
  {
    RoundTrip(l, finite, v);
    RoundTrip(l, finite, w);
    hide Parse, Fits, Count, Print, Integral;
  }
}
