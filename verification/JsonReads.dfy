/** Every RFC 8259 text of a value within the limits is read, and read as that value. */
module JsonReads {
  import opened Basics
  import opened JsonText
  import opened JsonValue
  import opened StrictJson
  import opened JsonRoundTrip
  import opened JsonGrammar
  import opened JsonAccepts

  lemma NumberStarts(number: Number, t: Text)
    requires NumberWritten(number, t)
    ensures t != [] && (t[0] == MINUS || IsDigit(t[0]))
  {
    var a: nat, b: nat, c: nat :| NumberCut(t, a, b, c) && CutDenotes(number, t, a, b, c);
    assert t[a..b][0] == t[a];
  }

  /** How the text of a value begins. */
  lemma CoreStarts(v: Json, core: Text)
    requires Writes(v, core)
    ensures core != [] && !IsSpace(core[0]) && core[0] != CLOSE_BRACE && core[0] != CLOSE_BRACKET && core[0] != BYTE_ORDER_MARK
    ensures (core[0] == QUOTE <==> v.Str?) && (core[0] == OPEN_BRACE <==> v.Obj?) && (core[0] == OPEN_BRACKET <==> v.Arr?)
    ensures v.Num? ==> core[0] == MINUS || IsDigit(core[0])
  {
    if v.Num? { NumberStarts(v.number, core); }
    hide NumberWritten, Spells, ItemsWritten, EntriesWritten;
  }

  predicate Delimiter(u: Unit) {
    u == COMMA || u == CLOSE_BRACKET || u == CLOSE_BRACE
  }

  /** White space and then a delimiter end a number. */
  lemma PaddingEnds(gap: Text, after: Unit, rest: Text)
    requires AllSpace(gap) && Delimiter(after)
    ensures Ended(gap + ([after] + rest)) && SkipSpace(gap + ([after] + rest)) == [after] + rest
  {
    SkipTo(gap, [after] + rest);
    assert gap != [] ==> IsSpace(gap[0]);
  }

  lemma ScalarReads(l: Limits, finite: Text -> bool, v: Json, core: Text, rest: Text, n: nat, depth: nat)
    requires Writes(v, core) && Fits(l, finite, v, depth) && Ended(rest) && n < l.nodes && !v.Str? && !v.Arr? && !v.Obj?
    ensures Value(l, finite, core + rest, n, depth) == Some(Parsed(v, rest, n + 1))
  {
    CoreStarts(v, core);
    var t := core + rest;
    assert t[0] == core[0];
    assert depth <= l.depth;
    ScalarOpens(l, finite, t, n, depth);
    if v.Num? {
      assert v.number.Other? ==> finite(v.number.lexeme);
      NumberScalar(finite, v.number, core, rest, n + 1);
    } else {
      LiteralOfPrint(finite, v, rest, n + 1);
      assert core == Print(v);
    }
    hide Value, Scalar, Writes, Fits, Print;
  }

  lemma NumberScalar(finite: Text -> bool, number: Number, core: Text, rest: Text, n: nat)
    requires NumberWritten(number, core) && Ended(rest) && (number.Other? ==> finite(number.lexeme))
    ensures Scalar(finite, core + rest, n) == Some(Parsed(Num(number), rest, n))
  {
    NumberReads(number, core, rest);
    NumberStarts(number, core);
    hide NumberWritten, NumberAt;
    var t := core + rest;
    assert t[0] == core[0] && t[|core|..] == rest;
    StartsAlike(t, TRUE_TEXT);
    StartsAlike(t, FALSE_TEXT);
    StartsAlike(t, NULL_TEXT);
    hide Starts;
  }

  lemma StringReads(l: Limits, finite: Text -> bool, v: Json, core: Text, rest: Text, n: nat, depth: nat)
    requires v.Str? && Writes(v, core) && Fits(l, finite, v, depth) && n < l.nodes
    ensures Value(l, finite, core + rest, n, depth) == Some(Parsed(v, rest, n + 1))
  {
    CoreStarts(v, core);
    QuotedReads(l, v.s, core, rest);
    hide Quoted, StringAt, StringFits;
    assert (core + rest)[0] == core[0];
    NoSpace(core + rest);
    hide SkipSpace;
  }

  /** Leading white space makes no difference. */
  lemma AfterSpace(l: Limits, finite: Text -> bool, ws: Text, t: Text, n: nat, depth: nat)
    requires AllSpace(ws) && t != [] && !IsSpace(t[0])
    ensures Value(l, finite, ws + t, n, depth) == Value(l, finite, t, n, depth)
  {
    SkipTo(ws, t);
    SkipValue(l, finite, ws + t, n, depth);
    hide Value, SkipSpace;
  }

  /** A padded value before a delimiter is read, and what is left is the delimiter after white space. */
  lemma {:induction false} PaddedReads(l: Limits, finite: Text -> bool, v: Json, t: Text, after: Unit, rest: Text, n: nat, depth: nat)
    returns (left: Text)
    requires Padded(v, t) && Fits(l, finite, v, depth) && Delimiter(after) && n + Count(v) <= l.nodes
    ensures Value(l, finite, t + ([after] + rest), n, depth) == Some(Parsed(v, left, n + Count(v)))
    ensures SkipSpace(left) == [after] + rest
    decreases v, 3, 0
  {
    hide Value, Writes, SkipSpace, Fits, Count, Padded, AllSpace, Ended;
    var ws, core, gap := Unpads(v, t);
    left := gap + ([after] + rest);
    PaddingEnds(gap, after, rest);
    CoreStarts(v, core);
    WrittenReads(l, finite, v, core, left, n, depth);
    assert (core + left)[0] == core[0];
    AfterSpace(l, finite, ws, core + left, n, depth);
    PaddedText(ws, core, gap, [after] + rest);
  }

  lemma PaddedText(ws: Text, core: Text, gap: Text, tail: Text)
    ensures (ws + core + gap) + tail == ws + (core + (gap + tail))
  {
  }

  lemma CountsOne(v: Json)
    requires !v.Arr? && !v.Obj?
    ensures Count(v) == 1
  {
  }

  /** The text of a value is read as that value, whatever follows that does not extend it. */
  lemma {:induction false} WrittenReads(l: Limits, finite: Text -> bool, v: Json, core: Text, rest: Text, n: nat, depth: nat)
    requires Writes(v, core) && Fits(l, finite, v, depth) && Ended(rest) && n + Count(v) <= l.nodes
    ensures Value(l, finite, core + rest, n, depth) == Some(Parsed(v, rest, n + Count(v)))
    decreases v, 2, 0
  {
    hide Value, Writes, Fits, Count;
    if v.Arr? {
      ArrayReads(l, finite, v, core, rest, n, depth);
    } else if v.Obj? {
      ObjectReads(l, finite, v, core, rest, n, depth);
    } else {
      CountsOne(v);
      if v.Str? { StringReads(l, finite, v, core, rest, n, depth); } else { ScalarReads(l, finite, v, core, rest, n, depth); }
    }
  }

  // ---------------------------------------------------------------- arrays

  lemma ArraySplit(v: Json, core: Text) returns (inner: Text)
    requires v.Arr? && Writes(v, core)
    ensures core == [OPEN_BRACKET] + inner + [CLOSE_BRACKET]
    ensures if v.items == [] then AllSpace(inner) else ItemsWritten(v.items, inner)
  {
    inner := Inner(core);
    hide ItemsWritten;
  }

  /** An opening bracket, white space skipped: an empty array, or the item loop. */
  lemma ArrayBegins(l: Limits, finite: Text -> bool, inner: Text, n: nat, depth: nat)
    requires n < l.nodes && depth <= l.depth
    ensures var u := SkipSpace(inner);
      Value(l, finite, [OPEN_BRACKET] + inner, n, depth)
      == if u != [] && u[0] == CLOSE_BRACKET then Some(Parsed(Arr([]), u[1..], n + 1)) else Items(l, finite, inner, n + 1, depth, [])
  {
    var t := [OPEN_BRACKET] + inner;
    NoSpace(t);
    assert t[1..] == inner;
    SkipFirst(l, finite, inner, n + 1, depth, []);
    hide Items, SkipSpace;
  }

  lemma {:induction false} ItemsStart(items: seq<Json>, t: Text, tail: Text)
    requires ItemsWritten(items, t)
    ensures SkipSpace(t + tail) != [] && SkipSpace(t + tail)[0] != CLOSE_BRACKET
  {
    if |items| == 1 {
      PaddedStarts(items[0], t, tail);
    } else {
      hide Padded, ItemsWritten, SkipSpace;
      ItemsNotEmpty(items, t);
      var a, b := ItemsPart(items, t);
      PaddedStarts(items[0], a, [COMMA] + b + tail);
      assert t + tail == a + ([COMMA] + b + tail);
    }
  }

  lemma ItemsNotEmpty(items: seq<Json>, t: Text)
    requires ItemsWritten(items, t)
    ensures items != []
  {
  }

  lemma PaddedStarts(v: Json, t: Text, tail: Text)
    requires Padded(v, t)
    ensures SkipSpace(t + tail) != [] && SkipSpace(t + tail)[0] != CLOSE_BRACKET
  {
    hide Padded, Writes, SkipSpace;
    var ws, core, gap := Unpads(v, t);
    CoreStarts(v, core);
    var u := core + (gap + tail);
    assert u[0] == core[0];
    SkipTo(ws, u);
    PaddedText(ws, core, gap, tail);
  }

  /** One more item read, then the closing bracket or a comma. */
  lemma ItemGoesOn(l: Limits, finite: Text -> bool, text: Text, n: nat, depth: nat, done: seq<Json>, v: Json, left: Text, after: Unit, rest: Text, m: nat)
    requires |done| < l.entries && (after == COMMA || after == CLOSE_BRACKET)
    requires Value(l, finite, text, n, depth + 1) == Some(Parsed(v, left, m)) && SkipSpace(left) == [after] + rest
    ensures Items(l, finite, text, n, depth, done)
      == if after == CLOSE_BRACKET then Some(Parsed(Arr(done + [v]), rest, m)) else Items(l, finite, rest, m, depth, done + [v])
  {
    assert ([after] + rest)[1..] == rest;
    hide Value, SkipSpace;
  }

  /** Every item keeps the limits at this depth. */
  ghost predicate AllFit(l: Limits, finite: Text -> bool, items: seq<Json>, depth: nat) {
    forall i :: 0 <= i < |items| ==> Fits(l, finite, items[i], depth)
  }

  /** What the item loop needs to know about its first item. */
  lemma FirstOfItems(l: Limits, finite: Text -> bool, done: seq<Json>, items: seq<Json>, depth: nat)
    requires items != [] && AllFit(l, finite, items, depth)
    ensures Fits(l, finite, items[0], depth) && AllFit(l, finite, items[1..], depth)
    ensures CountItems(items) == Count(items[0]) + CountItems(items[1..]) && (|items| == 1 ==> CountItems(items[1..]) == 0)
    ensures (done + [items[0]]) + items[1..] == done + items && (|items| == 1 ==> done + [items[0]] == done + items)
  {
    hide Fits, Count;
    assert items == [items[0]] + items[1..];
  }

  lemma OnlyItem(items: seq<Json>, t: Text)
    requires ItemsWritten(items, t) && |items| == 1
    ensures Padded(items[0], t)
  {
    hide Padded;
  }

  lemma {:induction false} ItemsRead(l: Limits, finite: Text -> bool, done: seq<Json>, items: seq<Json>, t: Text, rest: Text, n: nat, depth: nat)
    requires ItemsWritten(items, t) && |done| + |items| <= l.entries && AllFit(l, finite, items, depth + 1)
    requires n + CountItems(items) <= l.nodes
    ensures Items(l, finite, t + ([CLOSE_BRACKET] + rest), n, depth, done) == Some(Parsed(Arr(done + items), rest, n + CountItems(items)))
    decreases items, 0, 0
  {
    hide Value, Items, Fits, Count, CountItems, Padded, SkipSpace, ItemsWritten, AllFit, Delimiter;
    ItemsNotEmpty(items, t);
    FirstOfItems(l, finite, done, items, depth + 1);
    var v, tail := items[0], [CLOSE_BRACKET] + rest;
    Delimiters();
    if |items| == 1 {
      OnlyItem(items, t);
      var left := PaddedReads(l, finite, v, t, CLOSE_BRACKET, rest, n, depth + 1);
      ItemGoesOn(l, finite, t + tail, n, depth, done, v, left, CLOSE_BRACKET, rest, n + Count(v));
    } else {
      var a, b := ItemsPart(items, t);
      var left := PaddedReads(l, finite, v, a, COMMA, b + tail, n, depth + 1);
      ItemGoesOn(l, finite, a + ([COMMA] + (b + tail)), n, depth, done, v, left, COMMA, b + tail, n + Count(v));
      ItemsRead(l, finite, done + [v], items[1..], b, rest, n + Count(v), depth);
      Commas(a, b, rest, CLOSE_BRACKET);
    }
  }

  lemma Delimiters()
    ensures Delimiter(COMMA) && Delimiter(CLOSE_BRACKET) && Delimiter(CLOSE_BRACE)
  {
  }

  lemma ArrayFits(l: Limits, finite: Text -> bool, v: Json, depth: nat)
    requires v.Arr? && Fits(l, finite, v, depth)
    ensures depth <= l.depth && |v.items| <= l.entries && AllFit(l, finite, v.items, depth + 1)
  {
  }

  lemma ArrayCount(v: Json)
    requires v.Arr?
    ensures Count(v) == 1 + CountItems(v.items) && (v.items == [] ==> Count(v) == 1 && v == Arr([]))
  {
  }

  lemma {:induction false} ArrayReads(l: Limits, finite: Text -> bool, v: Json, core: Text, rest: Text, n: nat, depth: nat)
    requires v.Arr? && Writes(v, core) && Fits(l, finite, v, depth) && n + Count(v) <= l.nodes
    ensures Value(l, finite, core + rest, n, depth) == Some(Parsed(v, rest, n + Count(v)))
    decreases v, 1, 0
  {
    hide Value, Items, Writes, Fits, Count, CountItems, SkipSpace, ItemsWritten, AllSpace, AllFit;
    ArrayFits(l, finite, v, depth);
    ArrayCount(v);
    var inner := ArraySplit(v, core);
    var tail := [CLOSE_BRACKET] + rest;
    Enclosed(OPEN_BRACKET, inner, CLOSE_BRACKET, rest);
    ArrayBegins(l, finite, inner + tail, n, depth);
    if v.items == [] {
      SkipTo(inner, tail);
      assert tail[1..] == rest;
    } else {
      ItemsStart(v.items, inner, tail);
      ItemsRead(l, finite, [], v.items, inner, rest, n + 1, depth);
      assert [] + v.items == v.items && Arr(v.items) == v;
    }
  }

  // ---------------------------------------------------------------- objects

  lemma ObjectSplit(v: Json, core: Text) returns (inner: Text, ks: seq<Text>)
    requires v.Obj? && Writes(v, core)
    ensures core == [OPEN_BRACE] + inner + [CLOSE_BRACE]
    ensures if v.entries.Keys == {} then AllSpace(inner) else ks != [] && NoRepeats(ks) && KeySet(ks) == v.entries.Keys && MembersWritten(v, ks, inner)
  {
    inner, ks := Inner(core), [];
    if v.entries.Keys != {} {
      hide MembersWritten, KeySet;
      ks :| ks != [] && NoRepeats(ks) && KeySet(ks) == v.entries.Keys && MembersWritten(v, ks, inner);
    }
    hide MembersWritten;
  }

  lemma ObjectBegins(l: Limits, finite: Text -> bool, inner: Text, n: nat, depth: nat)
    requires n < l.nodes && depth <= l.depth
    ensures var u := SkipSpace(inner);
      Value(l, finite, [OPEN_BRACE] + inner, n, depth)
      == if u != [] && u[0] == CLOSE_BRACE then Some(Parsed(Obj(map[]), u[1..], n + 1)) else Members(l, finite, inner, n + 1, depth, map[])
  {
    var t := [OPEN_BRACE] + inner;
    NoSpace(t);
    assert t[1..] == inner;
    SkipMembers(l, finite, inner, n + 1, depth, map[]);
    hide Members, SkipSpace;
  }

  lemma {:induction false} MembersStart(v: Json, ks: seq<Text>, t: Text, tail: Text)
    requires v.Obj? && MembersWritten(v, ks, t)
    ensures SkipSpace(t + tail) != [] && SkipSpace(t + tail)[0] == QUOTE
  {
    MembersNotEmpty(v, ks, t);
    if |ks| == 1 {
      hide MemberWritten;
      MemberStarts(v, ks[0], t, tail);
    } else {
      hide MemberWritten, MembersWritten, SkipSpace;
      var a, b := MembersPart(v, ks, t);
      MemberStarts(v, ks[0], a, [COMMA] + b + tail);
      assert t + tail == a + ([COMMA] + b + tail);
    }
  }

  lemma MemberStarts(v: Json, key: Text, t: Text, tail: Text)
    requires v.Obj? && MemberWritten(v, key, t)
    ensures SkipSpace(t + tail) != [] && SkipSpace(t + tail)[0] == QUOTE
  {
    var a, quoted, b, padded := MemberSplit(v, key, t);
    assert quoted[0] == QUOTE;
    hide MemberWritten, Padded, Quoted, SkipSpace;
    var u := quoted + (b + ([COLON] + padded) + tail);
    assert u[0] == QUOTE;
    SkipTo(a, u);
    assert t + tail == a + u;
  }

  lemma {:induction false} MemberReads(l: Limits, finite: Text -> bool, v: Json, key: Text, t: Text, after: Unit, rest: Text, n: nat, depth: nat, keys: set<Text>)
    returns (left: Text)
    requires v.Obj? && key in v.entries && MemberWritten(v, key, t) && Fits(l, finite, v.entries[key], depth + 1) && StringFits(l, key) && !Reserved(key)
    requires Delimiter(after) && key !in keys && |keys| < l.entries && n + Count(v.entries[key]) <= l.nodes
    ensures Member(l, finite, t + ([after] + rest), n, depth, keys) == Some((key, Parsed(v.entries[key], left, n + Count(v.entries[key]))))
    ensures SkipSpace(left) == [after] + rest
    decreases v, 0, 0
  {
    hide Value, Member, Writes, Fits, Count, MemberWritten, Padded, Quoted, SkipSpace, AllSpace, StringFits, Reserved;
    var a, quoted, b, padded := MemberSplit(v, key, t);
    var w, tail := v.entries[key], [after] + rest;
    left := PaddedReads(l, finite, w, padded, after, rest, n, depth + 1);
    ColonReads(l, finite, key, a, quoted, b, padded + tail, n, depth, keys, Parsed(w, left, n + Count(w)));
    MemberTail(a, quoted, b, padded, tail);
  }

  lemma MemberTail(a: Text, quoted: Text, b: Text, padded: Text, tail: Text)
    ensures (a + quoted + b + ([COLON] + padded)) + tail == a + (quoted + (b + ([COLON] + (padded + tail))))
  {
  }

  /** White space, a quoted key, white space, a colon: the member is what its value is. */
  lemma ColonReads(l: Limits, finite: Text -> bool, key: Text, a: Text, quoted: Text, b: Text, text: Text, n: nat, depth: nat, keys: set<Text>, p: Parsed)
    requires AllSpace(a) && Quoted(key, quoted) && AllSpace(b) && StringFits(l, key) && !Reserved(key) && key !in keys && |keys| < l.entries
    requires Value(l, finite, text, n, depth + 1) == Some(p)
    ensures Member(l, finite, a + (quoted + (b + ([COLON] + text))), n, depth, keys) == Some((key, p))
  {
    var colon := [COLON] + text;
    assert quoted[0] == QUOTE;
    QuotedReads(l, key, quoted, b + colon);
    assert (quoted + (b + colon))[0] == QUOTE;
    SkipTo(a, quoted + (b + colon));
    SkipTo(b, colon);
    assert colon[1..] == text;
    hide Value, SkipSpace, StringAt, Reserved, StringFits, Quoted, AllSpace;
  }

  lemma MemberGoesOn(l: Limits, finite: Text -> bool, text: Text, n: nat, depth: nat, done: map<Text, Json>, key: Text, v: Json, left: Text, after: Unit, rest: Text, m: nat)
    requires after == COMMA || after == CLOSE_BRACE
    requires Member(l, finite, text, n, depth, done.Keys) == Some((key, Parsed(v, left, m))) && SkipSpace(left) == [after] + rest
    ensures Members(l, finite, text, n, depth, done)
      == if after == CLOSE_BRACE then Some(Parsed(Obj(done[key := v]), rest, m)) else Members(l, finite, rest, m, depth, done[key := v])
  {
    assert ([after] + rest)[1..] == rest;
    hide Member, SkipSpace;
  }

  /** What the member loop needs to know about its first key. */
  lemma FirstOfKeys(v: Json, ks: seq<Text>)
    requires v.Obj? && ks != [] && NoRepeats(ks) && KeySet(ks) <= v.entries.Keys
    ensures ks[0] in v.entries && ks[0] !in Taken(v.entries, ks) && |Taken(v.entries, ks).Keys| < |v.entries|
    ensures NoRepeats(ks[1..]) && KeySet(ks[1..]) <= v.entries.Keys
    ensures Taken(v.entries, ks)[ks[0] := v.entries[ks[0]]] == Taken(v.entries, ks[1..])
    ensures CountMembers(v, KeySet(ks)) == Count(v.entries[ks[0]]) + CountMembers(v, KeySet(ks[1..]))
    ensures |ks| == 1 ==> v == Obj(Taken(v.entries, ks[1..])) && CountMembers(v, KeySet(ks[1..])) == 0
  {
    TailOfKeys(ks);
    hide Count, CountMembers, KeySet, Taken;
    TakeNext(v.entries, ks);
    CountFirst(v, ks);
  }

  lemma TailOfKeys(ks: seq<Text>)
    requires ks != [] && NoRepeats(ks)
    ensures ks[0] !in ks[1..] && NoRepeats(ks[1..]) && KeySet(ks[1..]) == KeySet(ks) - {ks[0]}
  {
    assert ks == [ks[0]] + ks[1..];
    forall k | k in ks[1..] ensures k != ks[0] {
      var i :| 0 <= i < |ks[1..]| && ks[1..][i] == k;
      assert ks[i + 1] == k;
    }
  }

  lemma OnlyMember(v: Json, ks: seq<Text>, t: Text)
    requires v.Obj? && MembersWritten(v, ks, t) && |ks| == 1
    ensures MemberWritten(v, ks[0], t)
  {
    hide MemberWritten;
  }

  lemma {:induction false} MembersRead(l: Limits, finite: Text -> bool, v: Json, ks: seq<Text>, t: Text, rest: Text, n: nat, depth: nat)
    requires v.Obj? && MembersWritten(v, ks, t) && NoRepeats(ks) && KeySet(ks) <= v.entries.Keys && Fits(l, finite, v, depth)
    requires n + CountMembers(v, KeySet(ks)) <= l.nodes
    ensures Members(l, finite, t + ([CLOSE_BRACE] + rest), n, depth, Taken(v.entries, ks)) == Some(Parsed(v, rest, n + CountMembers(v, KeySet(ks))))
    decreases v, 0, |ks|
  {
    hide Value, Member, Members, Writes, Fits, Count, CountMembers, MemberWritten, MembersWritten, SkipSpace, Taken, KeySet, NoRepeats, StringFits, Reserved, Delimiter;
    MembersNotEmpty(v, ks, t);
    FirstOfKeys(v, ks);
    Delimiters();
    var key, done, tail := ks[0], Taken(v.entries, ks), [CLOSE_BRACE] + rest;
    var w := v.entries[key];
    FittingMember(l, finite, v, key, depth);
    if |ks| == 1 {
      OnlyMember(v, ks, t);
      var left := MemberReads(l, finite, v, key, t, CLOSE_BRACE, rest, n, depth, done.Keys);
      MemberGoesOn(l, finite, t + tail, n, depth, done, key, w, left, CLOSE_BRACE, rest, n + Count(w));
    } else {
      var a, b := MembersPart(v, ks, t);
      var left := MemberReads(l, finite, v, key, a, COMMA, b + tail, n, depth, done.Keys);
      MemberGoesOn(l, finite, a + ([COMMA] + (b + tail)), n, depth, done, key, w, left, COMMA, b + tail, n + Count(w));
      MembersRead(l, finite, v, ks[1..], b, rest, n + Count(w), depth);
      Commas(a, b, rest, CLOSE_BRACE);
    }
  }

  lemma FittingMember(l: Limits, finite: Text -> bool, v: Json, key: Text, depth: nat)
    requires v.Obj? && key in v.entries && Fits(l, finite, v, depth)
    ensures Fits(l, finite, v.entries[key], depth + 1) && StringFits(l, key) && !Reserved(key) && |v.entries| <= l.entries && depth <= l.depth
  {
    hide StringFits, Reserved;
  }

  lemma ObjectFits(l: Limits, finite: Text -> bool, v: Json, depth: nat)
    requires v.Obj? && Fits(l, finite, v, depth)
    ensures depth <= l.depth
  {
  }

  lemma ObjectCount(v: Json)
    requires v.Obj?
    ensures Count(v) == 1 + CountMembers(v, v.entries.Keys) && (v.entries.Keys == {} ==> Count(v) == 1 && v == Obj(map[]))
  {
  }

  lemma {:induction false} ObjectReads(l: Limits, finite: Text -> bool, v: Json, core: Text, rest: Text, n: nat, depth: nat)
    requires v.Obj? && Writes(v, core) && Fits(l, finite, v, depth) && n + Count(v) <= l.nodes
    ensures Value(l, finite, core + rest, n, depth) == Some(Parsed(v, rest, n + Count(v)))
    decreases v, 1, 0
  {
    hide Value, Members, Writes, Fits, Count, CountMembers, SkipSpace, MembersWritten, AllSpace, KeySet, Taken, NoRepeats;
    ObjectFits(l, finite, v, depth);
    ObjectCount(v);
    var inner, ks := ObjectSplit(v, core);
    var tail := [CLOSE_BRACE] + rest;
    Enclosed(OPEN_BRACE, inner, CLOSE_BRACE, rest);
    ObjectBegins(l, finite, inner + tail, n, depth);
    if v.entries.Keys == {} {
      SkipTo(inner, tail);
      assert tail[1..] == rest;
    } else {
      MembersStart(v, ks, inner, tail);
      NothingTaken(v.entries, ks);
      MembersRead(l, finite, v, ks, inner, rest, n + 1, depth);
    }
  }

  // ---------------------------------------------------------------- the theorem

  lemma {:induction false} SpacesOnly(t: Text)
    ensures AllSpace(t) <==> SkipSpace(t) == []
  {
    if t != [] {
      SpacesOnly(t[1..]);
      assert t == [t[0]] + t[1..];
    }
  }

  lemma PaddedHasText(v: Json, t: Text)
    requires Padded(v, t)
    ensures t != [] && t[0] != BYTE_ORDER_MARK
  {
    var ws, core, gap := Unpads(v, t);
    CoreStarts(v, core);
    assert ws != [] ==> IsSpace(ws[0]);
    hide Padded, Writes, AllSpace;
    assert t[0] == if ws == [] then core[0] else ws[0];
  }

  /** After the value, only white space may be left. */
  lemma ParseParts(l: Limits, finite: Text -> bool, text: Text, v: Json, p: Parsed)
    requires text != [] && text[0] != BYTE_ORDER_MARK && Value(l, finite, text, 0, 0) == Some(p)
    ensures Parse(l, finite, text) == Some(v) <==> SkipSpace(p.rest) == [] && p.value == v
  {
    hide Value, SkipSpace;
  }

  lemma ReadsWhole(l: Limits, finite: Text -> bool, text: Text, v: Json)
    requires Padded(v, text) && Fits(l, finite, v, 0) && Count(v) <= l.nodes
    ensures Parse(l, finite, text) == Some(v)
  {
    hide Value, Writes, Fits, Count, Padded, AllSpace, SkipSpace, Ended, Parse;
    PaddedHasText(v, text);
    var ws, core, gap := Unpads(v, text);
    CoreStarts(v, core);
    SpacesOnly(gap);
    GapEnds(gap);
    WrittenReads(l, finite, v, core, gap, 0, 0);
    assert (core + gap)[0] == core[0];
    AfterSpace(l, finite, ws, core + gap, 0, 0);
    Regroup(ws, core, gap);
    ParseParts(l, finite, text, v, Parsed(v, gap, Count(v)));
  }

  lemma GapEnds(gap: Text)
    requires AllSpace(gap)
    ensures Ended(gap)
  {
    assert gap != [] ==> IsSpace(gap[0]);
  }

  lemma WholeIsWritten(l: Limits, finite: Text -> bool, text: Text, v: Json)
    requires Parse(l, finite, text) == Some(v)
    ensures Padded(v, text) && Fits(l, finite, v, 0) && Count(v) <= l.nodes
  {
    hide Value, Writes, Fits, Count, Padded, AllSpace, SkipSpace;
    var p := Value(l, finite, text, 0, 0).value;
    var ws, core := ValueIsWritten(l, finite, text, 0, 0);
    ParsedFits(l, finite, text, 0, 0);
    SpacesOnly(p.rest);
    Pads(v, ws, core, p.rest);
  }

  /**
   * The strict parser returns a value exactly when the text is an RFC 8259 text of that value, which keeps the limits on
   * depth, nodes, strings, containers, keys and numbers.
   */
  lemma ParseIff(l: Limits, finite: Text -> bool, text: Text, v: Json)
    ensures Parse(l, finite, text) == Some(v) <==> Padded(v, text) && Fits(l, finite, v, 0) && Count(v) <= l.nodes
  {
    hide Parse, Fits, Count, Padded;
    if Parse(l, finite, text) == Some(v) { WholeIsWritten(l, finite, text, v); }
    if Padded(v, text) && Fits(l, finite, v, 0) && Count(v) <= l.nodes { ReadsWhole(l, finite, text, v); }
  }

  /** So the parser refuses a text exactly when it is the text of no value within the limits. */
  lemma RefusedIff(l: Limits, finite: Text -> bool, text: Text)
    ensures Parse(l, finite, text) == None <==> forall v :: Padded(v, text) ==> !(Fits(l, finite, v, 0) && Count(v) <= l.nodes)
  {
    hide Parse, Fits, Count, Padded;
    if Parse(l, finite, text).Some? { ParseIff(l, finite, text, Parse(l, finite, text).value); }
    forall v | Padded(v, text) && Fits(l, finite, v, 0) && Count(v) <= l.nodes ensures Parse(l, finite, text) == Some(v) { ParseIff(l, finite, text, v); }
  }

  /** A text within the limits denotes at most one value. */
  lemma TextDenotesOne(l: Limits, finite: Text -> bool, text: Text, v: Json, w: Json)
    requires Padded(v, text) && Fits(l, finite, v, 0) && Count(v) <= l.nodes
    requires Padded(w, text) && Fits(l, finite, w, 0) && Count(w) <= l.nodes
    ensures v == w
  {
    hide Parse, Fits, Count, Padded;
    ParseIff(l, finite, text, v);
    ParseIff(l, finite, text, w);
  }
}
