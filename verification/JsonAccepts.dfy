/** Whatever the strict parser accepts is an RFC 8259 text of the value it returns. */
module JsonAccepts {
  import opened Basics
  import opened JsonText
  import opened JsonValue
  import opened StrictJson
  import opened JsonRoundTrip
  import opened JsonGrammar

  // ---------------------------------------------------------------- white space

  lemma {:induction false} SkipIs(t: Text) returns (m: nat)
    ensures m <= |t| && SkipSpace(t) == t[m..] && AllSpace(t[..m])
  {
    if t != [] && IsSpace(t[0]) {
      var k := SkipIs(t[1..]);
      m := k + 1;
      assert t[1..][k..] == t[m..];
      assert t[..m] == [t[0]] + t[1..][..k];
    } else {
      m := 0;
      assert t[..0] == [] && t[0..] == t;
    }
  }

  lemma {:induction false} SkipTo(ws: Text, t: Text)
    requires AllSpace(ws) && (t == [] || !IsSpace(t[0]))
    ensures SkipSpace(ws + t) == t
    decreases |ws|
  {
    if ws == [] {
      assert ws + t == t;
    } else {
      assert (ws + t)[1..] == ws[1..] + t;
      SkipTo(ws[1..], t);
    }
  }

  /** Reading a value, or the first of a list, starts at the first character that is not white space. */
  lemma SkipFirst(l: Limits, finite: Text -> bool, t: Text, n: nat, depth: nat, items: seq<Json>)
    ensures Value(l, finite, SkipSpace(t), n, depth) == Value(l, finite, t, n, depth)
    ensures Items(l, finite, SkipSpace(t), n, depth, items) == Items(l, finite, t, n, depth, items)
  {
    SkipTwice(t);
    SkipValue(l, finite, t, n, depth);
    SkipValue(l, finite, t, n, depth + 1);
    hide Value, SkipSpace;
  }

  lemma SkipTwice(t: Text)
    ensures SkipSpace(SkipSpace(t)) == SkipSpace(t)
  {
  }

  lemma SkipValue(l: Limits, finite: Text -> bool, t: Text, n: nat, depth: nat)
    ensures Value(l, finite, SkipSpace(t), n, depth) == Value(l, finite, t, n, depth)
  {
    SkipTwice(t);
    hide Members, Items, Scalar, StringAt, SkipSpace;
  }

  lemma SkipMembers(l: Limits, finite: Text -> bool, t: Text, n: nat, depth: nat, entries: map<Text, Json>)
    ensures Members(l, finite, SkipSpace(t), n, depth, entries) == Members(l, finite, t, n, depth, entries)
  {
    SkipTwice(t);
    SkipMember(l, finite, t, n, depth, entries.Keys);
    hide Member, SkipSpace;
  }

  lemma SkipMember(l: Limits, finite: Text -> bool, t: Text, n: nat, depth: nat, keys: set<Text>)
    ensures Member(l, finite, SkipSpace(t), n, depth, keys) == Member(l, finite, t, n, depth, keys)
  {
    SkipTwice(t);
    hide Value, SkipSpace, StringAt;
  }

  // ---------------------------------------------------------------- putting texts together

  lemma Pads(v: Json, ws: Text, core: Text, after: Text)
    requires AllSpace(ws) && Writes(v, core) && AllSpace(after)
    ensures Padded(v, ws + core + after)
  {
    hide Writes;
    var t, i, j := ws + core + after, |ws|, |ws| + |core|;
    assert t[..i] == ws && t[i..j] == core && t[j..] == after;
    assert PaddedAt(v, t, i, j);
  }

  lemma Unpads(v: Json, t: Text) returns (ws: Text, core: Text, after: Text)
    requires Padded(v, t)
    ensures t == ws + core + after && AllSpace(ws) && Writes(v, core) && AllSpace(after)
  {
    var i: nat, j: nat :| PaddedAt(v, t, i, j);
    hide Writes;
    ws, core, after := t[..i], t[i..j], t[j..];
  }

  lemma PadsMore(v: Json, ws: Text, t: Text)
    requires AllSpace(ws) && Padded(v, t)
    ensures Padded(v, ws + t)
  {
    hide Padded, Writes;
    var a, core, after := Unpads(v, t);
    assert ws + t == (ws + a) + core + after;
    Pads(v, ws + a, core, after);
  }

  lemma ItemsJoin(v: Json, others: seq<Json>, a: Text, b: Text)
    requires Padded(v, a) && ItemsWritten(others, b)
    ensures ItemsWritten([v] + others, a + [COMMA] + b)
  {
    hide Padded;
    var items, t, k := [v] + others, a + [COMMA] + b, |a|;
    assert items[1..] == others && items[0] == v && |items| > 1;
    assert t[k] == COMMA && t[..k] == a && t[k + 1..] == b;
  }

  lemma ItemsPart(items: seq<Json>, t: Text) returns (a: Text, b: Text)
    requires ItemsWritten(items, t) && |items| > 1
    ensures t == a + [COMMA] + b && Padded(items[0], a) && ItemsWritten(items[1..], b)
  {
    hide Padded;
    var k: nat :| k < |t| && t[k] == COMMA && Padded(items[0], t[..k]) && ItemsWritten(items[1..], t[k + 1..]);
    a, b := t[..k], t[k + 1..];
  }

  lemma ItemsPadMore(items: seq<Json>, ws: Text, t: Text)
    requires AllSpace(ws) && ItemsWritten(items, t)
    ensures ItemsWritten(items, ws + t)
  {
    if |items| == 1 {
      hide Padded;
      PadsMore(items[0], ws, t);
    } else {
      hide Padded, ItemsWritten;
      var a, b := ItemsPart(items, t);
      PadsMore(items[0], ws, a);
      ItemsJoin(items[0], items[1..], ws + a, b);
      assert [items[0]] + items[1..] == items && ws + t == (ws + a) + [COMMA] + b;
    }
  }

  // ---------------------------------------------------------------- what is read is written

  lemma ScalarIsWritten(finite: Text -> bool, t: Text, n: nat) returns (k: nat)
    requires Scalar(finite, t, n).Some?
    ensures k <= |t| && Writes(Scalar(finite, t, n).value.value, t[..k]) && Scalar(finite, t, n).value.rest == t[k..]
  {
    if Starts(t, TRUE_TEXT) {
      k := 4;
    } else if Starts(t, FALSE_TEXT) {
      k := 5;
    } else if Starts(t, NULL_TEXT) {
      k := 4;
    } else {
      ReadIsNumber(t);
      k := NumberAt(t).value.1;
    }
    hide NumberAt, NumberWritten;
  }

  lemma StringIsWritten(l: Limits, finite: Text -> bool, t: Text, n: nat, depth: nat) returns (core: Text)
    requires t != [] && t[0] == QUOTE && Value(l, finite, t, n, depth).Some?
    ensures var p := Value(l, finite, t, n, depth).value; t == core + p.rest && Writes(p.value, core)
  {
    assert SkipSpace(t) == t;
    var k := ReadIsQuoted(l, t);
    core := t[..k];
    hide StringAt, Quoted, SkipSpace;
    assert t == core + t[k..];
  }

  lemma PlainIsWritten(l: Limits, finite: Text -> bool, t: Text, n: nat, depth: nat) returns (core: Text)
    requires t != [] && !IsSpace(t[0]) && t[0] != QUOTE && t[0] != OPEN_BRACE && t[0] != OPEN_BRACKET && Value(l, finite, t, n, depth).Some?
    ensures var p := Value(l, finite, t, n, depth).value; t == core + p.rest && Writes(p.value, core)
  {
    assert SkipSpace(t) == t && Value(l, finite, t, n, depth) == Scalar(finite, t, n + 1);
    hide Value;
    var k := ScalarIsWritten(finite, t, n + 1);
    core := t[..k];
    hide Scalar, Writes;
    assert t == core + t[k..];
  }

  lemma EmptyIsRefused(l: Limits, finite: Text -> bool, text: Text, n: nat, depth: nat)
    requires SkipSpace(text) == []
    ensures Value(l, finite, text, n, depth) == None
  {
  }

  lemma {:induction false} ValueIsWritten(l: Limits, finite: Text -> bool, text: Text, n: nat, depth: nat) returns (ws: Text, core: Text)
    requires Value(l, finite, text, n, depth).Some?
    ensures var p := Value(l, finite, text, n, depth).value;
      text == ws + core + p.rest && AllSpace(ws) && Writes(p.value, core)
    decreases |text|, 2
  {
    hide Value, Writes, SkipSpace, AllSpace;
    var i := SkipIs(text);
    var t, rest := SkipSpace(text), Value(l, finite, text, n, depth).value.rest;
    ws := text[..i];
    assert text == ws + t;
    SkipValue(l, finite, text, n, depth);
    if t == [] { EmptyIsRefused(l, finite, text, n, depth); }
    if t[0] == QUOTE {
      core := StringIsWritten(l, finite, t, n, depth);
    } else if t[0] == OPEN_BRACKET {
      core := ArrayIsWritten(l, finite, t, n, depth);
    } else if t[0] == OPEN_BRACE {
      core := ObjectIsWritten(l, finite, t, n, depth);
    } else {
      core := PlainIsWritten(l, finite, t, n, depth);
    }
    Regroup(ws, core, rest);
  }

  lemma ArrayWrites(items: seq<Json>, inner: Text)
    requires if items == [] then AllSpace(inner) else ItemsWritten(items, inner)
    ensures Writes(Arr(items), [OPEN_BRACKET] + inner + [CLOSE_BRACKET])
  {
    var t := [OPEN_BRACKET] + inner + [CLOSE_BRACKET];
    assert Inner(t) == inner;
    hide ItemsWritten;
  }

  lemma ArrayParts(l: Limits, finite: Text -> bool, t: Text, n: nat, depth: nat)
    requires t != [] && t[0] == OPEN_BRACKET && Value(l, finite, t, n, depth).Some?
    ensures var u := SkipSpace(t[1..]);
      Value(l, finite, t, n, depth) == if u != [] && u[0] == CLOSE_BRACKET then Some(Parsed(Arr([]), u[1..], n + 1)) else Items(l, finite, u, n + 1, depth, [])
  {
    assert SkipSpace(t) == t;
    hide Items;
  }

  lemma Opened(opening: Unit, t: Text, gap: Text, u: Text)
    requires t != [] && t[0] == opening && t[1..] == gap + u
    ensures t == [opening] + (gap + u)
  {
  }

  lemma Closed(opening: Unit, gap: Text, inner: Text, closing: Unit, rest: Text)
    ensures [opening] + (gap + (inner + ([closing] + rest))) == ([opening] + (gap + inner) + [closing]) + rest
  {
  }

  lemma {:induction false} ArrayIsWritten(l: Limits, finite: Text -> bool, t: Text, n: nat, depth: nat) returns (core: Text)
    requires t != [] && t[0] == OPEN_BRACKET && Value(l, finite, t, n, depth).Some?
    ensures var p := Value(l, finite, t, n, depth).value; t == core + p.rest && Writes(p.value, core)
    decreases |t|, 1
  {
    ArrayParts(l, finite, t, n, depth);
    var m := SkipIs(t[1..]);
    var u, gap := SkipSpace(t[1..]), t[1..][..m];
    var rest := Value(l, finite, t, n, depth).value.rest;
    hide Value, Items, Writes, ItemsWritten, SkipSpace, AllSpace;
    Opened(OPEN_BRACKET, t, gap, u);
    if u != [] && u[0] == CLOSE_BRACKET {
      ArrayIsEmpty(gap);
      core := [OPEN_BRACKET] + (gap + []) + [CLOSE_BRACKET];
      assert u == [] + ([CLOSE_BRACKET] + rest);
      Closed(OPEN_BRACKET, gap, [], CLOSE_BRACKET, rest);
    } else {
      var items, inner := ItemsAreWritten(l, finite, u, n + 1, depth, []);
      assert [] + items == items;
      ItemsPadMore(items, gap, inner);
      ArrayWrites(items, gap + inner);
      core := [OPEN_BRACKET] + (gap + inner) + [CLOSE_BRACKET];
      Closed(OPEN_BRACKET, gap, inner, CLOSE_BRACKET, rest);
    }
  }

  lemma ArrayIsEmpty(gap: Text)
    requires AllSpace(gap)
    ensures Writes(Arr([]), [OPEN_BRACKET] + (gap + []) + [CLOSE_BRACKET])
  {
    assert gap + [] == gap;
    ArrayWrites([], gap);
    hide Writes;
  }

  lemma ItemsParts(l: Limits, finite: Text -> bool, text: Text, n: nat, depth: nat, done: seq<Json>)
    requires Items(l, finite, text, n, depth, done).Some?
    ensures Value(l, finite, text, n, depth + 1).Some?
    ensures var p := Value(l, finite, text, n, depth + 1).value;
      var u, whole := SkipSpace(p.rest), Items(l, finite, text, n, depth, done);
      u != [] && (if u[0] == CLOSE_BRACKET then whole == Some(Parsed(Arr(done + [p.value]), u[1..], p.nodes))
                  else u[0] == COMMA && whole == Items(l, finite, u[1..], p.nodes, depth, done + [p.value]))
  {
    hide Value, SkipSpace;
  }

  lemma {:induction false} ItemsAreWritten(l: Limits, finite: Text -> bool, text: Text, n: nat, depth: nat, done: seq<Json>)
    returns (items: seq<Json>, inner: Text)
    requires Items(l, finite, text, n, depth, done).Some?
    ensures var p := Items(l, finite, text, n, depth, done).value;
      items != [] && p.value == Arr(done + items) && text == inner + ([CLOSE_BRACKET] + p.rest) && ItemsWritten(items, inner)
    decreases |text|, 3
  {
    hide Value, Items, Writes, SkipSpace, Padded, ItemsWritten, AllSpace;
    ItemsParts(l, finite, text, n, depth, done);
    var p, whole := Value(l, finite, text, n, depth + 1).value, Items(l, finite, text, n, depth, done);
    var ws, core := ValueIsWritten(l, finite, text, n, depth + 1);
    var m := SkipIs(p.rest);
    var u, gap := SkipSpace(p.rest), p.rest[..m];
    Pads(p.value, ws, core, gap);
    var padded := ws + core + gap;
    assert p.rest == gap + u && u == [u[0]] + u[1..];
    Regroup(ws + core, gap, u);
    if u[0] == CLOSE_BRACKET {
      items, inner := [p.value], padded;
      OneItem(p.value, padded);
    } else {
      var others, tail := ItemsAreWritten(l, finite, u[1..], p.nodes, depth, done + [p.value]);
      items, inner := [p.value] + others, padded + [COMMA] + tail;
      ItemsJoin(p.value, others, padded, tail);
      assert done + [p.value] + others == done + items;
      Commas(padded, tail, whole.value.rest, CLOSE_BRACKET);
    }
  }

  lemma OneItem(v: Json, t: Text)
    requires Padded(v, t)
    ensures ItemsWritten([v], t)
  {
    hide Padded;
  }

  lemma Commas(a: Text, b: Text, rest: Text, closing: Unit)
    ensures a + ([COMMA] + (b + ([closing] + rest))) == (a + [COMMA] + b) + ([closing] + rest)
  {
  }

  // members

  lemma MemberWrites(v: Json, key: Text, a: Text, quoted: Text, b: Text, padded: Text)
    requires v.Obj? && key in v.entries && AllSpace(a) && Quoted(key, quoted) && AllSpace(b) && Padded(v.entries[key], padded)
    ensures MemberWritten(v, key, a + quoted + b + ([COLON] + padded))
  {
    hide Padded, Quoted;
    var t := a + quoted + b + ([COLON] + padded);
    var i, j, k := |a|, |a| + |quoted|, |a| + |quoted| + |b|;
    assert t[..i] == a && t[i..j] == quoted && t[j..k] == b && t[k] == COLON && t[k + 1..] == padded;
    assert MemberAt(v, key, t, i, j, k);
  }

  lemma MembersJoin(v: Json, key: Text, others: seq<Text>, a: Text, b: Text)
    requires v.Obj? && MemberWritten(v, key, a) && MembersWritten(v, others, b)
    ensures MembersWritten(v, [key] + others, a + [COMMA] + b)
  {
    hide MemberWritten;
    var ks, t, k := [key] + others, a + [COMMA] + b, |a|;
    assert ks[1..] == others && ks[0] == key && |ks| > 1;
    assert t[k] == COMMA && t[..k] == a && t[k + 1..] == b;
  }

  lemma OneMemberWritten(v: Json, key: Text, t: Text)
    requires v.Obj? && MemberWritten(v, key, t)
    ensures MembersWritten(v, [key], t)
  {
    hide MemberWritten;
  }

  lemma {:induction false} MemberIsWritten(l: Limits, finite: Text -> bool, text: Text, n: nat, depth: nat, keys: set<Text>)
    returns (a: Text, quoted: Text, b: Text, ws: Text, core: Text)
    requires Member(l, finite, text, n, depth, keys).Some?
    ensures var m := Member(l, finite, text, n, depth, keys).value;
      && text == a + quoted + b + ([COLON] + (ws + core + m.1.rest))
      && AllSpace(a) && Quoted(m.0, quoted) && AllSpace(b) && AllSpace(ws) && Writes(m.1.value, core)
    decreases |text|, 0
  {
    hide Value, Member, Writes, StringAt, SkipSpace, Quoted, StringFits, AllSpace;
    MemberParts(l, finite, text, n, depth, keys);
    var t := SkipSpace(text);
    var key := StringAt(l, t).value;
    var u := SkipSpace(key.1);
    var i := SkipIs(text);
    var k := ReadIsQuoted(l, t);
    var j := SkipIs(key.1);
    ws, core := ValueIsWritten(l, finite, u[1..], n, depth + 1);
    a, quoted, b := text[..i], t[..k], key.1[..j];
    assert text == a + t && t == quoted + key.1 && key.1 == b + u && u == [COLON] + u[1..];
    Regroup(a, quoted, b + u);
    Regroup(a + quoted, b, u);
  }

  lemma MemberParts(l: Limits, finite: Text -> bool, text: Text, n: nat, depth: nat, keys: set<Text>)
    requires Member(l, finite, text, n, depth, keys).Some?
    ensures StringAt(l, SkipSpace(text)).Some?
    ensures var m, key := Member(l, finite, text, n, depth, keys).value, StringAt(l, SkipSpace(text)).value;
      var u := SkipSpace(key.1);
      && key.0 == m.0 && u != [] && u[0] == COLON && Value(l, finite, u[1..], n, depth + 1) == Some(m.1)
      && |u| <= |key.1| < |SkipSpace(text)| <= |text|
  {
    hide Value, SkipSpace, StringAt;
  }

  /** The final entries are those read before plus one for each of these keys. */
  predicate Grows(entries: map<Text, Json>, ks: seq<Text>, all: map<Text, Json>) {
    && NoRepeats(ks) && KeySet(ks) !! entries.Keys && all.Keys == entries.Keys + KeySet(ks)
    && forall k :: k in entries ==> all[k] == entries[k]
  }

  lemma GrowsFirst(entries: map<Text, Json>, key: Text, v: Json, others: seq<Text>, all: map<Text, Json>)
    requires key !in entries && Grows(entries[key := v], others, all)
    ensures Grows(entries, [key] + others, all) && key in all && all[key] == v
  {
    var grown := entries[key := v];
    assert key in grown && key !in KeySet(others);
    assert key !in others;
    assert KeySet([key] + others) == {key} + KeySet(others);
    assert NoRepeats([key] + others);
  }

  lemma GrowsOnce(entries: map<Text, Json>, key: Text, v: Json)
    requires key !in entries
    ensures Grows(entries, [key], entries[key := v])
  {
    assert KeySet([key]) == {key};
  }

  lemma {:induction false} MembersAreWritten(l: Limits, finite: Text -> bool, text: Text, n: nat, depth: nat, entries: map<Text, Json>)
    returns (ks: seq<Text>, inner: Text)
    requires Members(l, finite, text, n, depth, entries).Some?
    ensures var p := Members(l, finite, text, n, depth, entries).value;
      && p.value.Obj? && ks != [] && Grows(entries, ks, p.value.entries)
      && text == inner + ([CLOSE_BRACE] + p.rest) && MembersWritten(p.value, ks, inner)
    decreases |text|, 1
  {
    hide Value, Member, Members, Writes, SkipSpace, Padded, Quoted, MemberWritten, MembersWritten, AllSpace, Grows;
    MembersParts(l, finite, text, n, depth, entries);
    var whole := Members(l, finite, text, n, depth, entries);
    var m := Member(l, finite, text, n, depth, entries.Keys).value;
    var key, grown, u := m.0, entries[m.0 := m.1.value], SkipSpace(m.1.rest);
    var a, quoted, b, ws, core := MemberIsWritten(l, finite, text, n, depth, entries.Keys);
    var i := SkipIs(m.1.rest);
    var gap := m.1.rest[..i];
    var padded := ws + core + gap;
    var front := a + quoted + b + ([COLON] + padded);
    Pads(m.1.value, ws, core, gap);
    assert m.1.rest == gap + u && u == [u[0]] + u[1..];
    MemberText(a + quoted + b, ws + core, gap, u, m.1.rest);
    if u[0] == CLOSE_BRACE {
      ks, inner := [key], front;
      GrowsOnce(entries, key, m.1.value);
      MemberWrites(whole.value.value, key, a, quoted, b, padded);
      OneMemberWritten(whole.value.value, key, front);
    } else {
      var others, tail := MembersAreWritten(l, finite, u[1..], m.1.nodes, depth, grown);
      ks, inner := [key] + others, front + [COMMA] + tail;
      GrowsFirst(entries, key, m.1.value, others, whole.value.value.entries);
      MemberWrites(whole.value.value, key, a, quoted, b, padded);
      MembersJoin(whole.value.value, key, others, front, tail);
      Commas(front, tail, whole.value.rest, CLOSE_BRACE);
    }
  }

  lemma MemberOfKeySet(ks: seq<Text>, key: Text)
    ensures key in KeySet(ks) <==> key in ks
  {
  }

  lemma MembersParts(l: Limits, finite: Text -> bool, text: Text, n: nat, depth: nat, entries: map<Text, Json>)
    requires Members(l, finite, text, n, depth, entries).Some?
    ensures Member(l, finite, text, n, depth, entries.Keys).Some?
    ensures var m, whole := Member(l, finite, text, n, depth, entries.Keys).value, Members(l, finite, text, n, depth, entries);
      var u, grown := SkipSpace(m.1.rest), entries[m.0 := m.1.value];
      && m.0 !in entries && u != [] && |u| <= |m.1.rest| < |text|
      && if u[0] == CLOSE_BRACE then whole == Some(Parsed(Obj(grown), u[1..], m.1.nodes))
         else u[0] == COMMA && whole == Members(l, finite, u[1..], m.1.nodes, depth, grown)
  {
    hide Member, SkipSpace;
  }

  lemma MemberText(front: Text, value: Text, gap: Text, u: Text, rest: Text)
    requires rest == gap + u
    ensures front + ([COLON] + (value + rest)) == front + ([COLON] + (value + gap)) + u
  {
  }

  lemma MemberPadMore(v: Json, key: Text, ws: Text, t: Text)
    requires v.Obj? && AllSpace(ws) && MemberWritten(v, key, t)
    ensures MemberWritten(v, key, ws + t)
  {
    var a, quoted, b, padded := MemberSplit(v, key, t);
    hide Padded, Quoted, MemberWritten, AllSpace;
    SpacesJoin(ws, a);
    MemberWrites(v, key, ws + a, quoted, b, padded);
    Regroup(ws, a + quoted + b, [COLON] + padded);
    assert ws + (a + quoted + b) == (ws + a) + quoted + b;
  }

  lemma SpacesJoin(a: Text, b: Text)
    requires AllSpace(a) && AllSpace(b)
    ensures AllSpace(a + b)
  {
  }

  lemma MemberSplit(v: Json, key: Text, t: Text) returns (a: Text, quoted: Text, b: Text, padded: Text)
    requires v.Obj? && MemberWritten(v, key, t)
    ensures key in v.entries && t == a + quoted + b + ([COLON] + padded)
    ensures AllSpace(a) && Quoted(key, quoted) && AllSpace(b) && Padded(v.entries[key], padded)
  {
    hide Padded, Quoted;
    var i: nat, j: nat, k: nat :| MemberAt(v, key, t, i, j, k);
    a, quoted, b, padded := t[..i], t[i..j], t[j..k], t[k + 1..];
  }

  lemma MembersPart(v: Json, ks: seq<Text>, t: Text) returns (a: Text, b: Text)
    requires v.Obj? && MembersWritten(v, ks, t) && |ks| > 1
    ensures t == a + [COMMA] + b && MemberWritten(v, ks[0], a) && MembersWritten(v, ks[1..], b)
  {
    hide MemberWritten;
    var k: nat :| k < |t| && t[k] == COMMA && MemberWritten(v, ks[0], t[..k]) && MembersWritten(v, ks[1..], t[k + 1..]);
    a, b := t[..k], t[k + 1..];
  }

  lemma MembersPadMore(v: Json, ks: seq<Text>, ws: Text, t: Text)
    requires v.Obj? && AllSpace(ws) && MembersWritten(v, ks, t)
    ensures MembersWritten(v, ks, ws + t)
  {
    if |ks| == 1 {
      hide MemberWritten;
      MemberPadMore(v, ks[0], ws, t);
    } else {
      hide MemberWritten, MembersWritten;
      assert ks != [] by { MembersNotEmpty(v, ks, t); }
      var a, b := MembersPart(v, ks, t);
      MemberPadMore(v, ks[0], ws, a);
      MembersJoin(v, ks[0], ks[1..], ws + a, b);
      assert [ks[0]] + ks[1..] == ks && ws + t == (ws + a) + [COMMA] + b;
    }
  }

  lemma MembersNotEmpty(v: Json, ks: seq<Text>, t: Text)
    requires v.Obj? && MembersWritten(v, ks, t)
    ensures ks != []
  {
  }

  lemma ObjectWrites(v: Json, ks: seq<Text>, inner: Text)
    requires v.Obj?
    requires if v.entries.Keys == {} then AllSpace(inner) else ks != [] && NoRepeats(ks) && KeySet(ks) == v.entries.Keys && MembersWritten(v, ks, inner)
    ensures Writes(v, [OPEN_BRACE] + inner + [CLOSE_BRACE])
  {
    var t := [OPEN_BRACE] + inner + [CLOSE_BRACE];
    assert Inner(t) == inner;
    hide MembersWritten, NoRepeats, KeySet;
  }

  lemma ObjectParts(l: Limits, finite: Text -> bool, t: Text, n: nat, depth: nat)
    requires t != [] && t[0] == OPEN_BRACE && Value(l, finite, t, n, depth).Some?
    ensures var u := SkipSpace(t[1..]);
      Value(l, finite, t, n, depth) == if u != [] && u[0] == CLOSE_BRACE then Some(Parsed(Obj(map[]), u[1..], n + 1)) else Members(l, finite, u, n + 1, depth, map[])
  {
    assert SkipSpace(t) == t;
    hide Members;
  }

  lemma ObjectIsEmpty(gap: Text)
    requires AllSpace(gap)
    ensures Writes(Obj(map[]), [OPEN_BRACE] + (gap + []) + [CLOSE_BRACE])
  {
    assert gap + [] == gap;
    ObjectWrites(Obj(map[]), [], gap);
    hide Writes;
  }

  lemma {:induction false} ObjectIsWritten(l: Limits, finite: Text -> bool, t: Text, n: nat, depth: nat) returns (core: Text)
    requires t != [] && t[0] == OPEN_BRACE && Value(l, finite, t, n, depth).Some?
    ensures var p := Value(l, finite, t, n, depth).value; t == core + p.rest && Writes(p.value, core)
    decreases |t|, 1
  {
    ObjectParts(l, finite, t, n, depth);
    var m := SkipIs(t[1..]);
    var u, gap := SkipSpace(t[1..]), t[1..][..m];
    var p := Value(l, finite, t, n, depth).value;
    hide Value, Members, Writes, MembersWritten, SkipSpace, AllSpace, KeySet, NoRepeats;
    Opened(OPEN_BRACE, t, gap, u);
    if u != [] && u[0] == CLOSE_BRACE {
      ObjectIsEmpty(gap);
      core := [OPEN_BRACE] + (gap + []) + [CLOSE_BRACE];
      assert u == [] + ([CLOSE_BRACE] + p.rest);
      Closed(OPEN_BRACE, gap, [], CLOSE_BRACE, p.rest);
    } else {
      var ks, inner := MembersAreWritten(l, finite, u, n + 1, depth, map[]);
      MembersPadMore(p.value, ks, gap, inner);
      MemberOfKeySet(ks, ks[0]);
      assert p.value.entries.Keys == KeySet(ks);
      ObjectWrites(p.value, ks, gap + inner);
      core := [OPEN_BRACE] + (gap + inner) + [CLOSE_BRACE];
      Closed(OPEN_BRACE, gap, inner, CLOSE_BRACE, p.rest);
    }
  }
}
