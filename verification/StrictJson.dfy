/**
 * The strict recursive-descent parser.  `Value` and its two loops say what the parser makes of the text that is
 * left; the class below advances one shared offset and node counter and is proved to do exactly that.
 */
module StrictJson {
  import opened Basics
  import opened JsonText
  import opened JsonValue

  datatype Limits = Limits(depth: nat, nodes: nat, units: nat, entries: nat)

  const STRICT: Limits := Limits(32, 4096, 16384, 256)

  /** What a parse step leaves: a value, the unread text and the nodes counted so far. */
  datatype Parsed = Parsed(value: Json, rest: Text, nodes: nat)

  predicate IsSpace(u: Unit) { u == 0x20 || u == 0x09 || u == 0x0A || u == 0x0D }

  function SkipSpace(t: Text): (r: Text)
    ensures |r| <= |t| && (r != [] ==> !IsSpace(r[0]))
  {
    if t != [] && IsSpace(t[0]) then SkipSpace(t[1..]) else t
  }

  predicate Starts(t: Text, word: Text) {
    |word| <= |t| && t[..|word|] == word
  }

  /** A quoted string, decoded, and the text after it. */
  function StringAt(l: Limits, t: Text): (r: Option<(Text, Text)>)
    ensures r.Some? ==> |r.value.1| < |t|
  {
    if t == [] || t[0] != QUOTE then None
    else
      match Scan(t[1..])
      case None => None
      case Some(end) =>
        var s := Unescape(t[1..][..end]);
        if |s| > l.units || !WellFormed(s) then None else Some((s, t[1..][end + 1..]))
  }

  function Value(l: Limits, finite: Text -> bool, text: Text, nodes: nat, depth: nat): (r: Option<Parsed>)
    ensures r.Some? ==> |r.value.rest| < |text|
    decreases |text|, 2
  {
    var n, t := nodes + 1, SkipSpace(text);
    if n > l.nodes || depth > l.depth || t == [] then None
    else if t[0] == QUOTE then
      match StringAt(l, t)
      case None => None
      case Some(p) => Some(Parsed(Str(p.0), p.1, n))
    else if t[0] == OPEN_BRACE then
      var u := SkipSpace(t[1..]);
      if u != [] && u[0] == CLOSE_BRACE then Some(Parsed(Obj(map[]), u[1..], n)) else Members(l, finite, u, n, depth, map[])
    else if t[0] == OPEN_BRACKET then
      var u := SkipSpace(t[1..]);
      if u != [] && u[0] == CLOSE_BRACKET then Some(Parsed(Arr([]), u[1..], n)) else Items(l, finite, u, n, depth, [])
    else Scalar(finite, t, n)
  }

  /** Literals are tried before the number pattern; a number must be finite. */
  function Scalar(finite: Text -> bool, t: Text, nodes: nat): (r: Option<Parsed>)
    ensures r.Some? ==> |r.value.rest| < |t|
  {
    if Starts(t, TRUE_TEXT) then Some(Parsed(Bool(true), t[4..], nodes))
    else if Starts(t, FALSE_TEXT) then Some(Parsed(Bool(false), t[5..], nodes))
    else if Starts(t, NULL_TEXT) then Some(Parsed(Null, t[4..], nodes))
    else
      match NumberAt(t)
      case None => None
      case Some(p) => if p.0.Other? && !finite(p.0.lexeme) then None else Some(Parsed(Num(p.0), t[p.1..], nodes))
  }

  /** One member: a key not yet taken and not reserved, a colon, a value. */
  function Member(l: Limits, finite: Text -> bool, text: Text, nodes: nat, depth: nat, keys: set<Text>): (r: Option<(Text, Parsed)>)
    ensures r.Some? ==> |r.value.1.rest| < |text| && r.value.0 !in keys && |keys| < l.entries
    decreases |text|, 0
  {
    match StringAt(l, SkipSpace(text))
    case None => None
    case Some(key) =>
      var t := SkipSpace(key.1);
      if |keys| >= l.entries || key.0 in keys || Reserved(key.0) || t == [] || t[0] != COLON then None
      else
        match Value(l, finite, t[1..], nodes, depth + 1)
        case None => None
        case Some(p) => Some((key.0, p))
  }

  /** The member loop of an object, with the entries read so far. */
  function Members(l: Limits, finite: Text -> bool, text: Text, nodes: nat, depth: nat, entries: map<Text, Json>): (r: Option<Parsed>)
    ensures r.Some? ==> |r.value.rest| < |text|
    decreases |text|, 1
  {
    match Member(l, finite, text, nodes, depth, entries.Keys)
    case None => None
    case Some(m) =>
      var u, grown := SkipSpace(m.1.rest), entries[m.0 := m.1.value];
      if u == [] then None
      else if u[0] == CLOSE_BRACE then Some(Parsed(Obj(grown), u[1..], m.1.nodes))
      else if u[0] == COMMA then Members(l, finite, u[1..], m.1.nodes, depth, grown)
      else None
  }

  /** The element loop of an array, with the items read so far. */
  function Items(l: Limits, finite: Text -> bool, text: Text, nodes: nat, depth: nat, items: seq<Json>): (r: Option<Parsed>)
    ensures r.Some? ==> |r.value.rest| < |text|
    decreases |text|, 3
  {
    if |items| >= l.entries then None
    else
      match Value(l, finite, text, nodes, depth + 1)
      case None => None
      case Some(p) =>
        var u, grown := SkipSpace(p.rest), items + [p.value];
        if u == [] then None
        else if u[0] == CLOSE_BRACKET then Some(Parsed(Arr(grown), u[1..], p.nodes))
        else if u[0] == COMMA then Items(l, finite, u[1..], p.nodes, depth, grown)
        else None
  }

  /** The whole text: no byte order mark, one value, nothing after it but white space. */
  function Parse(l: Limits, finite: Text -> bool, text: Text): Option<Json> {
    if text == [] || text[0] == BYTE_ORDER_MARK then None
    else
      match Value(l, finite, text, 0, 0)
      case None => None
      case Some(p) => if SkipSpace(p.rest) == [] then Some(p.value) else None
  }

  lemma MembersUnfolds(l: Limits, finite: Text -> bool, text: Text, nodes: nat, depth: nat, entries: map<Text, Json>, key: Text, p: Parsed)
    requires Member(l, finite, text, nodes, depth, entries.Keys) == Some((key, p))
    ensures Members(l, finite, text, nodes, depth, entries) ==
      var u, grown := SkipSpace(p.rest), entries[key := p.value];
      if u == [] then None
      else if u[0] == CLOSE_BRACE then Some(Parsed(Obj(grown), u[1..], p.nodes))
      else if u[0] == COMMA then Members(l, finite, u[1..], p.nodes, depth, grown)
      else None
  {
    hide Member, SkipSpace;
  }

  /** With no text left there is neither a value nor a member. */
  lemma NothingLeft(l: Limits, finite: Text -> bool, nodes: nat, depth: nat, entries: map<Text, Json>)
    ensures forall text :: Member(l, finite, text, nodes, depth, entries.Keys) == None ==> Members(l, finite, text, nodes, depth, entries) == None
    ensures Members(l, finite, [], nodes, depth, entries) == None && Value(l, finite, [], nodes, depth) == None
  {
  }

  /** The parser proper: one text, one read position, one node counter. */
  class Parser {
    const limits: Limits
    const finite: Text -> bool
    const text: Text
    var offset: nat
    var nodes: nat

    constructor (limits: Limits, finite: Text -> bool, text: Text)
      ensures this.limits == limits && this.finite == finite && this.text == text && offset == 0 && nodes == 0
    {
      this.limits, this.finite, this.text := limits, finite, text;
      offset, nodes := 0, 0;
    }

    ghost function Left(): Text
      requires offset <= |text|
      reads `offset
    {
      text[offset..]
    }

    /** `text[offset]`, which is missing past the end. */
    function Peek(): (u: Option<Unit>)
      requires offset <= |text|
      reads `offset
      ensures u == if Left() == [] then None else Some(Left()[0])
    {
      if offset < |text| then Some(text[offset]) else None
    }

    /** `offset += steps`. */
    method Skip(steps: nat)
      requires offset + steps <= |text|
      modifies `offset
      ensures offset == old(offset) + steps && steps <= |old(Left())| && Left() == old(Left())[steps..]
    {
      offset := offset + steps;
    }

    /** `text[offset++]`. */
    method Take() returns (u: Option<Unit>)
      requires offset <= |text|
      modifies `offset
      ensures u == old(Peek()) && offset <= |text|
      ensures u.Some? ==> offset == old(offset) + 1 && old(Left()) != [] && Left() == old(Left())[1..]
      ensures u.None? ==> offset == old(offset)
    {
      u := Peek();
      if u.Some? { offset := offset + 1; }
    }

    method SkipWhitespace()
      requires offset <= |text|
      modifies `offset
      ensures old(offset) <= offset <= |text| && Left() == SkipSpace(old(Left()))
    {
      hide Left;
      while Peek().Some?
        invariant old(offset) <= offset <= |text| && SkipSpace(old(Left())) == SkipSpace(Left())
        decreases |text| - offset
      {
        if !IsSpace(Peek().value) { break; }
        Skip(1);
      }
    }

    /** One character of a string body, escapes included. */
    method SkipBodyUnit() returns (ok: bool)
      requires offset < |text| && text[offset] != QUOTE
      modifies `offset
      ensures old(offset) <= offset <= |text| && old(Left()) != []
      ensures ok <==> BodyUnit(old(Left())).Some?
      ensures ok ==> var n := BodyUnit(old(Left())).value; offset == old(offset) + n && Left() == old(Left())[n..]
    {
      var character := text[offset];
      if character == BACKSLASH {
        if offset + 1 >= |text| || !Escapable(text[offset + 1]) { return false; }
        var hex := text[offset + 1] == LOWER_U;
        if hex && !StartsHex4(text[offset + 2..]) { return false; }
        Skip(if hex then 6 else 2);
      } else {
        if character <= 0x1F { return false; }
        Skip(1);
      }
      return true;
    }

    /** Walk past the closing quote of a string body. */
    method SkipBody() returns (closed: bool)
      requires offset <= |text|
      modifies `offset
      ensures closed <==> Scan(old(Left())).Some?
      ensures old(offset) <= offset <= |text|
      ensures closed ==> offset == old(offset) + Scan(old(Left())).value + 1
    {
      ghost var body := Left();
      hide BodyUnit;
      while offset < |text|
        invariant old(offset) <= offset <= |text|
        invariant Scan(body) == Further(Scan(Left()), offset - old(offset))
      {
        if text[offset] == QUOTE { Skip(1); return true; }
        var ok := SkipBodyUnit();
        if !ok { return false; }
      }
      return false;
    }

    /** Walk to the closing quote, decode what lies between, and check its length and its surrogates. */
    method ReadString() returns (r: Option<Text>)
      requires offset <= |text|
      modifies `offset
      ensures old(offset) <= offset <= |text|
      ensures match StringAt(limits, old(Left()))
        case None => r == None
        case Some(p) => r == Some(p.0) && old(offset) < offset && Left() == p.1
    {
      if Peek() != Some(QUOTE) { return None; }
      Skip(1);
      var start := offset;
      ghost var body := Left();
      var closed := SkipBody();
      if !closed { return None; }
      assert body[..offset - 1 - start] == text[start..offset - 1] && body[offset - start..] == text[offset..];
      hide Scan, Unescape, WellFormed;
      var parsed := Unescape(text[start..offset - 1]);
      if |parsed| > limits.units { return None; }
      var paired := CheckSurrogates(parsed);
      return if paired then Some(parsed) else None;
    }

    method ReadScalar() returns (r: Option<Json>)
      requires offset <= |text|
      modifies `offset
      ensures old(offset) <= offset <= |text|
      ensures match Scalar(finite, old(Left()), nodes)
        case None => r == None
        case Some(p) => r == Some(p.value) && Left() == p.rest && p.nodes == nodes
    {
      ghost var t := Left();
      if Starts(text[offset..], TRUE_TEXT) { Skip(4); return Some(Bool(true)); }
      if Starts(text[offset..], FALSE_TEXT) { Skip(5); return Some(Bool(false)); }
      if Starts(text[offset..], NULL_TEXT) { Skip(4); return Some(Null); }
      var found := NumberAt(text[offset..]);
      if found.None? || (found.value.0.Other? && !finite(found.value.0.lexeme)) { return None; }
      Skip(found.value.1);
      return Some(Num(found.value.0));
    }

    method ReadValue(depth: nat) returns (r: Option<Json>)
      requires offset <= |text|
      modifies `offset, `nodes
      ensures old(offset) <= offset <= |text|
      ensures match Value(limits, finite, old(Left()), old(nodes), depth)
        case None => r == None
        case Some(p) => r == Some(p.value) && Left() == p.rest && nodes == p.nodes
      decreases |text| - offset, 2
    {
      hide Left, Members, Items, Scalar, StringAt, SkipSpace;
      nodes := nodes + 1;
      if nodes > limits.nodes || depth > limits.depth { return None; }
      SkipWhitespace();
      if Peek().None? { return None; }
      if Peek() == Some(QUOTE) {
        var s := ReadString();
        return if s.Some? then Some(Str(s.value)) else None;
      }
      if Peek() == Some(OPEN_BRACE) {
        Skip(1);
        SkipWhitespace();
        if Peek() == Some(CLOSE_BRACE) { Skip(1); return Some(Obj(map[])); }
        r := ReadMembers(depth);
      } else if Peek() == Some(OPEN_BRACKET) {
        Skip(1);
        SkipWhitespace();
        if Peek() == Some(CLOSE_BRACKET) { Skip(1); return Some(Arr([])); }
        r := ReadItems(depth);
      } else {
        r := ReadScalar();
      }
    }

    method ReadMember(depth: nat, keys: set<Text>) returns (r: Option<(Text, Json)>)
      requires offset <= |text|
      modifies `offset, `nodes
      ensures old(offset) <= offset <= |text|
      ensures match Member(limits, finite, old(Left()), old(nodes), depth, keys)
        case None => r == None
        case Some(m) => r == Some((m.0, m.1.value)) && Left() == m.1.rest && nodes == m.1.nodes && old(offset) < offset
      decreases |text| - offset, 0
    {
      hide Left, Value, StringAt, SkipSpace, Reserved;
      SkipWhitespace();
      var key := ReadString();
      if key.None? || |keys| >= limits.entries || key.value in keys || Reserved(key.value) { return None; }
      SkipWhitespace();
      var colon := Take();
      if colon != Some(COLON) { return None; }
      var member := ReadValue(depth + 1);
      return if member.None? then None else Some((key.value, member.value));
    }

    /** White space, then the character after a member or an item. */
    method TakeDelimiter() returns (d: Option<Unit>)
      requires offset <= |text|
      modifies `offset
      ensures old(offset) <= offset <= |text|
      ensures var u := SkipSpace(old(Left()));
        if u == [] then d == None else d == Some(u[0]) && Left() == u[1..] && old(offset) < offset
    {
      SkipWhitespace();
      d := Take();
    }

    /** The loop over the members of an object: `keys` refuses a repeated key, `result` is filled in place. */
    method ReadMembers(depth: nat) returns (r: Option<Json>)
      requires offset <= |text|
      modifies `offset, `nodes
      ensures old(offset) <= offset <= |text|
      ensures match Members(limits, finite, old(Left()), old(nodes), depth, map[])
        case None => r == None
        case Some(p) => r == Some(p.value) && Left() == p.rest && nodes == p.nodes
      decreases |text| - offset, 1
    {
      var result: map<Text, Json>, keys: set<Text> := map[], {};
      ghost var want := Members(limits, finite, Left(), nodes, depth, map[]);
      hide Left, Member, Members, SkipSpace;
      while Peek().Some?
        invariant old(offset) <= offset <= |text| && keys == result.Keys
        invariant want == Members(limits, finite, Left(), nodes, depth, result)
        decreases |text| - offset
      {
        ghost var spec := Member(limits, finite, Left(), nodes, depth, keys);
        if spec.Some? { MembersUnfolds(limits, finite, Left(), nodes, depth, result, spec.value.0, spec.value.1); }
        var member := ReadMember(depth, keys);
        if member.None? { return None; }
        keys := keys + {member.value.0};
        result := result[member.value.0 := member.value.1];
        var delimiter := TakeDelimiter();
        if delimiter == Some(CLOSE_BRACE) { return Some(Obj(result)); }
        if delimiter != Some(COMMA) { return None; }
      }
      NothingLeft(limits, finite, nodes, depth, result);
      return None;
    }

    method ReadItems(depth: nat) returns (r: Option<Json>)
      requires offset <= |text|
      modifies `offset, `nodes
      ensures old(offset) <= offset <= |text|
      ensures match Items(limits, finite, old(Left()), old(nodes), depth, [])
        case None => r == None
        case Some(p) => r == Some(p.value) && Left() == p.rest && nodes == p.nodes
      decreases |text| - offset, 3
    {
      var result: seq<Json> := [];
      ghost var want := Items(limits, finite, Left(), nodes, depth, []);
      hide Left, Value, SkipSpace;
      while Peek().Some?
        invariant old(offset) <= offset <= |text|
        invariant want == Items(limits, finite, Left(), nodes, depth, result)
        decreases |text| - offset
      {
        if |result| >= limits.entries { return None; }
        var item := ReadValue(depth + 1);
        if item.None? { return None; }
        result := result + [item.value];
        var delimiter := TakeDelimiter();
        if delimiter == Some(CLOSE_BRACKET) { return Some(Arr(result)); }
        if delimiter != Some(COMMA) { return None; }
      }
      NothingLeft(limits, finite, nodes, depth, map[]);
      return None;
    }
  }

  /** `parseStrictJson`: the imperative parser computes `Parse`, for every text. */
  method ParseStrictJson(finite: Text -> bool, text: Text) returns (r: Option<Json>)
    ensures r == Parse(STRICT, finite, text)
  {
    if |text| == 0 || text[0] == BYTE_ORDER_MARK { return None; }
    var p := new Parser(STRICT, finite, text);
    var parsed := p.ReadValue(0);
    if parsed.None? { return None; }
    p.SkipWhitespace();
    return if p.offset == |text| then parsed else None;
  }
}
