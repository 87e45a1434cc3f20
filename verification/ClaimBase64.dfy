/** Identifiers of the claim protocol in unpadded base64url: exactly the canonical spelling of the bytes is accepted. */
module ClaimBase64 {
  import opened Basics
  import opened ClaimFraming

  type Sextet = x: int | 0 <= x < 64

  /** The base64url alphabet. */
  function CharOf(x: Sextet): char {
    if x < 26 then (x + 65) as char
    else if x < 52 then (x + 71) as char
    else if x < 62 then (x - 4) as char
    else if x == 62 then '-' else '_'
  }

  function SextetOf(c: char): Option<Sextet> {
    if 'A' <= c <= 'Z' then Some(c as int - 65)
    else if 'a' <= c <= 'z' then Some(c as int - 71)
    else if '0' <= c <= '9' then Some(c as int + 4)
    else if c == '-' then Some(62)
    else if c == '_' then Some(63) else None
  }

  predicate InAlphabet(t: string) {
    forall i :: 0 <= i < |t| ==> SextetOf(t[i]).Some?
  }

  function Sextets(t: string): (x: seq<Sextet>)
    requires InAlphabet(t)
    ensures |x| == |t|
  {
    seq(|t|, i requires 0 <= i < |t| => SextetOf(t[i]).value)
  }

  function Spelled(x: seq<Sextet>): (t: string)
    ensures |t| == |x|
  {
    seq(|x|, i requires 0 <= i < |x| => CharOf(x[i]))
  }

  /** Letters and sextets are two names of the same thing. */
  lemma SpelledAlike(x: seq<Sextet>, t: string)
    ensures InAlphabet(Spelled(x)) && Sextets(Spelled(x)) == x
    ensures InAlphabet(t) ==> Spelled(Sextets(t)) == t
  {
  }

  // ---------------------------------------------------------------- bytes and sextets

  function High6(a: Byte): Sextet { a / 4 }
  function Mid6(a: Byte, b: Byte): Sextet { a % 4 * 16 + b / 16 }
  function Next6(b: Byte, c: Byte): Sextet { b % 16 * 4 + c / 64 }
  function Low6(c: Byte): Sextet { c % 64 }

  function Byte0(w: Sextet, x: Sextet): Byte { w * 4 + x / 16 }
  function Byte1(x: Sextet, y: Sextet): Byte { x % 16 * 16 + y / 4 }
  function Byte2(y: Sextet, z: Sextet): Byte { y % 4 * 64 + z }

  lemma BytesBack(a: Byte, b: Byte, c: Byte)
    ensures Byte0(High6(a), Mid6(a, b)) == a && Byte1(Mid6(a, b), Next6(b, c)) == b && Byte2(Next6(b, c), Low6(c)) == c
    ensures Mid6(a, 0) % 16 == 0 && Next6(b, 0) % 4 == 0
  {
  }

  lemma SextetsBack(w: Sextet, x: Sextet, y: Sextet, z: Sextet)
    ensures High6(Byte0(w, x)) == w && Mid6(Byte0(w, x), Byte1(x, y)) == x
    ensures Next6(Byte1(x, y), Byte2(y, z)) == y && Low6(Byte2(y, z)) == z
    ensures Mid6(Byte0(w, x), 0) == x <==> x % 16 == 0
    ensures Next6(Byte1(x, y), 0) == y <==> y % 4 == 0
  {
  }

  /** Three bytes give four sextets, a rest of one or two bytes gives two or three. */
  function Split(bytes: seq<Byte>): seq<Sextet> {
    if bytes == [] then []
    else if |bytes| == 1 then [High6(bytes[0]), Mid6(bytes[0], 0)]
    else if |bytes| == 2 then [High6(bytes[0]), Mid6(bytes[0], bytes[1]), Next6(bytes[1], 0)]
    else [High6(bytes[0]), Mid6(bytes[0], bytes[1]), Next6(bytes[1], bytes[2]), Low6(bytes[2])] + Split(bytes[3..])
  }

  /** The bytes of a list of sextets; bits left over at the end are dropped. */
  function Packed(x: seq<Sextet>): seq<Byte> {
    if |x| <= 1 then []
    else if |x| == 2 then [Byte0(x[0], x[1])]
    else if |x| == 3 then [Byte0(x[0], x[1]), Byte1(x[1], x[2])]
    else [Byte0(x[0], x[1]), Byte1(x[1], x[2]), Byte2(x[2], x[3])] + Packed(x[4..])
  }

  /** No bits are left over after the last byte. */
  predicate Whole(x: seq<Sextet>) {
    match |x| % 4
    case 0 => true
    case 1 => false
    case 2 => x[|x| - 1] % 16 == 0
    case _ => x[|x| - 1] % 4 == 0
  }

  lemma WholeRest(x: seq<Sextet>)
    requires |x| >= 4
    ensures (|x| % 4 == 1 <==> |x[4..]| % 4 == 1) && (Whole(x) <==> Whole(x[4..]))
  {
    assert |x| % 4 == |x[4..]| % 4;
    assert |x| > 4 ==> x[|x| - 1] == x[4..][|x[4..]| - 1];
    if |x| < 8 { assert |x| == 4 || |x| == 5 || |x| == 6 || |x| == 7; }
  }

  lemma SplitFour(bytes: seq<Byte>)
    requires |bytes| >= 3
    ensures Split(bytes) == [High6(bytes[0]), Mid6(bytes[0], bytes[1]), Next6(bytes[1], bytes[2]), Low6(bytes[2])] + Split(bytes[3..])
  {
  }

  lemma PackThree(w: Sextet, s: Sextet, y: Sextet, z: Sextet, more: seq<Sextet>)
    ensures Packed([w, s, y, z] + more) == [Byte0(w, s), Byte1(s, y), Byte2(y, z)] + Packed(more)
  {
    assert ([w, s, y, z] + more)[4..] == more;
    hide Byte0, Byte1, Byte2;
  }

  lemma ShortPacked(bytes: seq<Byte>)
    requires |bytes| < 3
    ensures Packed(Split(bytes)) == bytes && Whole(Split(bytes)) && |Split(bytes)| == (|bytes| * 4 + 2) / 3
  {
    if |bytes| == 1 { PackOne(bytes[0]); }
    if |bytes| == 2 { PackTwo(bytes[0], bytes[1]); }
    assert |bytes| == 1 ==> bytes == [bytes[0]];
    assert |bytes| == 2 ==> bytes == [bytes[0], bytes[1]];
    hide High6, Mid6, Next6, Byte0, Byte1, Packed;
  }

  lemma ShortPack(w: Sextet, x: Sextet, y: Sextet)
    ensures Packed([w, x]) == [Byte0(w, x)] && Packed([w, x, y]) == [Byte0(w, x), Byte1(x, y)]
    ensures (Whole([w, x]) <==> x % 16 == 0) && (Whole([w, x, y]) <==> y % 4 == 0)
  {
    hide Byte0, Byte1, Byte2;
  }

  lemma PackOne(a: Byte)
    ensures Packed([High6(a), Mid6(a, 0)]) == [a] && Whole([High6(a), Mid6(a, 0)])
  {
    hide High6, Mid6, Next6, Low6, Byte0, Byte1, Byte2;
    BytesBack(a, 0, 0);
    ShortPack(High6(a), Mid6(a, 0), 0);
  }

  lemma PackTwo(a: Byte, b: Byte)
    ensures Packed([High6(a), Mid6(a, b), Next6(b, 0)]) == [a, b] && Whole([High6(a), Mid6(a, b), Next6(b, 0)])
  {
    hide High6, Mid6, Next6, Low6, Byte0, Byte1, Byte2;
    BytesBack(a, b, 0);
    ShortPack(High6(a), Mid6(a, b), Next6(b, 0));
  }

  /** Packing undoes splitting, and a split leaves nothing over. */
  lemma {:induction false} PackedUndone(bytes: seq<Byte>)
    ensures Packed(Split(bytes)) == bytes && Whole(Split(bytes)) && |Split(bytes)| == (|bytes| * 4 + 2) / 3
    decreases |bytes|
  {
    if |bytes| < 3 {
      ShortPacked(bytes);
    } else {
      var a, b, c, more := bytes[0], bytes[1], bytes[2], Split(bytes[3..]);
      BytesBack(a, b, c);
      hide High6, Mid6, Next6, Low6, Byte0, Byte1, Byte2, Split, Packed, Whole;
      PackedUndone(bytes[3..]);
      SplitFour(bytes);
      PackThree(High6(a), Mid6(a, b), Next6(b, c), Low6(c), more);
      WholeRest(Split(bytes));
      assert Split(bytes)[4..] == more;
      assert bytes == [a, b, c] + bytes[3..];
    }
  }

  lemma ShortRest(a: Byte, b: Byte)
    ensures Split([a]) == [High6(a), Mid6(a, 0)] && Split([a, b]) == [High6(a), Mid6(a, b), Next6(b, 0)]
    ensures Split([]) == [] && Packed([]) == [] && Whole([])
  {
    hide High6, Mid6, Next6, Low6;
  }

  lemma SplitTwo(w: Sextet, x: Sextet)
    ensures Split(Packed([w, x])) == [w, x] <==> Whole([w, x])
  {
    hide High6, Mid6, Next6, Low6, Byte0, Byte1, Byte2, Split, Packed, Whole;
    SextetsBack(w, x, 0, 0);
    ShortPack(w, x, 0);
    ShortRest(Byte0(w, x), 0);
    assert [High6(Byte0(w, x)), Mid6(Byte0(w, x), 0)] == [w, x] <==> Mid6(Byte0(w, x), 0) == x;
  }

  lemma SplitThree(w: Sextet, x: Sextet, y: Sextet)
    ensures Split(Packed([w, x, y])) == [w, x, y] <==> Whole([w, x, y])
  {
    hide High6, Mid6, Next6, Low6, Byte0, Byte1, Byte2, Split, Packed, Whole;
    SextetsBack(w, x, y, 0);
    ShortPack(w, x, y);
    var a, b := Byte0(w, x), Byte1(x, y);
    ShortRest(a, b);
    assert [High6(a), Mid6(a, b), Next6(b, 0)] == [w, x, y] <==> Next6(b, 0) == y;
  }

  lemma ShortSplit(x: seq<Sextet>)
    requires |x| < 4 && |x| != 1
    ensures Split(Packed(x)) == x <==> Whole(x)
  {
    hide Split, Packed, Whole;
    if |x| == 0 {
      ShortRest(0, 0);
      assert x == [];
    } else if |x| == 2 {
      SplitTwo(x[0], x[1]);
      assert x == [x[0], x[1]];
    } else {
      SplitThree(x[0], x[1], x[2]);
      assert x == [x[0], x[1], x[2]];
    }
  }

  lemma SameTail(w: Sextet, s: Sextet, y: Sextet, z: Sextet, a: seq<Sextet>, b: seq<Sextet>)
    ensures [w, s, y, z] + a == [w, s, y, z] + b <==> a == b
  {
    assert ([w, s, y, z] + a)[4..] == a && ([w, s, y, z] + b)[4..] == b;
  }

  /** Splitting undoes packing exactly when nothing is left over. */
  lemma {:induction false} SplitUndone(x: seq<Sextet>)
    requires |x| % 4 != 1
    ensures Split(Packed(x)) == x <==> Whole(x)
    decreases |x|
  {
    if |x| < 4 {
      ShortSplit(x);
    } else {
      var w, s, y, z, more := x[0], x[1], x[2], x[3], x[4..];
      SextetsBack(w, s, y, z);
      hide High6, Mid6, Next6, Low6, Byte0, Byte1, Byte2, Split, Packed, Whole;
      WholeRest(x);
      SplitUndone(more);
      assert x == [w, s, y, z] + more;
      PackThree(w, s, y, z, more);
      SplitFour(Packed(x));
      assert Packed(x)[3..] == Packed(more);
      SameTail(w, s, y, z, Split(Packed(more)), more);
    }
  }

  // ---------------------------------------------------------------- texts

  /** `btoa` with the padding removed. */
  function Encode(bytes: seq<Byte>): string {
    Spelled(Split(bytes))
  }

  /** `atob` of the padded text: a lone last character fails, and so does anything outside the alphabet. */
  function Decode(t: string): Option<seq<Byte>> {
    if InAlphabet(t) && |t| % 4 != 1 then Some(Packed(Sextets(t))) else None
  }

  lemma EncodeShape(bytes: seq<Byte>)
    ensures |Encode(bytes)| == (|bytes| * 4 + 2) / 3 && InAlphabet(Encode(bytes))
    ensures Decode(Encode(bytes)) == Some(bytes)
  {
    PackedUndone(bytes);
    SpelledAlike(Split(bytes), "");
    hide Spelled, Sextets, InAlphabet, Split, Packed;
  }

  /** The texts that survive being decoded and encoded again are the encodings, and no two byte strings share one. */
  lemma CanonicalIff(t: string)
    ensures Decode(t).Some? && Encode(Decode(t).value) == t <==> InAlphabet(t) && Whole(Sextets(t))
    ensures Decode(t).Some? && Encode(Decode(t).value) == t <==> exists bytes :: t == Encode(bytes)
    ensures forall bytes :: t == Encode(bytes) ==> Decode(t) == Some(bytes)
  {
    forall bytes | t == Encode(bytes) ensures Decode(t) == Some(bytes) && Encode(Decode(t).value) == t { EncodeShape(bytes); }
    if InAlphabet(t) && |t| % 4 != 1 {
      SplitUndone(Sextets(t));
      SpelledAlike(Split(Packed(Sextets(t))), t);
    }
    hide Packed, Sextets, Split, Spelled, InAlphabet;
  }

  // ---------------------------------------------------------------- the two identifier checks

  /** The bytes of a binary string, and the binary string of those bytes, copied one by one. */
  method Copied(binary: seq<Byte>) returns (copy: seq<Byte>)
    ensures copy == binary
  {
    copy := [];
    for i := 0 to |binary|
      invariant copy == binary[..i]
    {
      copy := copy + [binary[i]];
    }
  }

  /** A commitment or nonce: 43 characters that are the canonical spelling of 32 bytes. */
  method Base64Url32(value: string) returns (ok: bool)
    ensures ok <==> exists bytes :: |bytes| == 32 && value == Encode(bytes)
  {
    CanonicalIff(value);
    forall bytes | |bytes| == 32 && value == Encode(bytes) ensures |value| == 43 && InAlphabet(value) { EncodeShape(bytes); }
    hide Encode, Decode, InAlphabet;
    if |value| != 43 || !InAlphabet(value) { return false; }
    var binary := Decode(value);
    if binary.None? { return false; }
    var copy := Copied(binary.value);
    return |copy| == 32 && Encode(copy) == value;
  }

  predicate LowerHex(t: string) {
    forall i :: 0 <= i < |t| ==> '0' <= t[i] <= '9' || 'a' <= t[i] <= 'f'
  }

  /** Eight, four, four, four and twelve lower-case hexadecimal digits. */
  predicate UuidShape(t: string) {
    && |t| == 36 && t[8] == '-' && t[13] == '-' && t[18] == '-' && t[23] == '-'
    && LowerHex(t[..8]) && LowerHex(t[9..13]) && LowerHex(t[14..18]) && LowerHex(t[19..23]) && LowerHex(t[24..])
  }

  predicate UuidV4(t: string) {
    UuidShape(t) && t[14] == '4' && t[19] in "89ab"
  }

  /** An idempotency key is a version 4 UUID, or the canonical spelling of 16 to 96 bytes that does not look like a UUID. */
  method IdempotencyKey(value: string) returns (ok: bool)
    ensures ok <==> UuidV4(value) || (!UuidShape(value) && exists bytes :: 16 <= |bytes| <= 96 && value == Encode(bytes))
  {
    CanonicalIff(value);
    forall bytes | value == Encode(bytes)
      ensures InAlphabet(value) && (22 <= |value| <= 128 && |bytes| >= 16 <==> 16 <= |bytes| <= 96)
    {
      EncodeShape(bytes);
    }
    hide Encode, Decode, InAlphabet, LowerHex;
    var uuid := UuidV4(value);
    if UuidShape(value) && !uuid { return false; }
    if uuid { return true; }
    if |value| < 22 || |value| > 128 || !InAlphabet(value) { return false; }
    var binary := Decode(value);
    if binary.None? { return false; }
    var copy := Copied(binary.value);
    return |copy| >= 16 && Encode(copy) == value;
  }

  lemma HexIsInAlphabet(t: string, i: nat, j: nat)
    requires i <= j <= |t| && LowerHex(t[i..j])
    ensures forall k :: i <= k < j ==> SextetOf(t[k]).Some?
  {
    forall k | i <= k < j ensures SextetOf(t[k]).Some? { assert t[k] == t[i..j][k - i]; }
  }

  lemma UuidInAlphabet(t: string)
    requires UuidShape(t)
    ensures InAlphabet(t)
  {
    HexIsInAlphabet(t, 0, 8);
    HexIsInAlphabet(t, 9, 13);
    HexIsInAlphabet(t, 14, 18);
    HexIsInAlphabet(t, 19, 23);
    assert t[24..36] == t[24..];
    HexIsInAlphabet(t, 24, 36);
    hide LowerHex;
    assert SextetOf('-').Some?;
    hide SextetOf;
  }

  /** The text of a UUID is itself a canonical spelling of 27 bytes: only the shape test keeps the two kinds of key apart. */
  lemma UuidSpellsBytes(t: string)
    requires UuidShape(t)
    ensures exists bytes :: |bytes| == 27 && t == Encode(bytes)
  {
    UuidInAlphabet(t);
    assert |t| % 4 == 0;
    hide UuidShape, Encode, Decode, InAlphabet, Sextets, Whole;
    WholeLines(t);
    CanonicalIff(t);
    var bytes :| t == Encode(bytes);
    EncodeShape(bytes);
  }

  lemma WholeLines(t: string)
    requires InAlphabet(t) && |t| % 4 == 0
    ensures Whole(Sextets(t))
  {
  }

  // ---------------------------------------------------------------- what the texts stand for

  const CAPITALS: string := "ABCDEFGHIJKLMNOPQRSTUVWXYZ"
  const SMALL: string := "abcdefghijklmnopqrstuvwxyz"
  const OTHERS: string := "0123456789-_"
  const LETTERS: string := CAPITALS + SMALL + OTHERS

  /** The byte at a place, zero after the last one. */
  function ByteAt(bytes: seq<Byte>, i: nat): nat {
    if i < |bytes| then bytes[i] else 0
  }

  /** Three bytes as one number of twenty-four bits. */
  function Group(bytes: seq<Byte>, k: nat): nat {
    ByteAt(bytes, 3 * k) * 65536 + ByteAt(bytes, 3 * k + 1) * 256 + ByteAt(bytes, 3 * k + 2)
  }

  /** One of the four digits of a group to the base 64, the highest first. */
  function DigitOf(group: nat, place: nat): nat {
    match place
    case 0 => group / 262144 % 64
    case 1 => group / 4096 % 64
    case 2 => group / 64 % 64
    case _ => group % 64
  }

  lemma CapitalsRun(x: nat)
    ensures |CAPITALS| == 26 && (x < 26 ==> CAPITALS[x] as int == x + 65)
  {
  }

  lemma SmallRun(x: nat)
    ensures |SMALL| == 26 && (x < 26 ==> SMALL[x] as int == x + 97)
  {
  }

  lemma OthersRun(x: nat)
    ensures |OTHERS| == 12 && (x < 10 ==> OTHERS[x] as int == x + 48) && OTHERS[10] == '-' && OTHERS[11] == '_'
  {
  }

  lemma LetterAt(x: nat)
    requires x < 64
    ensures |CAPITALS| == 26 && |SMALL| == 26 && |OTHERS| == 12 && |LETTERS| == 64
    ensures LETTERS[x] == if x < 26 then CAPITALS[x] else if x < 52 then SMALL[x - 26] else OTHERS[x - 52]
  {
    hide CAPITALS, SMALL, OTHERS;
    CapitalsRun(0);
    SmallRun(0);
    OthersRun(0);
  }

  lemma LetterMeans(x: Sextet)
    ensures |LETTERS| == 64 && CharOf(x) == LETTERS[x]
  {
    hide LETTERS, CAPITALS, SMALL, OTHERS;
    LetterAt(x);
    CapitalsRun(x);
    if x >= 26 { SmallRun(x - 26); }
    if x >= 52 { OthersRun(x - 52); }
  }

  /** The digits of a number of four. */
  lemma DigitsBack(n: nat, w: Sextet, x: Sextet, y: Sextet, z: Sextet)
    requires n == w * 262144 + x * 4096 + y * 64 + z
    ensures DigitOf(n, 0) == w && DigitOf(n, 1) == x && DigitOf(n, 2) == y && DigitOf(n, 3) == z
  {
    assert n / 262144 == w;
    assert n / 4096 == w * 64 + x;
    assert n / 64 == w * 4096 + x * 64 + y;
  }

  lemma DigitsOfThree(a: Byte, b: Byte, c: Byte)
    ensures var n := a * 65536 + b * 256 + c;
      DigitOf(n, 0) == High6(a) && DigitOf(n, 1) == Mid6(a, b) && DigitOf(n, 2) == Next6(b, c) && DigitOf(n, 3) == Low6(c)
  {
    hide DigitOf;
    assert a == a / 4 * 4 + a % 4 && b == b / 16 * 16 + b % 16 && c == c / 64 * 64 + c % 64;
    DigitsBack(a * 65536 + b * 256 + c, High6(a), Mid6(a, b), Next6(b, c), Low6(c));
  }

  lemma SplitFront(bytes: seq<Byte>, i: nat)
    requires i < |Split(bytes)| && i < 4
    ensures Split(bytes)[i] == DigitOf(Group(bytes, 0), i)
  {
    DigitsOfThree(ByteAt(bytes, 0), ByteAt(bytes, 1), ByteAt(bytes, 2));
    hide High6, Mid6, Next6, Low6, DigitOf;
    assert i == 0 || i == 1 || i == 2 || i == 3;
  }

  lemma GroupLater(bytes: seq<Byte>, k: nat)
    requires |bytes| >= 3
    ensures Group(bytes[3..], k) == Group(bytes, k + 1)
  {
  }

  lemma SplitLater(bytes: seq<Byte>, i: nat)
    requires 4 <= i < |Split(bytes)|
    ensures |bytes| >= 3 && i - 4 < |Split(bytes[3..])| && Split(bytes)[i] == Split(bytes[3..])[i - 4]
  {
    hide High6, Mid6, Next6, Low6;
    if |bytes| >= 3 { SplitFour(bytes); }
  }

  lemma {:induction false} SplitDigit(bytes: seq<Byte>, i: nat)
    requires i < |Split(bytes)|
    ensures Split(bytes)[i] == DigitOf(Group(bytes, i / 4), i % 4)
    decreases i
  {
    hide *;
    if i < 4 {
      SplitFront(bytes, i);
    } else {
      SplitLater(bytes, i);
      SplitDigit(bytes[3..], i - 4);
      GroupLater(bytes, (i - 4) / 4);
      assert (i - 4) / 4 + 1 == i / 4 && (i - 4) % 4 == i % 4;
    }
  }

  /** Every letter is the one of its digit: the bytes are read three at a time as a number to the base 64. */
  lemma EncodeMeans(bytes: seq<Byte>)
    ensures |Encode(bytes)| == (|bytes| * 4 + 2) / 3 && |LETTERS| == 64
    ensures forall i: nat :: i < |Encode(bytes)| ==> 0 <= DigitOf(Group(bytes, i / 4), i % 4) < 64 && Encode(bytes)[i] == LETTERS[DigitOf(Group(bytes, i / 4), i % 4)]
  {
    EncodeShape(bytes);
    LetterMeans(0);
    forall i: nat | i < |Encode(bytes)|
      ensures 0 <= DigitOf(Group(bytes, i / 4), i % 4) < 64 && Encode(bytes)[i] == LETTERS[DigitOf(Group(bytes, i / 4), i % 4)]
    {
      SplitDigit(bytes, i);
      LetterMeans(Split(bytes)[i]);
      hide Split, DigitOf, Group, CharOf, Decode, InAlphabet;
    }
  }

  lemma HexMeans(c: char)
    ensures '0' <= c <= '9' || 'a' <= c <= 'f' <==> c in "0123456789abcdef"
  {
  }

  lemma HexBetween(t: string, i: nat, j: nat)
    requires i <= j <= |t|
    ensures LowerHex(t[i..j]) <==> forall k :: i <= k < j ==> t[k] in "0123456789abcdef"
  {
    forall k | i <= k < j ensures t[k] == t[i..j][k - i] && ('0' <= t[k] <= '9' || 'a' <= t[k] <= 'f' <==> t[k] in "0123456789abcdef") { HexMeans(t[k]); }
  }

  /** The two shapes, place by place. */
  lemma UuidsExactly(t: string)
    ensures UuidShape(t) <==> |t| == 36 && forall i :: 0 <= i < 36 ==> if i in {8, 13, 18, 23} then t[i] == '-' else t[i] in "0123456789abcdef"
    ensures UuidV4(t) <==> UuidShape(t) && t[14] == '4' && (t[19] == '8' || t[19] == '9' || t[19] == 'a' || t[19] == 'b')
  {
    if |t| == 36 {
      HexBetween(t, 0, 8);
      HexBetween(t, 9, 13);
      HexBetween(t, 14, 18);
      HexBetween(t, 19, 23);
      assert t[24..36] == t[24..];
      HexBetween(t, 24, 36);
      hide LowerHex;
    }
  }
}
