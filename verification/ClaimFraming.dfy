/** Byte framing of the claim protocol: domain-separated hash preimages and the wallet signing envelope. */
module ClaimFraming {

  type Byte = b: int | 0 <= b < 0x100

  const MAX_PROTOCOL_BYTES: nat := 64 * 1024

  datatype Purpose = ClaimIntent | SessionRecovery | PlayerDeletion | ClaimChallenge

  const CLAIM_INTENT: string := "samurai-sushi:claim-intent:v1\n"
  const SESSION_RECOVERY: string := "samurai-sushi:claim-session-recovery-intent:v1\n"
  const PLAYER_DELETION: string := "samurai-sushi:player-deletion-intent:v1\n"
  const CLAIM_CHALLENGE: string := "samurai-sushi:claim-challenge-hash:v1\n"

  function Domain(p: Purpose): string {
    match p
    case ClaimIntent => CLAIM_INTENT
    case SessionRecovery => SESSION_RECOVERY
    case PlayerDeletion => PLAYER_DELETION
    case ClaimChallenge => CLAIM_CHALLENGE
  }

  /** UTF-8 bytes of a text of ASCII characters. */
  function Encoded(s: string): seq<Byte>
    requires forall i :: 0 <= i < |s| ==> s[i] as int < 0x80
  {
    seq(|s|, i requires 0 <= i < |s| => s[i] as int)
  }

  /** A newline ends the text and occurs nowhere else in it. */
  predicate EndsAtNewline(s: string) {
    s != "" && s[|s| - 1] == '\n' && forall i :: 0 <= i < |s| - 1 ==> s[i] != '\n'
  }

  predicate Ascii(s: string) {
    forall i :: 0 <= i < |s| ==> s[i] as int < 0x80
  }

  lemma ClaimIntentShape()
    ensures |CLAIM_INTENT| == 30 && Ascii(CLAIM_INTENT) && EndsAtNewline(CLAIM_INTENT)
  {
  }

  predicate OneLine(s: string) {
    forall i :: 0 <= i < |s| ==> s[i] != '\n'
  }

  lemma ShapeOfParts(head: string, tail: string)
    requires Ascii(head) && OneLine(head) && Ascii(tail) && EndsAtNewline(tail)
    ensures Ascii(head + tail) && EndsAtNewline(head + tail)
  {
  }

  lemma SessionRecoveryHead()
    ensures Ascii("samurai-sushi:claim-session") && OneLine("samurai-sushi:claim-session")
  {
  }

  lemma SessionRecoveryTail()
    ensures Ascii("-recovery-intent:v1\n") && EndsAtNewline("-recovery-intent:v1\n")
  {
  }

  lemma SessionRecoveryShape()
    ensures |SESSION_RECOVERY| == 47 && Ascii(SESSION_RECOVERY) && EndsAtNewline(SESSION_RECOVERY)
  {
    SessionRecoveryHead();
    SessionRecoveryTail();
    hide Ascii, OneLine, EndsAtNewline;
    ShapeOfParts("samurai-sushi:claim-session", "-recovery-intent:v1\n");
    assert SESSION_RECOVERY == "samurai-sushi:claim-session" + "-recovery-intent:v1\n";
  }

  lemma PlayerDeletionShape()
    ensures |PLAYER_DELETION| == 40 && Ascii(PLAYER_DELETION) && EndsAtNewline(PLAYER_DELETION)
  {
  }

  lemma ClaimChallengeShape()
    ensures |CLAIM_CHALLENGE| == 38 && Ascii(CLAIM_CHALLENGE) && EndsAtNewline(CLAIM_CHALLENGE)
  {
  }

  lemma DomainShape(p: Purpose)
    ensures Ascii(Domain(p)) && EndsAtNewline(Domain(p))
    ensures |Domain(p)| == match p case ClaimIntent => 30 case SessionRecovery => 47 case PlayerDeletion => 40 case ClaimChallenge => 38
  {
    ClaimIntentShape();
    SessionRecoveryShape();
    PlayerDeletionShape();
    ClaimChallengeShape();
    hide Ascii, EndsAtNewline;
  }

  function Preimage(p: Purpose, bytes: seq<Byte>): seq<Byte> {
    DomainShape(p);
    Encoded(Domain(p)) + bytes
  }

  lemma NewlinesMeet(s: string, a: seq<Byte>, t: string, b: seq<Byte>)
    requires Ascii(s) && Ascii(t) && EndsAtNewline(s) && EndsAtNewline(t) && |s| <= |t|
    requires Encoded(s) + a == Encoded(t) + b
    ensures s == t && a == b
  {
    var e := Encoded(s) + a;
    assert e[|s| - 1] == '\n' as int && e[|s| - 1] == t[|s| - 1] as int;
    assert |s| == |t|;
    forall i | 0 <= i < |s| ensures s[i] == t[i] { assert e[i] == s[i] as int && e[i] == t[i] as int; }
    assert e[|s|..] == a && e[|t|..] == b;
  }

  /** Preimages made for different purposes, or from different bytes, are different. */
  lemma PreimagesDiffer(p: Purpose, a: seq<Byte>, q: Purpose, b: seq<Byte>)
    requires Preimage(p, a) == Preimage(q, b)
    ensures p == q && a == b
  {
    DomainShape(p);
    DomainShape(q);
    hide Domain, Ascii, EndsAtNewline, Encoded;
    if |Domain(p)| <= |Domain(q)| { NewlinesMeet(Domain(p), a, Domain(q), b); } else { NewlinesMeet(Domain(q), b, Domain(p), a); }
  }

  /** `concatDomain`: a fresh buffer filled from two sources. */
  method ConcatDomain(prefix: seq<Byte>, bytes: array<Byte>) returns (result: array<Byte>)
    ensures fresh(result) && result[..] == prefix + bytes[..]
  {
    result := new Byte[|prefix| + bytes.Length](_ => 0);
    for i := 0 to |prefix|
      invariant forall k :: 0 <= k < i ==> result[k] == prefix[k]
    {
      result[i] := prefix[i];
    }
    for i := 0 to bytes.Length
      invariant forall k :: 0 <= k < |prefix| ==> result[k] == prefix[k]
      invariant forall k :: |prefix| <= k < |prefix| + i ==> result[k] == bytes[k - |prefix|]
    {
      result[|prefix| + i] := bytes[i];
    }
  }

  // ---------------------------------------------------------------- the signing envelope

  /** Four bytes, most significant first. */
  function Uint32(n: nat): seq<Byte>
    requires n < 0x1_0000_0000
  {
    [n / 0x100_0000, n / 0x1_0000 % 0x100, n / 0x100 % 0x100, n % 0x100]
  }

  function Envelope(bytes: seq<Byte>): seq<Byte>
    requires |bytes| <= MAX_PROTOCOL_BYTES
  {
    [0x05, 0x01] + Uint32(|bytes|) + bytes
  }

  function Uint32Value(t: seq<Byte>): nat
    requires |t| == 4
  {
    ((t[0] as int * 0x100 + t[1] as int) * 0x100 + t[2] as int) * 0x100 + t[3] as int
  }

  lemma Uint32Undone(n: nat)
    requires n < 0x1_0000_0000
    ensures Uint32Value(Uint32(n)) == n
  {
    assert n / 0x1_0000 == n / 0x100_0000 * 0x100 + n / 0x1_0000 % 0x100;
    assert n / 0x100 == n / 0x1_0000 * 0x100 + n / 0x100 % 0x100;
  }

  /** What a wallet signs for one challenge is never the beginning of what it signs for another. */
  lemma EnvelopesDiffer(a: seq<Byte>, x: seq<Byte>, b: seq<Byte>, y: seq<Byte>)
    requires |a| <= MAX_PROTOCOL_BYTES && |b| <= MAX_PROTOCOL_BYTES
    requires Envelope(a) + x == Envelope(b) + y
    ensures a == b && x == y
  {
    var e := Envelope(a) + x;
    assert e[2..6] == Uint32(|a|) && e[2..6] == Uint32(|b|);
    Uint32Undone(|a|);
    Uint32Undone(|b|);
    hide Uint32, Uint32Value;
    assert e[6..6 + |a|] == a && e[6..6 + |b|] == b;
    assert e[6 + |a|..] == x && e[6 + |b|..] == y;
  }

  /** `walletSigningBytes`: tag bytes, big-endian length, challenge bytes. */
  method WalletSigningBytes(challenge: array<Byte>) returns (result: array<Byte>)
    requires challenge.Length <= MAX_PROTOCOL_BYTES
    ensures fresh(result) && result[..] == Envelope(challenge[..])
  {
    var n := challenge.Length;
    result := new Byte[6 + n](_ => 0);
    result[0], result[1] := 0x05, 0x01;
    result[2], result[3], result[4], result[5] := n / 0x100_0000, n / 0x1_0000 % 0x100, n / 0x100 % 0x100, n % 0x100;
    ghost var header := [0x05, 0x01] + Uint32(n);
    for i := 0 to n
      invariant forall k :: 0 <= k < 6 ==> result[k] == header[k]
      invariant forall k :: 6 <= k < 6 + i ==> result[k] == challenge[k - 6]
    {
      result[6 + i] := challenge[i];
    }
  }

  // ---------------------------------------------------------------- the frames, byte by byte

  /** A purpose is announced by its own line of text, and the bytes follow. */
  lemma PreimageMeans(p: Purpose, bytes: seq<Byte>)
    ensures var line := match p
              case ClaimIntent => "samurai-sushi:claim-intent:v1\n"
              case SessionRecovery => "samurai-sushi:claim-session-recovery-intent:v1\n"
              case PlayerDeletion => "samurai-sushi:player-deletion-intent:v1\n"
              case ClaimChallenge => "samurai-sushi:claim-challenge-hash:v1\n";
            && |Preimage(p, bytes)| == |line| + |bytes| && Preimage(p, bytes)[|line|..] == bytes
            && forall i :: 0 <= i < |line| ==> Preimage(p, bytes)[i] == line[i] as int
  {
    DomainShape(p);
    hide Ascii, EndsAtNewline;
  }

  /** Two tag bytes, the length as a number to the base 256, the bytes. */
  lemma EnvelopeMeans(bytes: seq<Byte>)
    requires |bytes| <= 65536
    ensures |Envelope(bytes)| == 6 + |bytes| && Envelope(bytes)[0] == 5 && Envelope(bytes)[1] == 1 && Envelope(bytes)[6..] == bytes
    ensures Envelope(bytes)[2] as int * 16777216 + Envelope(bytes)[3] as int * 65536 + Envelope(bytes)[4] as int * 256 + Envelope(bytes)[5] as int == |bytes|
  {
    Uint32Undone(|bytes|);
    assert Envelope(bytes)[2..6] == Uint32(|bytes|);
    hide Uint32;
  }
}
