/** The canonical byte form of the protocol's messages: one text per message, and nothing else is accepted for it. */
module ClaimBytes {
  import opened Basics
  import opened JsonText
  import opened JsonValue
  import opened StrictJson
  import opened JsonRoundTrip
  import CanonicalJson
  import ClaimFraming
  import CommandTrees
  import Preflight

  /** One of the protocol's message parsers: it copies, checks and keeps the fields of its message. */
  type MessageParser = Json -> Option<Json>

  /** What a parser returns it accepts again, unchanged. */
  ghost predicate Keeps(parser: MessageParser) {
    forall j, v :: parser(j) == Some(v) ==> parser(v) == Some(v)
  }

  /** The platform's `JSON.parse` reads every text the strict parser reads, alike, whatever limits that one is given. */
  ghost predicate Reads(read: Text -> Option<Json>) {
    forall l, finite, text, v {:trigger Parse(l, finite, text), Integral(v)} :: Parse(l, finite, text) == Some(v) && Integral(v) ==> read(text) == Some(v)
  }

  /** Strings and keys are well formed, no key is reserved and numbers are safe integers: some limits admit the value. */
  ghost predicate Plain(v: Json) {
    Integral(v) && exists l, finite :: Admitted(l, finite, v)
  }

  ghost predicate Admitted(l: Limits, finite: Text -> bool, v: Json) {
    Fits(l, finite, v, 0) && Count(v) <= l.nodes
  }

  /** `canonicalBytes` of a checked message. */
  ghost function CanonicalOf(parser: MessageParser, input: Json): Option<Text> {
    match parser(input)
    case None => None
    case Some(v) => if CanonicalJson.Acceptable(v) && Preflight.Utf8Length(Print(v)) <= ClaimFraming.MAX_PROTOCOL_BYTES then Some(Print(v)) else None
  }

  /** `parseCanonicalBytes`, on the decoded text. */
  ghost function ParseCanonical(read: Text -> Option<Json>, parser: MessageParser, text: Text): Option<Json> {
    if Preflight.Utf8Length(text) > ClaimFraming.MAX_PROTOCOL_BYTES then None
    else
      match read(text)
      case None => None
      case Some(input) =>
        match parser(input)
        case None => None
        case Some(v) => if CanonicalJson.Acceptable(v) && Print(v) == text then Some(v) else None
  }

  /** The printed text of a plain value is read back as that value by the platform. */
  lemma PrintedIsRead(read: Text -> Option<Json>, v: Json)
    requires Reads(read) && Plain(v)
    ensures read(Print(v)) == Some(v)
  {
    hide Fits, Count, Print, Integral, Parse;
    var l, finite :| Admitted(l, finite, v);
    RoundTrip(l, finite, v);
  }

  /** A message has exactly one accepted text, its canonical one, and has it exactly when its parser accepts it within the size limit. */
  lemma CanonicalBytesIff(read: Text -> Option<Json>, parser: MessageParser, text: Text, v: Json)
    requires Reads(read) && Keeps(parser) && Plain(v)
    ensures ParseCanonical(read, parser, text) == Some(v) <==> parser(v) == Some(v) && CanonicalOf(parser, v) == Some(text)
  {
    PrintedIsRead(read, v);
    hide Plain, Reads, Print, CanonicalJson.Acceptable, Preflight.Utf8Length;
  }

  /** What is written for a message is read back as that message. */
  lemma CanonicalBytesRoundTrip(read: Text -> Option<Json>, parser: MessageParser, input: Json, text: Text)
    requires Reads(read) && Keeps(parser) && CanonicalOf(parser, input) == Some(text) && Plain(parser(input).value)
    ensures ParseCanonical(read, parser, text) == parser(input)
  {
    CanonicalBytesIff(read, parser, text, parser(input).value);
    hide Plain, Reads, Print, CanonicalJson.Acceptable, Preflight.Utf8Length, ParseCanonical;
  }

  /** A message has canonical bytes exactly when its parser keeps a printable value whose text takes at most 64 KiB. */
  lemma CanonicalExactly(parser: MessageParser, input: Json, text: Text)
    ensures CanonicalOf(parser, input) == Some(text) <==>
      exists v :: parser(input) == Some(v) && CanonicalJson.Acceptable(v) && text == Print(v) && |CommandTrees.Utf8(text)| <= 65536
  {
    CommandTrees.Utf8LengthMeans(text);
    hide Print, CanonicalJson.Acceptable, Preflight.Utf8Length, CommandTrees.Utf8;
  }
}
