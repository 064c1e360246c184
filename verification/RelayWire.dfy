/**
 * Relay frames as they stand on the wire, with the names of their members written out: what a sender
 * puts into a frame, and what a receiver makes of any payload at all.
 */
module RelayWire {
  import opened Common
  import opened JsonText
  import opened JsonReader
  import opened JsonWriter
  import opened JsonRoundTrip
  import opened Relay

  /** A parsed payload is one object of a nonce and a ciphertext, and the box opens to this inner text. */
  predicate Carries(cipher: Cipher, key: Key, nonce: string, outer: Option<seq<Field>>, inner: string) {
    && outer.Some? && |outer.value| == 2
    && GetString(outer.value, "nonce") == Some(nonce)
    && GetString(outer.value, "ciphertext").Some?
    && cipher.open(key, nonce, GetString(outer.value, "ciphertext").value) == Box(|inner|, Some(inner))
  }

  predicate TextNamed(fs: seq<Field>, e: TextEvent) {
    && |fs| == 4 && GetString(fs, "msgId") == Some(e.msgId) && GetString(fs, "sender") == Some(e.sender)
    && GetString(fs, "text") == Some(e.text) && GetNumber(fs, "ts") == Some(e.timestamp as real)
  }

  predicate ReactionNamed(fs: seq<Field>, r: Reaction) {
    && |fs| == 2 && GetString(fs, "msgId") == Some(r.msgId) && GetString(fs, "emoji") == r.emoji
    && (exists i :: 0 <= i < 2 && fs[i].key == "emoji")
  }

  /** A frame carries what was sealed. */
  lemma FrameCarries(cipher: Cipher, strtod: Strtod, print_: Printer, key: Key, nonce: string, inner: string)
    requires Sound(cipher) && ReadsIntegers(strtod) && |nonce| == 32 && Base64(nonce) && IsCString(inner) && inner != ""
    ensures Carries(cipher, key, nonce, Parse(strtod, FrameText(cipher, print_, key, nonce, inner)), inner)
  {
    var sealed := cipher.seal(key, nonce, inner);
    SealedBase64(cipher, key, nonce, inner);
    FramePrintable(nonce, sealed);
    RoundTrip(strtod, print_, FrameFields(nonce, sealed));
    FieldsCarry(cipher, key, nonce, sealed, inner);
  }

  lemma FieldsCarry(cipher: Cipher, key: Key, nonce: string, sealed: string, inner: string)
    requires cipher.open(key, nonce, sealed) == Box(|inner|, Some(inner))
    ensures Carries(cipher, key, nonce, Some(FrameFields(nonce, sealed)), inner)
  {
    FrameStrings(nonce, sealed);
  }

  /** A chat line on the wire: an object of four named members, sealed. */
  lemma TextWire(cipher: Cipher, strtod: Strtod, print_: Printer, key: Key, nonce: string, e: TextEvent, inner: string)
    requires Sound(cipher) && ReadsIntegers(strtod) && |nonce| == 32 && Base64(nonce) && TextStored(e)
    requires AllWritable(TextFields(e)) && inner == ObjectText(print_, TextFields(e))
    ensures Carries(cipher, key, nonce, Parse(strtod, FrameText(cipher, print_, key, nonce, inner)), inner)
    ensures Parse(strtod, inner).Some? && TextNamed(Parse(strtod, inner).value, e)
  {
    TextPrintable(e);
    ObjectCString(print_, TextFields(e));
    FrameCarries(cipher, strtod, print_, key, nonce, inner);
    RoundTrip(strtod, print_, TextFields(e));
    TextHasNames(e);
  }

  lemma TextHasNames(e: TextEvent)
    ensures TextNamed(TextFields(e), e)
  {
    var f0 := TextFields(e);
    var f1, f2, f3 := f0[1..], f0[2..], f0[3..];
    assert f1[1..] == f2 && f2[1..] == f3;
    assert |"msgId"| == 5 && |"sender"| == 6 && |"text"| == 4;
    assert GetString(f1, "sender") == Some(e.sender) && GetString(f1, "text") == GetString(f2, "text") == Some(e.text);
    assert GetNumber(f1, "ts") == GetNumber(f2, "ts") == GetNumber(f3, "ts") == Some(e.timestamp as real);
  }

  /** A reaction on the wire: the message it is about, and the emoji or null. */
  lemma ReactionWire(cipher: Cipher, strtod: Strtod, print_: Printer, key: Key, nonce: string, r: Reaction, inner: string)
    requires Sound(cipher) && ReadsIntegers(strtod) && |nonce| == 32 && Base64(nonce) && Sendable(r)
    requires AllWritable(ReactionFields(r)) && inner == ObjectText(print_, ReactionFields(r))
    ensures Carries(cipher, key, nonce, Parse(strtod, FrameText(cipher, print_, key, nonce, inner)), inner)
    ensures Parse(strtod, inner).Some? && ReactionNamed(Parse(strtod, inner).value, r)
  {
    ReactionPrintable(r);
    ObjectCString(print_, ReactionFields(r));
    FrameCarries(cipher, strtod, print_, key, nonce, inner);
    RoundTrip(strtod, print_, ReactionFields(r));
    ReactionHasNames(r);
  }

  lemma ReactionHasNames(r: Reaction)
    ensures ReactionNamed(ReactionFields(r), r)
  {
    var fields := ReactionFields(r);
    var rest := fields[1..];
    assert "msgId"[0] == 'm' && "emoji"[0] == 'e';
    assert rest == [fields[1]] && rest[1..] == [];
    assert GetString(rest, "emoji") == r.emoji;
  }

  // ---- what a receiver makes of any payload ---------------------------------------------------------------------

  type Parser = string -> Option<seq<Field>>

  /** The text of a sealed event, or why there is none: no frame, no box, too long for the receiver, or forged. */
  function Unsealed(cipher: Cipher, key: Key, outer: Option<seq<Field>>): (Status, string) {
    if outer == None || GetString(outer.value, "nonce") == None || GetString(outer.value, "ciphertext") == None
      then (Encoding, "")
    else
      match cipher.open(key, GetString(outer.value, "nonce").value, GetString(outer.value, "ciphertext").value)
      case Malformed => (Encoding, "")
      case Box(length, content) =>
        if length >= 10000 then (BufferTooSmall, "")
        else if content == None then (Crypto, "")
        else (Ok, CString(content.value))
  }

  /** The event of a payload: its status, and its fields. */
  function EventOf(cipher: Cipher, key: Key, outer: Option<seq<Field>>, parse: Parser): (Status, seq<Field>) {
    var (status, plain) := Unsealed(cipher, key, outer);
    if status != Ok then (status, [])
    else if parse(plain) == None then (Encoding, [])
    else (Ok, parse(plain).value)
  }

  function ParseWith(strtod: Strtod): Parser {
    text => Parse(strtod, text)
  }

  /** Every payload is refused for its reason, or read as the members its inner text names. */
  lemma TextExactly(cipher: Cipher, strtod: Strtod, key: Key, payload: string)
    ensures TextMeans(EventOf(cipher, key, Parse(strtod, payload), ParseWith(strtod)), TextOf(cipher, strtod, key, payload))
  {
    EventExactly(cipher, strtod, key, payload);
    TextMembers(FrameEvent(cipher, strtod, key, payload).1);
  }

  lemma EventExactly(cipher: Cipher, strtod: Strtod, key: Key, payload: string)
    ensures FrameEvent(cipher, strtod, key, payload) == EventOf(cipher, key, Parse(strtod, payload), ParseWith(strtod))
  {
    UnsealedExactly(cipher, key, Parse(strtod, payload));
  }

  lemma UnsealedExactly(cipher: Cipher, key: Key, outer: Option<seq<Field>>)
    ensures PlainBehind(cipher, key, outer) == Unsealed(cipher, key, outer)
  {
  }

  lemma TextMembers(fs: seq<Field>)
    ensures TextMeans((Ok, fs), TextIn(fs))
  {
  }

  predicate TextMeans(event: (Status, seq<Field>), result: TextResult) {
    var (status, fs) := event;
    if status != Ok then result == Refused(status)
    else if GetString(fs, "text") == None then result == Refused(Encoding)
    else
      && result.Received? && Taken(result.msgId, fs, "msgId", 128)
      && Taken(result.sender, fs, "sender", 128) && Taken(result.text, fs, "text", 10000)
      && (var ts := GetNumber(fs, "ts");
          result.timestamp == if ts.Some? && ts.value > 0.0 then ts.value.Floor else 0)
  }

  lemma ReactionExactly(cipher: Cipher, strtod: Strtod, key: Key, payload: string)
    ensures ReactionMeans(EventOf(cipher, key, Parse(strtod, payload), ParseWith(strtod)),
                          ReactionOf(cipher, strtod, key, payload))
  {
    EventExactly(cipher, strtod, key, payload);
    ReactionMembers(FrameEvent(cipher, strtod, key, payload).1);
  }

  lemma ReactionMembers(fs: seq<Field>)
    ensures ReactionMeans((Ok, fs), ReactionIn(fs))
  {
  }

  predicate ReactionMeans(event: (Status, seq<Field>), result: ReactionResult) {
    var (status, fs) := event;
    if status != Ok then result == RefusedReaction(status)
    else if GetString(fs, "msgId") == None then result == RefusedReaction(Encoding)
    else
      && result.ReceivedReaction? && Taken(result.reaction.msgId, fs, "msgId", 128)
      && (result.reaction.emoji == None <==> GetString(fs, "emoji") == None)
      && (result.reaction.emoji.Some? ==> Taken(result.reaction.emoji.value, fs, "emoji", 64))
  }
}
