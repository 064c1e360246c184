/**
 * Relay frames of visitor rooms: a flat JSON event, sealed with the room key, inside a second flat
 * JSON object. The cipher is a parameter; what is assumed of it is that sealing a C string gives
 * base64 of the right length and that opening that under the same key gives the string back.
 */
module Relay {
  import opened Common
  import opened Decimals
  import opened JsonText
  import opened JsonReader
  import opened JsonWriter
  import opened JsonRoundTrip

  const MSG_ID_SIZE := 128
  const SENDER_SIZE := 128
  const TEXT_SIZE := 10000
  const EMOJI_SIZE := 64
  /** The inner event's buffer, the plaintext buffer of the receiver, the ciphertext buffer. */
  const ENVELOPE_MAX := 10256
  const PLAINTEXT_MAX := 10000
  const CIPHERTEXT_MAX := 13357
  /** Room for any frame, as the header promises. */
  const PAYLOAD_MAX := 13485
  const NONCE_LENGTH := 32
  const EVENT_ID_LENGTH := 64

  type Key = seq<byte>

  // ---- the cipher --------------------------------------------------------------------------------------------

  /** What base64 and the box say of a ciphertext: not a box, or a box of that length that may be forged. */
  datatype Opened = Malformed | Box(length: nat, content: Option<string>)

  datatype Cipher = Cipher(seal: (Key, string, string) -> string, open: (Key, string, string) -> Opened)

  predicate Base64(s: string) {
    forall i :: 0 <= i < |s| ==>
      'A' <= s[i] <= 'Z' || 'a' <= s[i] <= 'z' || '0' <= s[i] <= '9' || s[i] == '+' || s[i] == '/' || s[i] == '='
  }

  /** Characters of a sealed text: sixteen bytes of tag, in base64. */
  function SealedLength(plain: nat): nat {
    4 * ((plain + 18) / 3)
  }

  /** Sealing gives base64 of the right length, which opens under the same key. */
  ghost predicate Sound(cipher: Cipher) {
    forall key: Key, nonce: string, plain: string {:trigger cipher.seal(key, nonce, plain)} ::
      |nonce| == NONCE_LENGTH && Base64(nonce) && IsCString(plain) && plain != "" ==>
        var sealed := cipher.seal(key, nonce, plain);
        && |sealed| == SealedLength(|plain|) && Base64(sealed)
        && cipher.open(key, nonce, sealed) == Box(|plain|, Some(plain))
  }

  method Encrypt(cipher: Cipher, key: Key, nonce: string, plain: string, size: nat) returns (status: Status, sealed: string)
    ensures status == if size < SealedLength(|plain|) + 1 then BufferTooSmall else Ok
    ensures status == Ok ==> sealed == cipher.seal(key, nonce, plain)
  {
    if size < 4 * ((|plain| + 16 + 2) / 3) + 1 {
      return BufferTooSmall, "";
    }
    return Ok, cipher.seal(key, nonce, plain);
  }

  /** The plaintext as a C string, or why there is none. */
  function Decrypted(cipher: Cipher, key: Key, nonce: string, sealed: string, size: nat): (Status, string) {
    match cipher.open(key, nonce, sealed)
    case Malformed => (Encoding, "")
    case Box(length, content) =>
      if size < length + 1 then (BufferTooSmall, "")
      else if content == None then (Crypto, "")
      else (Ok, CString(content.value))
  }

  // ---- frames --------------------------------------------------------------------------------------------------

  function FrameFields(nonce: string, sealed: string): seq<Field> {
    [Field("nonce", Text(nonce)), Field("ciphertext", Text(sealed))]
  }

  /** The payload that carries an inner text. */
  function FrameText(cipher: Cipher, print_: Printer, key: Key, nonce: string, inner: string): string {
    ObjectText(print_, FrameFields(nonce, cipher.seal(key, nonce, inner)))
  }

  /** The plaintext behind a parsed payload. */
  function PlainBehind(cipher: Cipher, key: Key, envelope: Option<seq<Field>>): (Status, string) {
    if envelope == None then (Encoding, "")
    else
      var nonce, sealed := GetString(envelope.value, "nonce"), GetString(envelope.value, "ciphertext");
      if nonce == None || sealed == None then (Encoding, "")
      else Decrypted(cipher, key, nonce.value, sealed.value, PLAINTEXT_MAX)
  }

  function Answer(event: Option<seq<Field>>): (Status, seq<Field>) {
    if event == None then (Encoding, []) else (Ok, event.value)
  }

  /** The event behind a payload: a status, and the fields if it is `Ok`. */
  function FrameEvent(cipher: Cipher, strtod: Strtod, key: Key, payload: string): (Status, seq<Field>) {
    var (status, plain) := PlainBehind(cipher, key, Parse(strtod, payload));
    if status != Ok then (status, []) else Answer(Parse(strtod, plain))
  }

  /** The ciphertext buffer takes 10001 characters, and the frame must fit behind that. */
  ghost predicate Sealed(status: Status, inner: string, frame: string, payload: array<char>)
    reads payload
  {
    && status == (if |inner| <= 10001 && |frame| + 1 <= payload.Length then Ok else BufferTooSmall)
    && (status == Ok ==> payload[..|frame| + 1] == frame + [NUL])
  }

  /** Seals an event into a payload; the nonce is fresh randomness. */
  method SealFrame(cipher: Cipher, print_: Printer, key: Key, nonce: string, inner: string, payload: array<char>)
    returns (status: Status)
    requires Sound(cipher) && |nonce| == NONCE_LENGTH && Base64(nonce) && IsCString(inner) && inner != ""
    modifies payload
    ensures Sealed(status, inner, FrameText(cipher, print_, key, nonce, inner), payload)
  {
    Limit(|inner|);
    var sealed;
    status, sealed := Encrypt(cipher, key, nonce, inner, CIPHERTEXT_MAX);
    if status != Ok {
      return;
    }
    SealedBase64(cipher, key, nonce, inner);
    FramePrintable(nonce, sealed);
    var ok := WriteObject(print_, FrameFields(nonce, sealed), payload);
    status := if ok then Ok else BufferTooSmall;
  }

  /** The longest text the ciphertext buffer takes. */
  lemma Limit(n: nat)
    ensures SealedLength(n) + 1 <= CIPHERTEXT_MAX <==> n <= 10001
  {
  }

  lemma SealedBase64(cipher: Cipher, key: Key, nonce: string, plain: string)
    requires Sound(cipher) && |nonce| == NONCE_LENGTH && Base64(nonce) && IsCString(plain) && plain != ""
    ensures
      var sealed := cipher.seal(key, nonce, plain);
      && |sealed| == SealedLength(|plain|) && Base64(sealed)
      && cipher.open(key, nonce, sealed) == Box(|plain|, Some(plain))
  {
  }

  lemma FramePrintable(nonce: string, sealed: string)
    requires Base64(nonce) && Base64(sealed)
    ensures AllPrintable(FrameFields(nonce, sealed))
  {
  }

  method OpenFrame(cipher: Cipher, strtod: Strtod, key: Key, payload: string) returns (status: Status, event: seq<Field>)
    ensures (status, event) == FrameEvent(cipher, strtod, key, payload)
  {
    var envelope;
    status, envelope := ParseFlat(strtod, payload);
    if status != Ok {
      return status, [];
    }
    var nonce, sealed := GetString(envelope, "nonce"), GetString(envelope, "ciphertext");
    if nonce == None || sealed == None {
      return Encoding, [];
    }
    var (answer, plain) := Decrypted(cipher, key, nonce.value, sealed.value, PLAINTEXT_MAX);
    if answer != Ok {
      return answer, [];
    }
    status, event := ParseFlat(strtod, plain);
  }

  /**
   * A frame sealed under a key opens under it to the event it was built from exactly when the
   * event's text leaves room for a terminator in the receiver's buffer; a longer one is refused.
   */
  lemma FrameOpens(cipher: Cipher, strtod: Strtod, print_: Printer, key: Key, nonce: string, event: seq<Field>, inner: string)
    requires Sound(cipher) && ReadsIntegers(strtod) && |nonce| == NONCE_LENGTH && Base64(nonce)
    requires AllPrintable(event) && |event| <= MAX_FIELDS && inner == ObjectText(print_, event)
    ensures FrameEvent(cipher, strtod, key, FrameText(cipher, print_, key, nonce, inner))
         == if |inner| < PLAINTEXT_MAX then (Ok, event) else (BufferTooSmall, [])
  {
    var sealed := cipher.seal(key, nonce, inner);
    ObjectCString(print_, event);
    SealedBase64(cipher, key, nonce, inner);
    FramePrintable(nonce, sealed);
    RoundTrip(strtod, print_, FrameFields(nonce, sealed));
    FrameStrings(nonce, sealed);
    Absent(inner, NUL);
    RoundTrip(strtod, print_, event);
    PlainOfFrame(cipher, key, FrameFields(nonce, sealed), nonce, sealed, inner);
  }

  lemma PlainOfFrame(cipher: Cipher, key: Key, envelope: seq<Field>, nonce: string, sealed: string, plain: string)
    requires GetString(envelope, "nonce") == Some(nonce) && GetString(envelope, "ciphertext") == Some(sealed)
    requires cipher.open(key, nonce, sealed) == Box(|plain|, Some(plain)) && CString(plain) == plain
    ensures PlainBehind(cipher, key, Some(envelope)) == if |plain| < PLAINTEXT_MAX then (Ok, plain) else (BufferTooSmall, "")
  {
  }

  lemma FrameStrings(nonce: string, sealed: string)
    ensures GetString(FrameFields(nonce, sealed), "nonce") == Some(nonce)
    ensures GetString(FrameFields(nonce, sealed), "ciphertext") == Some(sealed)
  {
    var fields := FrameFields(nonce, sealed);
    assert fields[1..] == [Field("ciphertext", Text(sealed))];
    assert |"nonce"| != |"ciphertext"|;
  }

  // ---- chat lines -------------------------------------------------------------------------------------------------

  /** Milliseconds a double holds and prints exactly. */
  type Timestamp = x: nat | x < 1_000_000_000_000_000

  datatype TextEvent = TextEvent(msgId: string, sender: string, text: string, timestamp: Timestamp)

  predicate TextStored(e: TextEvent) {
    Stored(e.msgId, MSG_ID_SIZE) && Stored(e.sender, SENDER_SIZE) && Stored(e.text, TEXT_SIZE)
  }

  function TextFields(e: TextEvent): seq<Field> {
    [Field("msgId", Text(e.msgId)), Field("sender", Text(e.sender)), Field("text", Text(e.text)),
     Field("ts", Number(e.timestamp as real))]
  }

  /** A positive number as an unsigned integer; anything else is no time at all. */
  function Milliseconds(number: Option<real>): nat {
    if number == None || number.value <= 0.0 then 0 else number.value.Floor
  }

  datatype TextResult = Refused(status: Status) | Received(msgId: string, sender: string, text: string, timestamp: nat)

  /** The chat line in an event; a line without a text is refused. */
  function TextIn(event: seq<Field>): TextResult {
    if GetString(event, "text") == None then Refused(Encoding)
    else Received(Member(event, "msgId", MSG_ID_SIZE), Member(event, "sender", SENDER_SIZE), Member(event, "text", TEXT_SIZE),
                  Milliseconds(GetNumber(event, "ts")))
  }

  function TextOf(cipher: Cipher, strtod: Strtod, key: Key, payload: string): TextResult {
    var (status, event) := FrameEvent(cipher, strtod, key, payload);
    if status != Ok then Refused(status) else TextIn(event)
  }

  /** `msgId` and `nonce` are fresh randomness, `now` is the clock. */
  method BuildText(cipher: Cipher, print_: Printer, key: Key, sender: string, text: string, payload: array<char>,
                   msgId: string, nonce: string, now: Timestamp)
    returns (status: Status, event: TextEvent)
    requires Sound(cipher) && |nonce| == NONCE_LENGTH && Base64(nonce)
    requires |msgId| == EVENT_ID_LENGTH && IsCString(msgId) && IsCString(sender) && IsCString(text)
    modifies payload
    ensures event == TextEvent(msgId, CopyBounded(SENDER_SIZE, sender), CopyBounded(TEXT_SIZE, text), now) && TextStored(event)
    ensures AllWritable(TextFields(event))
    ensures
      var inner := ObjectText(print_, TextFields(event));
      Sealed(status, inner, FrameText(cipher, print_, key, nonce, inner), payload)
  {
    event := TextEvent(msgId, CopyBounded(SENDER_SIZE, sender), CopyBounded(TEXT_SIZE, text), now);
    TextPrintable(event);
    status := SendEvent(cipher, print_, key, nonce, TextFields(event), payload);
  }

  /** Prints an event into the inner buffer and seals it. */
  method SendEvent(cipher: Cipher, print_: Printer, key: Key, nonce: string, fields: seq<Field>, payload: array<char>)
    returns (status: Status)
    requires Sound(cipher) && |nonce| == NONCE_LENGTH && Base64(nonce) && AllPrintable(fields)
    modifies payload
    ensures
      var inner := ObjectText(print_, fields);
      Sealed(status, inner, FrameText(cipher, print_, key, nonce, inner), payload)
  {
    var ok, inner := PrintEvent(print_, fields);
    if !ok {
      return BufferTooSmall;
    }
    ObjectCString(print_, fields);
    status := SealFrame(cipher, print_, key, nonce, inner, payload);
  }

  /** An event as the C string in the inner buffer. */
  method PrintEvent(print_: Printer, fields: seq<Field>) returns (ok: bool, inner: string)
    requires AllPrintable(fields)
    ensures ok <==> |ObjectText(print_, fields)| < ENVELOPE_MAX
    ensures ok ==> inner == ObjectText(print_, fields)
  {
    var json := new char[ENVELOPE_MAX](_ => NUL);
    ok := WriteObject(print_, fields, json);
    if !ok {
      return false, "";
    }
    ObjectCString(print_, fields);
    inner := Contents(json, ObjectText(print_, fields));
  }

  /** The C string in a buffer. */
  method Contents(buffer: array<char>, ghost content: string) returns (text: string)
    requires IsCString(content) && |content| < buffer.Length && buffer[..|content| + 1] == content + [NUL]
    ensures text == content
  {
    assert buffer[|content|] == buffer[..|content| + 1][|content|];
    assert forall i :: 0 <= i < |content| ==> buffer[i] == buffer[..|content| + 1][i] == content[i];
    var length := 0;
    while buffer[length] != NUL
      invariant length <= |content|
      decreases |content| - length
    {
      length := length + 1;
    }
    text := buffer[..length];
  }

  lemma TextPrintable(e: TextEvent)
    requires TextStored(e)
    ensures AllPrintable(TextFields(e)) && AllWritable(TextFields(e)) && |TextFields(e)| <= MAX_FIELDS
  {
    var x := e.timestamp as real;
    assert x.Floor == e.timestamp;
  }

  method ParseText(cipher: Cipher, strtod: Strtod, key: Key, payload: string) returns (result: TextResult)
    ensures result == TextOf(cipher, strtod, key, payload)
  {
    var status, event := OpenFrame(cipher, strtod, key, payload);
    if status != Ok {
      return Refused(status);
    }
    return TextIn(event);
  }

  lemma TextRead(e: TextEvent)
    requires TextStored(e)
    ensures TextIn(TextFields(e)) == Received(e.msgId, e.sender, e.text, e.timestamp)
  {
    var f0 := TextFields(e);
    var f1, f2, f3 := f0[1..], f0[2..], f0[3..];
    assert f1[1..] == f2 && f2[1..] == f3;
    assert |"msgId"| == 5 && |"sender"| == 6 && |"text"| == 4;
    assert GetString(f1, "sender") == Some(e.sender) && GetString(f1, "text") == GetString(f2, "text") == Some(e.text);
    assert GetNumber(f1, "ts") == GetNumber(f2, "ts") == GetNumber(f3, "ts") == Some(e.timestamp as real);
    var x := e.timestamp as real;
    assert x.Floor == e.timestamp;
  }

  /**
   * Parsing a built chat line under its key gives back all four members if and only if the event's
   * text has at most 9999 characters; the two lengths above that are still built, and then refused.
   */
  lemma TextRoundTrip(cipher: Cipher, strtod: Strtod, print_: Printer, key: Key, nonce: string, e: TextEvent, inner: string)
    requires Sound(cipher) && ReadsIntegers(strtod) && |nonce| == NONCE_LENGTH && Base64(nonce) && TextStored(e)
    requires AllWritable(TextFields(e)) && inner == ObjectText(print_, TextFields(e))
    ensures TextOf(cipher, strtod, key, FrameText(cipher, print_, key, nonce, inner))
         == if |inner| <= 9999 then Received(e.msgId, e.sender, e.text, e.timestamp) else Refused(BufferTooSmall)
  {
    TextPrintable(e);
    FrameOpens(cipher, strtod, print_, key, nonce, TextFields(e), inner);
    TextRead(e);
  }

  lemma ObjectOfFour(print_: Printer, a: Field, b: Field, c: Field, d: Field)
    requires Writable(a.value) && Writable(b.value) && Writable(c.value) && Writable(d.value)
    ensures AllWritable([a, b, c, d])
    ensures |ObjectText(print_, [a, b, c, d])|
         == 5 + |FieldText(print_, a)| + |FieldText(print_, b)| + |FieldText(print_, c)| + |FieldText(print_, d)|
  {
    FieldsTextSnoc(print_, [], a);
    FieldsTextSnoc(print_, [a], b);
    FieldsTextSnoc(print_, [a, b], c);
    FieldsTextSnoc(print_, [a, b, c], d);
    assert [] + [a] == [a] && [a] + [b] == [a, b] && [a, b] + [c] == [a, b, c] && [a, b, c] + [d] == [a, b, c, d];
  }

  lemma TextLength(print_: Printer, key: string, text: string)
    requires Unescaped(key)
    ensures |FieldText(print_, Field(key, Text(text)))| == |key| + |Escaped(text)| + 5
  {
    EscapedUnescaped(key);
  }

  lemma PlainKeys()
    ensures Unescaped("msgId") && Unescaped("sender") && Unescaped("text") && Unescaped("ts")
    ensures Unescaped("nonce") && Unescaped("ciphertext")
  {
  }

  lemma TimeLength(print_: Printer, t: Timestamp)
    ensures |FieldText(print_, Field("ts", Number(t as real)))| == 5 + |IntText(t)|
  {
    PlainKeys();
    EscapedUnescaped("ts");
    var x := t as real;
    assert x.Floor == t;
  }

  /** How long the inner text is: forty marks and key characters, and the members as escaped. */
  lemma InnerLength(print_: Printer, e: TextEvent)
    requires TextStored(e)
    ensures AllWritable(TextFields(e))
    ensures |ObjectText(print_, TextFields(e))|
         == 40 + |Escaped(e.msgId)| + |Escaped(e.sender)| + |Escaped(e.text)| + |IntText(e.timestamp)|
  {
    PlainKeys();
    TextLength(print_, "msgId", e.msgId);
    TextLength(print_, "sender", e.sender);
    TextLength(print_, "text", e.text);
    TimeLength(print_, e.timestamp);
    var f := TextFields(e);
    ObjectOfFour(print_, f[0], f[1], f[2], f[3]);
    assert f == [f[0], f[1], f[2], f[3]];
  }

  /** The promised payload size takes every frame that can be built. */
  lemma PayloadFits(cipher: Cipher, print_: Printer, key: Key, nonce: string, inner: string)
    requires Sound(cipher) && |nonce| == NONCE_LENGTH && Base64(nonce) && IsCString(inner)
    requires inner != "" && |inner| <= 10001
    ensures |FrameText(cipher, print_, key, nonce, inner)| + 1 <= PAYLOAD_MAX
  {
    var sealed := cipher.seal(key, nonce, inner);
    SealedBase64(cipher, key, nonce, inner);
    Limit(|inner|);
    EscapedUnescaped(nonce);
    EscapedUnescaped(sealed);
    PlainKeys();
    TextLength(print_, "nonce", nonce);
    TextLength(print_, "ciphertext", sealed);
    ObjectOfTwo(print_, Field("nonce", Text(nonce)), Field("ciphertext", Text(sealed)));
  }

  lemma ObjectOfTwo(print_: Printer, a: Field, b: Field)
    requires Writable(a.value) && Writable(b.value)
    ensures AllWritable([a, b])
    ensures |ObjectText(print_, [a, b])| == 3 + |FieldText(print_, a)| + |FieldText(print_, b)|
  {
    FieldsTextSnoc(print_, [], a);
    FieldsTextSnoc(print_, [a], b);
    assert [] + [a] == [a] && [a] + [b] == [a, b];
  }

  /** A chat line of legal length that any sufficient buffer takes and every receiver refuses. */
  lemma LongTextRefused(cipher: Cipher, strtod: Strtod, print_: Printer, key: Key, nonce: string, e: TextEvent, size: nat)
    requires Sound(cipher) && ReadsIntegers(strtod) && |nonce| == NONCE_LENGTH && Base64(nonce) && TextStored(e)
    requires Unescaped(e.msgId) && |e.msgId| == EVENT_ID_LENGTH && e.sender == "" && Unescaped(e.text) && |e.text| == 9883
    requires PowerOfTen(12) <= e.timestamp < PowerOfTen(13) && size >= PAYLOAD_MAX
    ensures AllWritable(TextFields(e))
    ensures
      var inner := ObjectText(print_, TextFields(e));
      var frame := FrameText(cipher, print_, key, nonce, inner);
      |inner| <= 10001 && |frame| + 1 <= size && TextOf(cipher, strtod, key, frame) == Refused(BufferTooSmall)
  {
    InnerLength(print_, e);
    EscapedUnescaped(e.msgId);
    EscapedUnescaped(e.text);
    PrintNatLength(e.timestamp, 13);
    var inner := ObjectText(print_, TextFields(e));
    TextPrintable(e);
    ObjectCString(print_, TextFields(e));
    PayloadFits(cipher, print_, key, nonce, inner);
    TextRoundTrip(cipher, strtod, print_, key, nonce, e, inner);
  }

  // ---- reactions ----------------------------------------------------------------------------------------------------

  /** No emoji clears the reaction. */
  datatype Reaction = Reaction(msgId: string, emoji: Option<string>)

  datatype ReactionResult = RefusedReaction(status: Status) | ReceivedReaction(reaction: Reaction)

  /** Any C strings may be sent. */
  predicate Sendable(r: Reaction) {
    IsCString(r.msgId) && (r.emoji.Some? ==> IsCString(r.emoji.value))
  }

  /** A receiver keeps what fits its buffers. */
  function ReactionReceived(r: Reaction): Reaction {
    Reaction(CopyBounded(MSG_ID_SIZE, r.msgId),
             if r.emoji == None then None else Some(CopyBounded(EMOJI_SIZE, r.emoji.value)))
  }

  function ReactionFields(r: Reaction): seq<Field> {
    [Field("msgId", Text(r.msgId)), Field("emoji", if r.emoji == None then Null else Text(r.emoji.value))]
  }

  function ReactionIn(event: seq<Field>): ReactionResult {
    if GetString(event, "msgId") == None then RefusedReaction(Encoding)
    else
      var emoji := GetString(event, "emoji");
      ReceivedReaction(Reaction(Member(event, "msgId", MSG_ID_SIZE),
                                if emoji == None then None else Some(CopyBounded(EMOJI_SIZE, emoji.value))))
  }

  function ReactionOf(cipher: Cipher, strtod: Strtod, key: Key, payload: string): ReactionResult {
    var (status, event) := FrameEvent(cipher, strtod, key, payload);
    if status != Ok then RefusedReaction(status) else ReactionIn(event)
  }

  method BuildReaction(cipher: Cipher, print_: Printer, key: Key, r: Reaction, payload: array<char>, nonce: string)
    returns (status: Status)
    requires Sound(cipher) && |nonce| == NONCE_LENGTH && Base64(nonce) && Sendable(r)
    modifies payload
    ensures AllWritable(ReactionFields(r))
    ensures
      var inner := ObjectText(print_, ReactionFields(r));
      Sealed(status, inner, FrameText(cipher, print_, key, nonce, inner), payload)
  {
    ReactionPrintable(r);
    status := SendEvent(cipher, print_, key, nonce, ReactionFields(r), payload);
  }

  method ParseReaction(cipher: Cipher, strtod: Strtod, key: Key, payload: string) returns (result: ReactionResult)
    ensures result == ReactionOf(cipher, strtod, key, payload)
  {
    var status, event := OpenFrame(cipher, strtod, key, payload);
    if status != Ok {
      return RefusedReaction(status);
    }
    return ReactionIn(event);
  }

  /** A reaction and a cleared reaction both arrive as sent, cut to the receiver's buffers. */
  lemma ReactionRoundTrip(cipher: Cipher, strtod: Strtod, print_: Printer, key: Key, nonce: string, r: Reaction, inner: string)
    requires Sound(cipher) && ReadsIntegers(strtod) && |nonce| == NONCE_LENGTH && Base64(nonce) && Sendable(r)
    requires AllWritable(ReactionFields(r)) && inner == ObjectText(print_, ReactionFields(r))
    ensures ReactionOf(cipher, strtod, key, FrameText(cipher, print_, key, nonce, inner))
         == if |inner| <= 9999 then ReceivedReaction(ReactionReceived(r)) else RefusedReaction(BufferTooSmall)
  {
    ReactionPrintable(r);
    FrameOpens(cipher, strtod, print_, key, nonce, ReactionFields(r), inner);
    ReactionRead(r);
  }

  lemma ReactionPrintable(r: Reaction)
    requires Sendable(r)
    ensures AllPrintable(ReactionFields(r)) && |ReactionFields(r)| <= MAX_FIELDS
  {
  }

  lemma ReactionRead(r: Reaction)
    requires Sendable(r)
    ensures ReactionIn(ReactionFields(r)) == ReceivedReaction(ReactionReceived(r))
  {
    var fields := ReactionFields(r);
    var rest := fields[1..];
    assert "msgId"[0] == 'm' && "emoji"[0] == 'e';
    assert rest == [fields[1]] && rest[1..] == [];
    assert GetString(rest, "emoji") == r.emoji;
  }
}
