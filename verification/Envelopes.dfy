/**
 * Structured message bodies: the three payment envelopes, what any body is taken for, and that
 * parsing a built envelope gives back what went in.
 */
module Envelopes {
  import opened Common
  import opened Classification
  import opened JsonText
  import opened JsonReader
  import opened JsonWriter
  import opened JsonRoundTrip

  const REQUEST_ID_SIZE := 40
  const TX_HASH_SIZE := 80
  const AMOUNT_SIZE := 32
  const CURRENCY_SIZE := 16
  const CURRENCY_ID_SIZE := 32
  const LEDGER_ADDRESS_SIZE := 64
  const IDENTITY_SIZE := 128
  const NOTE_SIZE := 256
  /** What the header offers callers as room for any payment envelope. */
  const PAYMENT_CONTENT_SIZE := 1024

  // ---- the payments -----------------------------------------------------------------------------------------

  datatype Request = Request(requestId: string, amount: string, currency: string, currencyId: string,
                             note: Option<string>, to: string, toIdentityKey: string)

  datatype Receipt = Receipt(requestId: string, txHash: string, amount: string, currency: string, currencyId: string,
                             from: string, fromIdentityKey: string)

  datatype Sent = Sent(id: string, txHash: string, amount: string, currency: string, currencyId: string,
                       note: Option<string>, from: string, fromIdentityKey: string, to: string, toIdentityKey: string)

  /** A body that carries no payment is its own text; the fields of audio bodies are not modelled. */
  datatype Content =
    | OfText
    | OfAudio
    | OfUnknown
    | OfRequest(request: Request)
    | OfReceipt(receipt: Receipt)
    | OfSent(sent: Sent)

  function CurrencyIdIn(fields: seq<Field>): string {
    if Member(fields, "currencyId", CURRENCY_ID_SIZE) == "" then "XAH" else Member(fields, "currencyId", CURRENCY_ID_SIZE)
  }

  function NoteIn(fields: seq<Field>): Option<string> {
    var value := GetString(fields, "note");
    if value == None || value.value == "" then None else Some(CopyBounded(NOTE_SIZE, value.value))
  }

  function RequestIn(fields: seq<Field>): Request {
    Request(Member(fields, "requestId", REQUEST_ID_SIZE), Member(fields, "amount", AMOUNT_SIZE),
            Member(fields, "currency", CURRENCY_SIZE), CurrencyIdIn(fields), NoteIn(fields),
            Member(fields, "to", LEDGER_ADDRESS_SIZE), Member(fields, "toIdentityKey", IDENTITY_SIZE))
  }

  function ReceiptIn(fields: seq<Field>): Receipt {
    Receipt(Member(fields, "requestId", REQUEST_ID_SIZE), Member(fields, "txHash", TX_HASH_SIZE),
            Member(fields, "amount", AMOUNT_SIZE), Member(fields, "currency", CURRENCY_SIZE), CurrencyIdIn(fields),
            Member(fields, "from", LEDGER_ADDRESS_SIZE), Member(fields, "fromIdentityKey", IDENTITY_SIZE))
  }

  function SentIn(fields: seq<Field>): Sent {
    Sent(Member(fields, "id", REQUEST_ID_SIZE), Member(fields, "txHash", TX_HASH_SIZE),
         Member(fields, "amount", AMOUNT_SIZE), Member(fields, "currency", CURRENCY_SIZE), CurrencyIdIn(fields), NoteIn(fields),
         Member(fields, "from", LEDGER_ADDRESS_SIZE), Member(fields, "fromIdentityKey", IDENTITY_SIZE),
         Member(fields, "to", LEDGER_ADDRESS_SIZE), Member(fields, "toIdentityKey", IDENTITY_SIZE))
  }

  /** A missing currency id is that of the ledger's own currency; an empty note is none. */
  predicate CommonTaken(fs: seq<Field>, currencyId: string, note: Option<string>) {
    && (if GetString(fs, "currencyId") in {None, Some("")} then currencyId == "XAH" else Taken(currencyId, fs, "currencyId", 32))
    && (if GetString(fs, "note") in {None, Some("")} then note == None else note.Some? && Taken(note.value, fs, "note", 256))
  }

  lemma MemberTaken(fs: seq<Field>, key: string, size: nat)
    requires size > 0
    ensures Taken(Member(fs, key, size), fs, key, size)
  {
  }

  lemma CommonMembers(fs: seq<Field>)
    ensures CommonTaken(fs, CurrencyIdIn(fs), NoteIn(fs))
  {
    MemberTaken(fs, "currencyId", 32);
  }

  /** The payment a body names has each member under its own name, cut to its buffer. */
  lemma RequestMembersTaken(fs: seq<Field>)
    ensures
      var r := RequestIn(fs);
      && Taken(r.requestId, fs, "requestId", 40) && Taken(r.amount, fs, "amount", 32) && Taken(r.currency, fs, "currency", 16)
      && CommonTaken(fs, r.currencyId, r.note)
      && Taken(r.to, fs, "to", 64) && Taken(r.toIdentityKey, fs, "toIdentityKey", 128)
  {
    CommonMembers(fs);
    MemberTaken(fs, "requestId", 40);
    MemberTaken(fs, "amount", 32);
    MemberTaken(fs, "currency", 16);
    MemberTaken(fs, "to", 64);
    MemberTaken(fs, "toIdentityKey", 128);
  }

  lemma ReceiptMembersTaken(fs: seq<Field>)
    ensures
      var r := ReceiptIn(fs);
      && Taken(r.requestId, fs, "requestId", 40) && Taken(r.txHash, fs, "txHash", 80) && Taken(r.amount, fs, "amount", 32)
      && Taken(r.currency, fs, "currency", 16) && CommonTaken(fs, r.currencyId, NoteIn(fs))
      && Taken(r.from, fs, "from", 64) && Taken(r.fromIdentityKey, fs, "fromIdentityKey", 128)
  {
    CommonMembers(fs);
    MemberTaken(fs, "requestId", 40);
    MemberTaken(fs, "txHash", 80);
    MemberTaken(fs, "amount", 32);
    MemberTaken(fs, "currency", 16);
    MemberTaken(fs, "from", 64);
    MemberTaken(fs, "fromIdentityKey", 128);
  }

  lemma SentMembersTaken(fs: seq<Field>)
    ensures
      var s := SentIn(fs);
      && Taken(s.id, fs, "id", 40) && Taken(s.txHash, fs, "txHash", 80) && Taken(s.amount, fs, "amount", 32)
      && Taken(s.currency, fs, "currency", 16) && CommonTaken(fs, s.currencyId, s.note)
      && Taken(s.from, fs, "from", 64) && Taken(s.fromIdentityKey, fs, "fromIdentityKey", 128)
      && Taken(s.to, fs, "to", 64) && Taken(s.toIdentityKey, fs, "toIdentityKey", 128)
  {
    CommonMembers(fs);
    MemberTaken(fs, "id", 40);
    MemberTaken(fs, "txHash", 80);
    MemberTaken(fs, "amount", 32);
    MemberTaken(fs, "currency", 16);
    MemberTaken(fs, "from", 64);
    MemberTaken(fs, "fromIdentityKey", 128);
    MemberTaken(fs, "to", 64);
    MemberTaken(fs, "toIdentityKey", 128);
  }

  /** A recognised discriminator over an unreadable body counts as text. */
  function ContentOf(strtod: Strtod, body: string): Content {
    var kind := KindOf(body);
    if kind == PlainText then OfText
    else if kind == Unknown then OfUnknown
    else
      var fields := Parse(strtod, body);
      if fields == None then OfText else ContentIn(kind, fields.value)
  }

  function ContentIn(kind: Kind, fields: seq<Field>): Content {
    match kind
    case PaymentRequest => OfRequest(RequestIn(fields))
    case PaymentReceipt => OfReceipt(ReceiptIn(fields))
    case PaymentSent => OfSent(SentIn(fields))
    case _ => OfAudio
  }

  lemma ContentFrom(strtod: Strtod, body: string, kind: Kind, fields: seq<Field>)
    requires KindOf(body) == kind && kind != PlainText && kind != Unknown && Parse(strtod, body) == Some(fields)
    ensures ContentOf(strtod, body) == ContentIn(kind, fields)
  {
  }

  /**
   * What a body must be taken for. One that is empty, begins with no brace or says it is text is text;
   * one of the other types the client knows is that, read by the reader, or text if it cannot be read;
   * any other is unknown.
   */
  ghost predicate TakenFor(strtod: Strtod, body: string, content: Content) {
    content == ByType(Parse(strtod, body), body == "" || body[0] != '{' || TypeIs(body, "text"), TypeIs(body, "audio"),
                      TypeIs(body, "payment_request"), TypeIs(body, "payment_receipt"), TypeIs(body, "payment_sent"))
  }

  /** The first type that applies decides. */
  function ByType(fields: Option<seq<Field>>, text: bool, audio: bool, request: bool, receipt: bool, sent: bool): Content {
    if text then OfText
    else if !audio && !request && !receipt && !sent then OfUnknown
    else if fields == None then OfText
    else if audio then OfAudio
    else if request then OfRequest(RequestIn(fields.value))
    else if receipt then OfReceipt(ReceiptIn(fields.value))
    else OfSent(SentIn(fields.value))
  }

  lemma ByKind(strtod: Strtod, body: string, text: bool, audio: bool, request: bool, receipt: bool, sent: bool)
    requires (text <==> KindOf(body) == PlainText) && (!text ==> (audio <==> KindOf(body) == Audio))
    requires !text ==> (request <==> KindOf(body) == PaymentRequest) && (receipt <==> KindOf(body) == PaymentReceipt)
    requires !text ==> (sent <==> KindOf(body) == PaymentSent)
    ensures ContentOf(strtod, body) == ByType(Parse(strtod, body), text, audio, request, receipt, sent)
  {
  }

  lemma ContentTaken(strtod: Strtod, body: string)
    ensures TakenFor(strtod, body, ContentOf(strtod, body))
  {
    KindMeans(body);
    ByKind(strtod, body, body == "" || body[0] != '{' || TypeIs(body, "text"), TypeIs(body, "audio"),
           TypeIs(body, "payment_request"), TypeIs(body, "payment_receipt"), TypeIs(body, "payment_sent"));
  }

  method ContentParse(strtod: Strtod, body: string) returns (content: Content)
    ensures content == ContentOf(strtod, body)
    ensures TakenFor(strtod, body, content)
  {
    ContentTaken(strtod, body);
    var kind := ContentType(body);
    if kind == PlainText {
      return OfText;
    }
    if kind == Unknown {
      return OfUnknown;
    }
    var status, fields := ParseFlat(strtod, body);
    if status != Ok {
      return OfText;
    }
    ContentFrom(strtod, body, kind, fields);
    return ContentIn(kind, fields);
  }

  // ---- building --------------------------------------------------------------------------------------------------

  function OrDefault(currencyId: string): string {
    if currencyId == "" then "XAH" else currencyId
  }

  function NoteFields(note: Option<string>): seq<Field> {
    if note == None || note.value == "" then [] else [Field("note", Text(note.value))]
  }

  function RequestFields(r: Request): seq<Field> {
    [Field("type", Text("payment_request")), Field("requestId", Text(r.requestId)), Field("amount", Text(r.amount)),
     Field("currency", Text(r.currency)), Field("currencyId", Text(OrDefault(r.currencyId)))]
    + NoteFields(r.note)
    + [Field("to", Text(r.to)), Field("toIdentityKey", Text(r.toIdentityKey))]
  }

  function ReceiptFields(r: Receipt): seq<Field> {
    [Field("type", Text("payment_receipt")), Field("requestId", Text(r.requestId)), Field("txHash", Text(r.txHash)),
     Field("amount", Text(r.amount)), Field("currency", Text(r.currency)), Field("currencyId", Text(OrDefault(r.currencyId))),
     Field("from", Text(r.from)), Field("fromIdentityKey", Text(r.fromIdentityKey))]
  }

  function SentFields(s: Sent): seq<Field> {
    SentHead(s) + NoteFields(s.note) + SentTail(s)
  }

  function SentHead(s: Sent): seq<Field> {
    [Field("type", Text("payment_sent")), Field("id", Text(s.id)), Field("txHash", Text(s.txHash)),
     Field("amount", Text(s.amount)), Field("currency", Text(s.currency)), Field("currencyId", Text(OrDefault(s.currencyId)))]
  }

  function SentTail(s: Sent): seq<Field> {
    [Field("from", Text(s.from)), Field("fromIdentityKey", Text(s.fromIdentityKey)),
     Field("to", Text(s.to)), Field("toIdentityKey", Text(s.toIdentityKey))]
  }

  predicate NoteStored(note: Option<string>) {
    note.Some? ==> Stored(note.value, NOTE_SIZE)
  }

  predicate RequestStored(r: Request) {
    && Stored(r.requestId, REQUEST_ID_SIZE) && Stored(r.amount, AMOUNT_SIZE) && Stored(r.currency, CURRENCY_SIZE)
    && Stored(r.currencyId, CURRENCY_ID_SIZE) && NoteStored(r.note)
    && Stored(r.to, LEDGER_ADDRESS_SIZE) && Stored(r.toIdentityKey, IDENTITY_SIZE)
  }

  predicate ReceiptStored(r: Receipt) {
    && Stored(r.requestId, REQUEST_ID_SIZE) && Stored(r.txHash, TX_HASH_SIZE) && Stored(r.amount, AMOUNT_SIZE)
    && Stored(r.currency, CURRENCY_SIZE) && Stored(r.currencyId, CURRENCY_ID_SIZE)
    && Stored(r.from, LEDGER_ADDRESS_SIZE) && Stored(r.fromIdentityKey, IDENTITY_SIZE)
  }

  predicate SentStored(s: Sent) {
    && Stored(s.id, REQUEST_ID_SIZE) && Stored(s.txHash, TX_HASH_SIZE) && Stored(s.amount, AMOUNT_SIZE)
    && Stored(s.currency, CURRENCY_SIZE) && Stored(s.currencyId, CURRENCY_ID_SIZE) && NoteStored(s.note)
    && Stored(s.from, LEDGER_ADDRESS_SIZE) && Stored(s.fromIdentityKey, IDENTITY_SIZE)
    && Stored(s.to, LEDGER_ADDRESS_SIZE) && Stored(s.toIdentityKey, IDENTITY_SIZE)
  }

  // ---- round trips ---------------------------------------------------------------------------------------------------

  /** Two keys with different lengths or initials are different. */
  predicate Apart(a: string, b: string) {
    |a| != |b| || (a != "" && a[0] != b[0])
  }

  /** All fields are strings, and no two keys are equal. */
  predicate Record(fields: seq<Field>) {
    && (forall i :: 0 <= i < |fields| ==> fields[i].value.Text?)
    && (forall i, j :: 0 <= i < j < |fields| ==> Apart(fields[i].key, fields[j].key))
  }

  lemma {:induction false} Find(fields: seq<Field>, i: nat)
    requires Record(fields) && i < |fields|
    ensures GetString(fields, fields[i].key) == Some(fields[i].value.text)
  {
    if i > 0 {
      assert Apart(fields[0].key, fields[i].key);
      Find(fields[1..], i - 1);
    }
  }

  lemma {:induction false} FindNone(fields: seq<Field>, key: string)
    requires forall i :: 0 <= i < |fields| ==> Apart(fields[i].key, key)
    ensures GetString(fields, key) == None
  {
    if fields != [] {
      FindNone(fields[1..], key);
    }
  }

  lemma RequestRecord(r: Request)
    ensures Record(RequestFields(r))
  {
  }

  lemma ReceiptRecord(r: Receipt)
    ensures Record(ReceiptFields(r))
  {
  }

  lemma SentRecord(s: Sent)
    ensures Record(SentFields(s))
  {
  }

  /** What a receiver makes of an empty currency id or an empty note. */
  function RequestReceived(r: Request): Request {
    r.(currencyId := OrDefault(r.currencyId), note := NoteReceived(r.note))
  }

  function ReceiptReceived(r: Receipt): Receipt {
    r.(currencyId := OrDefault(r.currencyId))
  }

  function SentReceived(s: Sent): Sent {
    s.(currencyId := OrDefault(s.currencyId), note := NoteReceived(s.note))
  }

  function NoteReceived(note: Option<string>): Option<string> {
    if note == None || note.value == "" then None else note
  }

  /** The members of a request by their names. */
  predicate RequestNamed(fs: seq<Field>, r: Request) {
    && GetString(fs, "type") == Some("payment_request")
    && GetString(fs, "requestId") == Some(r.requestId) && GetString(fs, "amount") == Some(r.amount)
    && GetString(fs, "currency") == Some(r.currency)
    && GetString(fs, "currencyId") == Some(if r.currencyId == "" then "XAH" else r.currencyId)
    && GetString(fs, "note") == (if r.note == None || r.note.value == "" then None else r.note)
    && GetString(fs, "to") == Some(r.to) && GetString(fs, "toIdentityKey") == Some(r.toIdentityKey)
    && |fs| == 7 + (if r.note == None || r.note.value == "" then 0 else 1)
  }

  predicate ReceiptNamed(fs: seq<Field>, r: Receipt) {
    && GetString(fs, "type") == Some("payment_receipt")
    && GetString(fs, "requestId") == Some(r.requestId) && GetString(fs, "txHash") == Some(r.txHash)
    && GetString(fs, "amount") == Some(r.amount) && GetString(fs, "currency") == Some(r.currency)
    && GetString(fs, "currencyId") == Some(if r.currencyId == "" then "XAH" else r.currencyId)
    && GetString(fs, "from") == Some(r.from) && GetString(fs, "fromIdentityKey") == Some(r.fromIdentityKey)
    && |fs| == 8
  }

  predicate SentNamed(fs: seq<Field>, s: Sent) {
    && GetString(fs, "type") == Some("payment_sent")
    && GetString(fs, "id") == Some(s.id) && GetString(fs, "txHash") == Some(s.txHash)
    && GetString(fs, "amount") == Some(s.amount) && GetString(fs, "currency") == Some(s.currency)
    && GetString(fs, "currencyId") == Some(if s.currencyId == "" then "XAH" else s.currencyId)
    && GetString(fs, "note") == (if s.note == None || s.note.value == "" then None else s.note)
    && GetString(fs, "from") == Some(s.from) && GetString(fs, "fromIdentityKey") == Some(s.fromIdentityKey)
    && GetString(fs, "to") == Some(s.to) && GetString(fs, "toIdentityKey") == Some(s.toIdentityKey)
    && |fs| == 10 + (if s.note == None || s.note.value == "" then 0 else 1)
  }

  lemma RequestFound(r: Request)
    ensures RequestNamed(RequestFields(r), r)
  {
    var fields, n := RequestFields(r), |NoteFields(r.note)|;
    RequestRecord(r);
    Find(fields, 0);
    Find(fields, 1);
    Find(fields, 2);
    Find(fields, 3);
    Find(fields, 4);
    Find(fields, 5 + n);
    Find(fields, 6 + n);
    if n == 1 {
      Find(fields, 5);
    } else {
      FindNone(fields, "note");
    }
  }

  lemma ReceiptFound(r: Receipt)
    ensures ReceiptNamed(ReceiptFields(r), r)
  {
    var fields := ReceiptFields(r);
    ReceiptRecord(r);
    Find(fields, 0);
    Find(fields, 1);
    Find(fields, 2);
    Find(fields, 3);
    Find(fields, 4);
    Find(fields, 5);
    Find(fields, 6);
    Find(fields, 7);
  }

  lemma SentFound(s: Sent)
    ensures SentNamed(SentFields(s), s)
  {
    var fields, n := SentFields(s), |NoteFields(s.note)|;
    SentRecord(s);
    Find(fields, 0);
    Find(fields, 1);
    Find(fields, 2);
    Find(fields, 3);
    Find(fields, 4);
    Find(fields, 5);
    Find(fields, 6 + n);
    Find(fields, 7 + n);
    Find(fields, 8 + n);
    Find(fields, 9 + n);
    if n == 1 {
      Find(fields, 6);
    } else {
      FindNone(fields, "note");
    }
  }

  lemma RequestRead(fields: seq<Field>, r: Request)
    requires RequestStored(r) && RequestNamed(fields, r)
    ensures RequestIn(fields) == RequestReceived(r)
  {
  }

  lemma ReceiptRead(fields: seq<Field>, r: Receipt)
    requires ReceiptStored(r) && ReceiptNamed(fields, r)
    ensures ReceiptIn(fields) == ReceiptReceived(r)
  {
  }

  lemma SentRead(fields: seq<Field>, s: Sent)
    requires SentStored(s) && SentNamed(fields, s)
    ensures SentIn(fields) == SentReceived(s)
  {
  }

  // ---- classification of built bodies -----------------------------------------------------------------------------------

  lemma ExtractFirst(field: string, name: string, rest: string, size: nat)
    requires Unescaped(field) && Unescaped(name) && |name| < size
    ensures Extract("{" + ("\"" + (field + ("\"" + (":" + ("\"" + (name + ("\"" + rest))))))), field, size) == Some(name)
  {
    var value := name + ("\"" + rest);
    var colon := ":" + ("\"" + value);
    var tail := field + ("\"" + colon);
    var json := "{" + ("\"" + tail);
    SplitAt("{", '"', tail);
    Associate("{", "\"", tail);
    SplitAt(field, '"', colon);
    Associate(field, "\"", colon);
    SplitAt(name, '"', rest);
    Associate(name, "\"", rest);
    assert IndexOf(json, '"') == Some(1) && json[2..] == tail;
    assert tail[|field| + 1..] == colon && tail[..|field|] == field;
    assert SkipBlanks(colon) == colon && colon[1..] == "\"" + value;
    assert SkipBlanks("\"" + value) == "\"" + value && ("\"" + value)[1..] == value;
  }

  lemma TypeFirst(print_: Printer, fields: seq<Field>, name: string) returns (rest: string)
    requires AllWritable(fields) && fields != [] && fields[0] == Field("type", Text(name)) && Unescaped(name)
    ensures ObjectText(print_, fields) == "{" + ("\"" + ("type" + ("\"" + (":" + ("\"" + (name + ("\"" + rest)))))))
  {
    EscapedUnescaped("type");
    EscapedUnescaped(name);
    var others := "";
    if |fields| > 1 {
      FieldsTextCons(print_, fields);
      others := "," + FieldsText(print_, fields[1..]);
    }
    rest := others + "}";
    var first := FieldText(print_, fields[0]);
    assert first == "\"" + "type" + "\"" + ":" + ("\"" + name + "\"");
    assert FieldsText(print_, fields) == first + others;
    NestTexts("type", name, others);
  }

  lemma NestTexts(key: string, name: string, others: string)
    ensures "{" + (("\"" + key + "\"" + ":" + ("\"" + name + "\"")) + others) + "}"
         == "{" + ("\"" + (key + ("\"" + (":" + ("\"" + (name + ("\"" + (others + "}"))))))))
  {
  }

  /** A built body is classified by the name it was built with. */
  lemma BuiltKind(print_: Printer, fields: seq<Field>, name: string)
    requires AllWritable(fields) && fields != [] && fields[0] == Field("type", Text(name))
    requires Unescaped(name) && |name| < TYPE_VALUE_SIZE
    ensures KindOf(ObjectText(print_, fields)) == KindOfName(name)
  {
    var rest := TypeFirst(print_, fields, name);
    ExtractFirst("type", name, rest, TYPE_VALUE_SIZE);
  }

  lemma KindNames()
    ensures Unescaped("payment_request") && Unescaped("payment_receipt") && Unescaped("payment_sent")
    ensures KindOfName("payment_request") == PaymentRequest
    ensures KindOfName("payment_receipt") == PaymentReceipt
    ensures KindOfName("payment_sent") == PaymentSent
  {
    assert "payment_receipt"[10] == 'c' && "payment_request"[10] == 'q';
  }

  /** Fields the builders may be given: printable strings, no more than sixteen, the type first. */
  predicate Envelope(fields: seq<Field>, name: string) {
    && AllPrintable(fields) && 0 < |fields| <= MAX_FIELDS
    && fields[0] == Field("type", Text(name)) && Unescaped(name) && |name| < TYPE_VALUE_SIZE
  }

  lemma RequestEnvelope(r: Request)
    requires RequestStored(r)
    ensures Envelope(RequestFields(r), "payment_request")
  {
    KindNames();
  }

  lemma ReceiptEnvelope(r: Receipt)
    requires ReceiptStored(r)
    ensures Envelope(ReceiptFields(r), "payment_receipt")
  {
    KindNames();
  }

  lemma SentEnvelope(s: Sent)
    requires SentStored(s)
    ensures Envelope(SentFields(s), "payment_sent")
  {
    KindNames();
  }

  /** A built body is parsed by its type from the fields it was built from. */
  lemma BuiltParses(strtod: Strtod, print_: Printer, fields: seq<Field>, name: string, kind: Kind)
    requires ReadsIntegers(strtod) && Envelope(fields, name) && KindOfName(name) == kind
    requires kind != PlainText && kind != Unknown
    ensures ContentOf(strtod, ObjectText(print_, fields)) == ContentIn(kind, fields)
  {
    BuiltKind(print_, fields, name);
    RoundTrip(strtod, print_, fields);
    ContentFrom(strtod, ObjectText(print_, fields), kind, fields);
  }

  /** Any reader finds the members of a built request under their names. */
  lemma RequestWire(strtod: Strtod, print_: Printer, r: Request)
    requires ReadsIntegers(strtod) && RequestStored(r)
    ensures
      var fields := Parse(strtod, RequestText(print_, r));
      fields.Some? && RequestNamed(fields.value, r)
  {
    RequestEnvelope(r);
    RoundTrip(strtod, print_, RequestFields(r));
    RequestFound(r);
  }

  /** Parsing a built payment request gives its fields back. */
  lemma RequestRoundTrip(strtod: Strtod, print_: Printer, r: Request)
    requires ReadsIntegers(strtod) && RequestStored(r)
    ensures ContentOf(strtod, RequestText(print_, r)) == OfRequest(RequestReceived(r))
  {
    KindNames();
    RequestEnvelope(r);
    BuiltParses(strtod, print_, RequestFields(r), "payment_request", PaymentRequest);
    RequestFound(r);
    RequestRead(RequestFields(r), r);
  }

  /** Any reader finds the members of a built receipt under their names. */
  lemma ReceiptWire(strtod: Strtod, print_: Printer, r: Receipt)
    requires ReadsIntegers(strtod) && ReceiptStored(r)
    ensures
      var fields := Parse(strtod, ReceiptText(print_, r));
      fields.Some? && ReceiptNamed(fields.value, r)
  {
    ReceiptEnvelope(r);
    RoundTrip(strtod, print_, ReceiptFields(r));
    ReceiptFound(r);
  }

  /** Parsing a built payment receipt gives its fields back. */
  lemma ReceiptRoundTrip(strtod: Strtod, print_: Printer, r: Receipt)
    requires ReadsIntegers(strtod) && ReceiptStored(r)
    ensures ContentOf(strtod, ReceiptText(print_, r)) == OfReceipt(ReceiptReceived(r))
  {
    KindNames();
    ReceiptEnvelope(r);
    BuiltParses(strtod, print_, ReceiptFields(r), "payment_receipt", PaymentReceipt);
    ReceiptFound(r);
    ReceiptRead(ReceiptFields(r), r);
  }

  /** Any reader finds the members of a built announcement under their names. */
  lemma SentWire(strtod: Strtod, print_: Printer, s: Sent)
    requires ReadsIntegers(strtod) && SentStored(s)
    ensures
      var fields := Parse(strtod, SentText(print_, s));
      fields.Some? && SentNamed(fields.value, s)
  {
    SentEnvelope(s);
    RoundTrip(strtod, print_, SentFields(s));
    SentFound(s);
  }

  /** Parsing a built payment announcement gives its fields back. */
  lemma SentRoundTrip(strtod: Strtod, print_: Printer, s: Sent)
    requires ReadsIntegers(strtod) && SentStored(s)
    ensures ContentOf(strtod, SentText(print_, s)) == OfSent(SentReceived(s))
  {
    KindNames();
    SentEnvelope(s);
    BuiltParses(strtod, print_, SentFields(s), "payment_sent", PaymentSent);
    SentFound(s);
    SentRead(SentFields(s), s);
  }

  // ---- the builders ------------------------------------------------------------------------------------------------------

  function RequestText(print_: Printer, r: Request): string
    requires RequestStored(r)
  {
    RequestEnvelope(r);
    ObjectText(print_, RequestFields(r))
  }

  function ReceiptText(print_: Printer, r: Receipt): string
    requires ReceiptStored(r)
  {
    ReceiptEnvelope(r);
    ObjectText(print_, ReceiptFields(r))
  }

  function SentText(print_: Printer, s: Sent): string
    requires SentStored(s)
  {
    SentEnvelope(s);
    ObjectText(print_, SentFields(s))
  }

  /** The buffer holds the text, or an empty string if it did not fit. */
  ghost predicate Built(status: Status, text: string, out: array<char>)
    reads out
  {
    && (status == Ok ==> |text| + 1 <= out.Length && out[..|text| + 1] == text + [NUL])
    && (status == BufferTooSmall ==> out.Length > 0 && out[0] == NUL)
  }

  /** Writes the fields in order and reports a text that does not fit as an empty string. */
  method Write(print_: Printer, fields: seq<Field>, out: array<char>) returns (status: Status)
    requires AllPrintable(fields) && out.Length > 0
    modifies out
    ensures status == if |ObjectText(print_, fields)| + 1 <= out.Length then Ok else BufferTooSmall
    ensures Built(status, ObjectText(print_, fields), out)
  {
    var ok := WriteObject(print_, fields, out);
    if !ok {
      out[0] := NUL;
      return BufferTooSmall;
    }
    return Ok;
  }

  method BuildRequest(print_: Printer, r: Request, out: array<char>) returns (status: Status)
    requires RequestStored(r)
    modifies out
    ensures status ==
      if out.Length == 0 || r.requestId == "" || r.amount == "" || r.currency == "" then InvalidArg
      else if |RequestText(print_, r)| + 1 <= out.Length then Ok
      else BufferTooSmall
    ensures Built(status, RequestText(print_, r), out)
  {
    if out.Length == 0 || r.requestId == "" || r.amount == "" || r.currency == "" {
      return InvalidArg;
    }
    RequestEnvelope(r);
    status := Write(print_, RequestFields(r), out);
  }

  method BuildReceipt(print_: Printer, r: Receipt, out: array<char>) returns (status: Status)
    requires ReceiptStored(r)
    modifies out
    ensures status ==
      if out.Length == 0 || r.requestId == "" || r.txHash == "" then InvalidArg
      else if |ReceiptText(print_, r)| + 1 <= out.Length then Ok
      else BufferTooSmall
    ensures Built(status, ReceiptText(print_, r), out)
  {
    if out.Length == 0 || r.requestId == "" || r.txHash == "" {
      return InvalidArg;
    }
    ReceiptEnvelope(r);
    status := Write(print_, ReceiptFields(r), out);
  }

  method BuildSent(print_: Printer, s: Sent, out: array<char>) returns (status: Status)
    requires SentStored(s)
    modifies out
    ensures status ==
      if out.Length == 0 || s.id == "" || s.txHash == "" then InvalidArg
      else if |SentText(print_, s)| + 1 <= out.Length then Ok
      else BufferTooSmall
    ensures Built(status, SentText(print_, s), out)
  {
    if out.Length == 0 || s.id == "" || s.txHash == "" {
      return InvalidArg;
    }
    SentEnvelope(s);
    status := Write(print_, SentFields(s), out);
  }

  // ---- how much room they need -------------------------------------------------------------------------------------------

  /** How long a value is, however it is written. */
  type Measure = string -> nat

  /** The characters a field takes: its key, its value and six marks. */
  function Width(measure: Measure, f: Field): nat
    requires f.value.Text?
  {
    |f.key| + measure(f.value.text) + 6
  }

  predicate AllTexts(fields: seq<Field>) {
    forall i :: 0 <= i < |fields| ==> fields[i].value.Text?
  }

  predicate PlainKeys(fields: seq<Field>) {
    forall i :: 0 <= i < |fields| ==> Unescaped(fields[i].key)
  }

  function Widths(measure: Measure, fields: seq<Field>): nat
    requires AllTexts(fields)
  {
    if fields == [] then 0 else Widths(measure, fields[..|fields| - 1]) + Width(measure, fields[|fields| - 1])
  }

  function EscapedLength(text: string): nat {
    |Escaped(text)|
  }

  lemma {:induction false} TextWidth(print_: Printer, fields: seq<Field>)
    requires fields != [] && AllTexts(fields) && PlainKeys(fields)
    ensures |FieldsText(print_, fields)| == Widths(EscapedLength, fields) - 1
  {
    EscapedUnescaped(fields[|fields| - 1].key);
    if |fields| > 1 {
      TextWidth(print_, fields[..|fields| - 1]);
    } else {
      assert fields[..0] == [];
    }
  }

  lemma {:induction false} WidthsAppend(measure: Measure, a: seq<Field>, b: seq<Field>)
    requires AllTexts(a) && AllTexts(b)
    ensures Widths(measure, a + b) == Widths(measure, a) + Widths(measure, b)
  {
    if b == [] {
      assert a + b == a;
    } else {
      WidthsAppend(measure, a, b[..|b| - 1]);
      assert (a + b)[..|a + b| - 1] == a + b[..|b| - 1];
    }
  }

  lemma WidthsOne(measure: Measure, f: Field)
    requires f.value.Text?
    ensures Widths(measure, [f]) == Width(measure, f)
  {
    assert [f][..0] == [];
  }

  lemma WidthsTwo(measure: Measure, f: Field, g: Field)
    requires f.value.Text? && g.value.Text?
    ensures Widths(measure, [f, g]) == Width(measure, f) + Width(measure, g)
  {
    assert [f, g][..1] == [f];
    WidthsOne(measure, f);
  }

  lemma WidthsFour(measure: Measure, f: Field, g: Field, h: Field, k: Field)
    requires f.value.Text? && g.value.Text? && h.value.Text? && k.value.Text?
    ensures Widths(measure, [f, g, h, k]) == Width(measure, f) + Width(measure, g) + Width(measure, h) + Width(measure, k)
  {
    WidthsTwo(measure, f, g);
    WidthsTwo(measure, h, k);
    WidthsAppend(measure, [f, g], [h, k]);
    assert [f, g, h, k] == [f, g] + [h, k];
  }

  /** The room a note takes. */
  function NoteWidth(measure: Measure, note: Option<string>): nat {
    if note == None || note.value == "" then 0 else measure(note.value) + 10
  }

  lemma NoteFieldsWidth(measure: Measure, note: Option<string>)
    ensures Widths(measure, NoteFields(note)) == NoteWidth(measure, note)
  {
    if NoteFields(note) != [] {
      WidthsOne(measure, NoteFields(note)[0]);
    }
  }

  /** What the members of an announcement take. */
  function SentMembers(measure: Measure, s: Sent): nat {
    measure(s.id) + measure(s.txHash) + measure(s.amount) + measure(s.currency) + measure(OrDefault(s.currencyId))
    + NoteWidth(measure, s.note)
    + measure(s.from) + measure(s.fromIdentityKey) + measure(s.to) + measure(s.toIdentityKey)
  }

  function RequestMembers(measure: Measure, r: Request): nat {
    measure(r.requestId) + measure(r.amount) + measure(r.currency) + measure(OrDefault(r.currencyId))
    + NoteWidth(measure, r.note) + measure(r.to) + measure(r.toIdentityKey)
  }

  function ReceiptMembers(measure: Measure, r: Receipt): nat {
    measure(r.requestId) + measure(r.txHash) + measure(r.amount) + measure(r.currency) + measure(OrDefault(r.currencyId))
    + measure(r.from) + measure(r.fromIdentityKey)
  }

  lemma SentHeadWidth(measure: Measure, s: Sent)
    ensures Widths(measure, SentHead(s))
         == 72 + measure("payment_sent") + measure(s.id) + measure(s.txHash) + measure(s.amount) + measure(s.currency)
            + measure(OrDefault(s.currencyId))
  {
    var f := SentHead(s);
    WidthsFour(measure, f[0], f[1], f[2], f[3]);
    WidthsTwo(measure, f[4], f[5]);
    WidthsAppend(measure, f[..4], f[4..]);
    assert f == f[..4] + f[4..] && f[..4] == [f[0], f[1], f[2], f[3]] && f[4..] == [f[4], f[5]];
  }

  lemma SentWidth(measure: Measure, s: Sent)
    ensures Widths(measure, SentFields(s)) == 130 + measure("payment_sent") + SentMembers(measure, s)
  {
    var note, tail := NoteFields(s.note), SentTail(s);
    SentHeadWidth(measure, s);
    NoteFieldsWidth(measure, s.note);
    WidthsFour(measure, tail[0], tail[1], tail[2], tail[3]);
    assert tail == [tail[0], tail[1], tail[2], tail[3]];
    WidthsAppend(measure, SentHead(s), note);
    WidthsAppend(measure, SentHead(s) + note, tail);
  }

  lemma RequestWidth(measure: Measure, r: Request)
    ensures Widths(measure, RequestFields(r)) == 94 + measure("payment_request") + RequestMembers(measure, r)
  {
    var f, note, n := RequestFields(r), NoteFields(r.note), |NoteFields(r.note)|;
    var head, last, tail := f[..4], f[4..5], f[5 + n..];
    WidthsFour(measure, f[0], f[1], f[2], f[3]);
    WidthsOne(measure, f[4]);
    NoteFieldsWidth(measure, r.note);
    WidthsTwo(measure, f[5 + n], f[6 + n]);
    assert head == [f[0], f[1], f[2], f[3]] && last == [f[4]] && tail == [f[5 + n], f[6 + n]];
    WidthsAppend(measure, head, last);
    WidthsAppend(measure, head + last, note);
    WidthsAppend(measure, head + last + note, tail);
    assert f == head + last + note + tail;
  }

  lemma ReceiptWidth(measure: Measure, r: Receipt)
    ensures Widths(measure, ReceiptFields(r)) == 110 + measure("payment_receipt") + ReceiptMembers(measure, r)
  {
    var f := ReceiptFields(r);
    WidthsFour(measure, f[0], f[1], f[2], f[3]);
    WidthsFour(measure, f[4], f[5], f[6], f[7]);
    WidthsAppend(measure, f[..4], f[4..]);
    assert f == f[..4] + f[4..] && f[..4] == [f[0], f[1], f[2], f[3]] && f[4..] == [f[4], f[5], f[6], f[7]];
  }

  lemma KeysPlain()
    ensures Unescaped("type") && Unescaped("id") && Unescaped("requestId") && Unescaped("txHash") && Unescaped("amount")
    ensures Unescaped("currency") && Unescaped("currencyId") && Unescaped("note") && Unescaped("from") && Unescaped("to")
    ensures Unescaped("fromIdentityKey") && Unescaped("toIdentityKey") && Unescaped("XAH")
  {
  }

  /** How long a built text is: the marks and keys, the name of its type, its members, a terminator. */
  lemma Room(print_: Printer, fields: seq<Field>, name: string, marks: nat, members: nat)
    requires fields != [] && AllTexts(fields) && PlainKeys(fields) && AllWritable(fields) && Unescaped(name)
    requires Widths(EscapedLength, fields) == marks + EscapedLength(name) + members
    ensures |ObjectText(print_, fields)| + 1 == marks + |name| + members + 2
  {
    EscapedUnescaped(name);
    TextWidth(print_, fields);
  }

  lemma SentKeysPlain(s: Sent)
    ensures AllTexts(SentFields(s)) && PlainKeys(SentFields(s))
  {
    KeysPlain();
  }

  lemma RequestKeysPlain(r: Request)
    ensures AllTexts(RequestFields(r)) && PlainKeys(RequestFields(r))
  {
    KeysPlain();
  }

  lemma ReceiptKeysPlain(r: Receipt)
    ensures AllTexts(ReceiptFields(r)) && PlainKeys(ReceiptFields(r))
  {
    KeysPlain();
  }

  /** The offered room is enough for an announcement exactly when its members, as escaped, take at most 880 characters. */
  lemma RoomForSent(print_: Printer, s: Sent)
    requires SentStored(s)
    ensures |SentText(print_, s)| + 1 <= PAYMENT_CONTENT_SIZE <==> SentMembers(EscapedLength, s) <= 880
  {
    KindNames();
    SentKeysPlain(s);
    SentEnvelope(s);
    SentWidth(EscapedLength, s);
    Room(print_, SentFields(s), "payment_sent", 130, SentMembers(EscapedLength, s));
  }

  /** For a request, at most 913. */
  lemma RoomForRequest(print_: Printer, r: Request)
    requires RequestStored(r)
    ensures |RequestText(print_, r)| + 1 <= PAYMENT_CONTENT_SIZE <==> RequestMembers(EscapedLength, r) <= 913
  {
    KindNames();
    RequestKeysPlain(r);
    RequestEnvelope(r);
    RequestWidth(EscapedLength, r);
    Room(print_, RequestFields(r), "payment_request", 94, RequestMembers(EscapedLength, r));
  }

  /** For a receipt, at most 897. */
  lemma RoomForReceipt(print_: Printer, r: Receipt)
    requires ReceiptStored(r)
    ensures |ReceiptText(print_, r)| + 1 <= PAYMENT_CONTENT_SIZE <==> ReceiptMembers(EscapedLength, r) <= 897
  {
    KindNames();
    ReceiptKeysPlain(r);
    ReceiptEnvelope(r);
    ReceiptWidth(EscapedLength, r);
    Room(print_, ReceiptFields(r), "payment_receipt", 110, ReceiptMembers(EscapedLength, r));
  }

  predicate SentUnescaped(s: Sent) {
    && Unescaped(s.id) && Unescaped(s.txHash) && Unescaped(s.amount) && Unescaped(s.currency) && Unescaped(s.currencyId)
    && (s.note.Some? ==> Unescaped(s.note.value))
    && Unescaped(s.from) && Unescaped(s.fromIdentityKey) && Unescaped(s.to) && Unescaped(s.toIdentityKey)
  }

  lemma PlainNote(note: Option<string>)
    requires NoteStored(note) && (note.Some? ==> Unescaped(note.value))
    ensures NoteWidth(EscapedLength, note) <= NOTE_SIZE + 9
  {
    if note.Some? {
      EscapedUnescaped(note.value);
    }
  }

  lemma PlainCurrency(currencyId: string)
    requires Stored(currencyId, CURRENCY_ID_SIZE) && Unescaped(currencyId)
    ensures EscapedLength(OrDefault(currencyId)) < CURRENCY_ID_SIZE
  {
    KeysPlain();
    EscapedUnescaped("XAH");
    EscapedUnescaped(currencyId);
  }

  /** So it is enough for every announcement whose members need no escapes, however long. */
  lemma RoomForPlain(print_: Printer, s: Sent)
    requires SentStored(s) && SentUnescaped(s)
    ensures |SentText(print_, s)| + 1 <= PAYMENT_CONTENT_SIZE
  {
    RoomForSent(print_, s);
    PlainNote(s.note);
    PlainCurrency(s.currencyId);
    EscapedUnescaped(s.id);
    EscapedUnescaped(s.txHash);
    EscapedUnescaped(s.amount);
    EscapedUnescaped(s.currency);
    EscapedUnescaped(s.from);
    EscapedUnescaped(s.fromIdentityKey);
    EscapedUnescaped(s.to);
    EscapedUnescaped(s.toIdentityKey);
  }

  /** And a note of control characters alone is more than it. */
  lemma NoRoomForControls(print_: Printer, s: Sent)
    requires SentStored(s) && s.note == Some(Repeat(1 as char, NOTE_SIZE - 1))
    ensures |SentText(print_, s)| + 1 > PAYMENT_CONTENT_SIZE
  {
    ControlWidth(NOTE_SIZE - 1);
    RoomForSent(print_, s);
  }

  lemma {:induction false} ControlWidth(n: nat)
    ensures |Escaped(Repeat(1 as char, n))| == 6 * n
  {
    if n > 0 {
      ControlWidth(n - 1);
      var s := Repeat(1 as char, n);
      assert s[1..] == Repeat(1 as char, n - 1);
      assert UnitsOf(s)[1..] == UnitsOf(s[1..]);
    }
  }
}
