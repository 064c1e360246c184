# Evergram C client: models and proofs

This project models the hand-written core of the Evergram C client SDK and of its example bots in
Dafny, and proves what that code promises its callers. Where the C code works in place (buffers,
tables, cursors, counters, a state machine driven by callbacks) the model does too: classes whose
methods update fields and arrays, each proved against a function on sequences or on a small view of
the state. The theorems are about those functions: inverses, invariants over every run, and exact
conditions where a promise does not hold for every input.

## What is modelled

| file | what it is |
|---|---|
| `Common.dfy`, `Decimals.dfy`, `Numerals.dfy` | status codes, C strings in buffers, decimal texts, positional numerals |
| `Letters58.dfy`, `Base58.dfy`, `Base58Exact.dfy` | Base58 and Base58Check over fixed digit buffers, and what their texts stand for |
| `RxQueue.dfy` | the receive queue: one byte buffer and an array of end offsets |
| `JsonText.dfy`, `JsonReader.dfy`, `JsonWriter.dfy`, `JsonRoundTrip.dfy`, `JsonSound.dfy`, `SampleStrtod.dfy` | the flat JSON reader and the bounded writer, with what each must accept and refuse; a number reader of the kind they need |
| `Classification.dfy`, `Envelopes.dfy`, `Relay.dfy`, `RelayWire.dfy`, `SampleCipher.dfy` | chat bodies, payment envelopes and encrypted relay frames on top of the JSON codec; a cipher of the kind the frames need |
| `RpcScanner.dfy` | the streaming completeness check of the ledger client |
| `ChatKeys.dfy` | the key store, an insertion-ordered map in an array |
| `Protocol.dfy`, `ProtocolLog.dfy`, `ProtocolSafety.dfy`, `ProtocolReplies.dfy`, `ProtocolCalls.dfy`, `ProtocolClient.dfy`, `Dispatch.dfy` | the client: handshake, call slot, room keys, chat sync, nested dispatch |
| `Mailbox.dfy`, `ActionQueue.dfy`, `BotRooms.dfy`, `Backoff.dfy`, `Reconnect.dfy` | the bot layer |
| `Amounts.dfy`, `XahauTx.dfy`, `XahauSign.dfy`, `TipBot.dfy` | the tip bot: amounts, the ledger payment, idempotency and command ring |
| `Sessions.dfy`, `SessionFile.dfy`, `Scoreboard.dfy` | the visitor bot's session file, the trivia bot's scoreboard |

A `char` stands for one byte of a C string. Base58 is stated for any alphabet of 58 different
letters; `Letters58.XrplDistinct` shows that the ledger's alphabet is one. Encryption, signing and
hashing are function parameters. What is assumed of the cipher is that sealing a C string under a
base64 nonce of 32 characters gives base64 of the length the box has, and that opening this under
the same key and nonce gives the string back; `SampleCipher.SampleIsSound` shows that there are such
ciphers. `strtod` and `printf("%.17g")` are parameters too; all that is assumed is that an integral
decimal below 10^15 in magnitude, at the end of the text or followed by white space, a comma or a
closing brace, is read as that integer (`SampleStrtod.SampleReads` has an example). The clock, random draws, allocator answers, what the transport does with a message and
what callbacks do are parameters of the operations and hence arbitrary.

The protocol client is a state machine whose events are the stretches of code that no callback
interrupts. Since a callback may do whatever the program may do, a run is any sequence of such
events and of blocking calls, and a call contains, while it waits, any sequence of events and of
further calls. The runner records every event before its code runs, so what a run was told is known
apart from what the code made of it: `ProtocolLog` reads nonces, authentication, room keys and sync
starts from the recorded events alone, and `ProtocolSafety` proves of every run that the state, the
messages and the deliveries agree with that reading. `Protocol.Step` says what the code does at an
event, and `ProtocolClient.Client` is that code with one method for each handler. `ProtocolReplies`
says, again from the recorded events alone, which messages and deliveries each event must cause, and
`ProtocolCalls` when a blocking call must succeed.

Each method is proved against a function, and what those functions mean is stated apart from them, with
names, offsets and limits written out: the fields of the signed payment and the bytes in front of them
(`XahauSign`), the members of envelopes and frames on the wire (`Envelopes`, `RelayWire`), the texts the
JSON reader may accept (`JsonSound`), how a body is classified (`Classification`), what Base58 texts and
session lines stand for (`Base58Exact`, `SessionFile`), and the exact effect of one more request on the
bounded queues and tables of the bots.

## Where the code and its promises differ

- A tip with the largest accepted whole part and more than 551615 millionths passes validation and
  the conversion to drops wraps around 64 bits (`Amounts.DropsExact`, `Amounts.WrapExample`).
- The signature is spliced behind the first adjacent byte pair 0x73 0x21. It lands behind the public
  key exactly when no earlier field contains that pair (`XahauTx.SpliceExact`,
  `XahauTx.SpliceExample`).
- A relay event whose inner text has 10000 or 10001 characters is sealed and sent but refused by
  every receiver, because the sender's buffers are larger than the receiver's
  (`Relay.TextRoundTrip`, `Relay.LongTextRefused`).
- The header offers 1024 bytes as room for the largest payment envelope. They are enough exactly when
  the members, as escaped, together take at most 880 characters in an announcement, 913 in a request
  and 897 in a receipt, a note counting ten more (`Envelopes.RoomForSent`, `Envelopes.RoomForRequest`,
  `Envelopes.RoomForReceipt`). An announcement without escapes always fits (`Envelopes.RoomForPlain`);
  one with a long note of control characters does not (`Envelopes.NoRoomForControls`).
- After a restart the tip bot reloads the first 2000 records of its log, while the running process
  keeps the newest 2000 (`TipBot.RestartRecognises`, `TipBot.RestartForgetsNewest`).
- The mailbox stores chat ids cut to 127 characters but compares the uncut id, so its caps and its
  check for duplicates hold exactly for ids below 128 characters (`Mailbox.BoundsExact`).
- A chat whose key becomes known in the middle of a mailbox drain can have a later held frame
  overtake an earlier one (`Mailbox.Overtaking`). Every mailbox keeps a chat's order through a drain
  exactly when no effect the drain can reach makes that chat known after it was unknown
  (`Mailbox.ChatOrderExact`).
- Base58Check encodes an empty payload but never decodes one (`Base58.CheckRoundTrip`).

## Model

| member | source | states |
|---|---|---|
| Base58.Encode | src/base58.c:27-84 | the carry loops over the 192-digit buffer write exactly one letter per leading zero byte followed by the shortest base-58 numeral of the value; the digit-overflow branch is unreachable for at most 128 bytes; a short output buffer is refused |
| Base58.Decode | src/base58.c:86-142 | the carry loops over the 128-byte buffer yield the leading zeros and the shortest base-256 numeral of the value; bad letters, overlong texts and values and short outputs get the status the code returns and leave the output alone |
| Base58.EncodedFits | src/base58.c:27-84 | at most 128 bytes never need more than 192 digits, and the text stays within the decoder's limit |
| Base58.RoundTrip | src/base58.c:27-142 | every accepted byte string, leading zeros included, decodes back to itself wherever it fits |
| Base58.EncodeDecode | src/base58.c:86-142 | re-encoding what a text of valid letters decodes to gives the text back |
| Base58.CheckEncode | src/base58.c:144-158 | encodes payload and four checksum bytes, with the length limit of the code |
| Base58.CheckDecode | src/base58.c:160-190 | accepts exactly texts whose decoded checksum matches a non-empty payload and returns that payload |
| Base58.CheckRoundTrip | src/base58.c:144-190 | for any checksum function a payload comes back exactly when it is not empty |
| Base58.CheckReencode | src/base58.c:144-190 | an accepted text is the checked text of its payload |
| Base58Exact.OnlyText | src/base58.c:27-84 | a text is the encoder's if and only if it has as many leading zero letters as the bytes have leading zeros and is the same number, 58 against 256 |
| Base58Exact.DecodeExactly | src/base58.c:86-142 | the status for every text: longer than 192 or a number of 256^128 or more before the first bad character, a bad character, no room, or the bytes the text stands for |
| Base58Exact.CheckDecodeExactly | src/base58.c:160-190 | accepted exactly when the text stands for 1 to 124 bytes that fit and their checksum, and those are the payload |
| Letters58.XrplDistinct | src/base58.c:1-16 | the 58 letters of the ledger alphabet are different |
| ReceiveQueue.RxQueue.Push | src/rxqueue.c:88-105 | a fragment extends the partial message only; refused growth changes nothing |
| ReceiveQueue.RxQueue.EndFrame | src/rxqueue.c:107-123 | a non-empty partial message becomes the last message; an empty one is dropped; refused growth changes nothing |
| ReceiveQueue.RxQueue.Pop | src/rxqueue.c:161-184 | removes the front message; compaction moves bytes and lowers offsets without changing any other message |
| ReceiveQueue.RxQueue.Clear | src/rxqueue.c:125-136 | no message and no partial message remain |
| ReceiveQueue.RxQueue.EnsureBuffer | src/rxqueue.c:21-42 | doubles until the bytes fit; a refused or overflowing growth leaves everything as it was |
| ReceiveQueue.RunDelivers | src/rxqueue.c:88-184 | over every interleaving of push, end, pop and clear, popped plus queued messages are the non-empty messages closed since the last clear, fragments concatenated, in order |
| ReceiveQueue.PopsTakeNext | src/rxqueue.c:138-184 | every pop hands out the next closed message whenever there is one: the k-th popped is the k-th closed |
| JsonText.DecodeEncoded | src/json.c:58-83 | the UTF-8 of any scalar values decodes, by section 3 of RFC 3629, to the same values |
| JsonText.ScanSpelled | src/json.c:113-213 | any mixture of plain bytes and escapes of section 7 of RFC 8259 up to the closing quote is read as what it stands for, and the rest is left |
| JsonText.ScanSound | src/json.c:113-213 | whatever is accepted is such a mixture, lone surrogates tolerated, closed by a quote, and is read as what it stands for |
| JsonText.EscapedCodePoints | src/json.c:161-197 | code points written as \u escapes in either case, with surrogate pairs above U+FFFF, are read as their UTF-8, which decodes to the same code points |
| JsonReader.Reader.ReadHex4 | src/json.c:98-110 | four digits give their value and move the cursor by four; otherwise the cursor stays |
| JsonReader.Reader.ReadString | src/json.c:113-213 | the loop computes the scanner's meaning of a quoted string as a C string and stops behind it |
| JsonReader.Reader.ReadStringArray | src/json.c:216-275 | reads comma-separated strings up to the bracket, or fails where the specification does |
| JsonReader.Reader.ReadValue | src/json.c:277-315 | strings, arrays, the three words and numbers, in the order the code tries them |
| JsonReader.ParseFlat | src/json.c:317-393 | reads one object of at most 16 fields with keys below 64 bytes and nothing behind it; any failure leaves no field |
| JsonWriter.Writer.WriteBytes | src/json.c:476-487 | appends the text or sets the sticky failure flag, exactly when text and terminator do not fit; the buffer stays terminated |
| JsonWriter.Writer.WriteEscaped | src/json.c:499-535 | writes each byte as the unit the grammar demands |
| JsonWriter.Writer.BeginField | src/json.c:545-552 | a comma unless the object was just opened, the quoted key, a colon |
| JsonWriter.Writer.FieldString | src/json.c:554-562 | separator, key and escaped value, or the failure flag |
| JsonWriter.Writer.FieldNumber | src/json.c:564-577 | integers below 10^15 in magnitude without point or exponent |
| JsonText.EscapesExactly | src/json.c:499-535 | the writer's spelling of every character, written out |
| JsonRoundTrip.SpelledParses | src/json.c:113-393 | every flat object text, with any white space and any spelling of its strings, parses to the fields it spells, arrays of strings included |
| JsonSound.ParseSound | src/json.c:317-393 | the converse: whatever is accepted is, up to the terminator, white space, one braced list of at most 16 fields with keys below 64 and commas between them, white space and nothing else, and the fields returned are what that text says |
| JsonSound.StringExactly | src/json.c:409-425 | the first field of a name that holds a string or a null decides a lookup |
| JsonRoundTrip.WriteObject | src/json.c:466-597 | writing field by field succeeds exactly when the ideal text and terminator fit, and the buffer then holds them |
| JsonRoundTrip.RoundTrip | src/json.c:317-597 | the printed object of at most 16 string, null, boolean and integer fields is read back field for field |
| JsonRoundTrip.ObjectCString | src/json.c:499-535 | a printed object contains no terminator |
| Classification.ExtractStringField | src/content.c:28-73 | the quote-scanning loop finds the first name followed by a colon and its raw value, if it fits |
| Classification.ContentType | src/content.c:75-102 | a body that is empty or begins with no brace is text; one whose first type member is text, audio or one of the three payments is that; anything else is unknown |
| Classification.KindMeans | src/content.c:28-102 | the same of the specification, the first type member told by its place: the first "type" with an even number of quotes before it and a colon behind it |
| Envelopes.ContentParse | src/content.c:206-274 | text, unknown, audio or a payment by the first type of the body, told by the literal names; a recognised type over a body the reader refuses is text |
| Envelopes.RequestMembersTaken | src/content.c:158-204 | each member of a request is taken from the field of its name, cut to its buffer; no currency id is XAH, an empty note is none |
| Envelopes.ReceiptMembersTaken | src/content.c:158-204 | likewise for receipts |
| Envelopes.SentMembersTaken | src/content.c:158-204 | likewise for announcements |
| Envelopes.RequestWire | src/content.c:293-319 | a built request is an object of its seven or eight members under their names, with the type payment_request |
| Envelopes.ReceiptWire | src/content.c:321-344 | likewise for receipts |
| Envelopes.SentWire | src/content.c:346-374 | likewise for announcements |
| Envelopes.BuildRequest | src/content.c:293-319 | missing members are refused first; then the envelope text or an empty buffer |
| Envelopes.BuildReceipt | src/content.c:321-344 | likewise for receipts |
| Envelopes.BuildSent | src/content.c:346-374 | likewise for announcements |
| Envelopes.RequestRoundTrip | src/content.c:158-319 | parsing a built request gives every member back; an empty currency id reads as XAH, an empty note as absent |
| Envelopes.ReceiptRoundTrip | src/content.c:173-344 | parsing a built receipt gives every member back |
| Envelopes.SentRoundTrip | src/content.c:188-374 | parsing a built announcement gives every member back |
| Envelopes.BuiltKind | src/content.c:75-102 | a built body is classified by the type it was built with |
| Envelopes.RoomForSent | include/evergram/types.h:187-192 | 1024 bytes take an announcement exactly when its escaped members take at most 880 characters |
| Envelopes.RoomForRequest | include/evergram/types.h:187-192 | a request, at most 913 |
| Envelopes.RoomForReceipt | include/evergram/types.h:187-192 | a receipt, at most 897 |
| Envelopes.RoomForPlain | include/evergram/types.h:187-192 | so 1024 bytes take every announcement whose members need no escape |
| Envelopes.NoRoomForControls | include/evergram/types.h:187-192 | they do not take a full note of control characters |
| Relay.SealFrame | src/relay.c:105-126 | seals texts of up to 10001 characters and writes the envelope if the payload buffer takes it |
| Relay.OpenFrame | src/relay.c:71-102 | the statuses and the event behind a payload, in the order the code checks |
| Relay.FrameOpens | src/relay.c:71-126 | a sealed event opens under its key exactly when its text is shorter than the receiver's buffer |
| Relay.BuildText | src/relay.c:139-177 | members cut to their buffers, inner text, sealed frame, and when it is refused |
| Relay.ParseText | src/relay.c:247-279 | a frame without text is refused; missing members are empty |
| Relay.TextRoundTrip | src/relay.c:139-279 | a built chat line gives back id, sender, text and time exactly when its inner text has at most 9999 characters |
| RelayWire.TextWire | src/relay.c:105-177 | a chat line on the wire: an object of a nonce and a ciphertext, which opens to an object of msgId, sender, text and ts |
| RelayWire.TextExactly | src/relay.c:71-279 | any payload at all is refused for its reason (no frame, no box, 10000 characters or more, forged, no event, no text) or read as the members its inner text names, cut to 128, 128 and 10000 |
| RelayWire.ReactionWire | src/relay.c:105-202 | a reaction on the wire: msgId, and emoji or null |
| RelayWire.ReactionExactly | src/relay.c:71-310 | any payload at all, read as a reaction |
| Relay.InnerLength | src/relay.c:157-168 | the length of the inner text from the escaped members, so that condition can be checked beforehand |
| Relay.LongTextRefused | src/relay.c:139-279 | a legal text of 9883 characters, sent today, is sealed into any sufficient buffer and refused by the receiver |
| Relay.PayloadFits | src/relay.h:31 | the promised payload size takes every frame that can be built |
| Relay.BuildReaction | src/relay.c:179-205 | any message id and emoji are written, sealed or refused for their length |
| Relay.ReactionRoundTrip | src/relay.c:179-310 | reactions and cleared reactions arrive as sent, cut to the receiver's buffers |
| RpcScanner.ResponseLooksComplete | examples/xahau-tip-bot/xahau_rpc.c:114-146 | the loop answers what the bracket and string scanner says of the text |
| RpcScanner.CompleteExactly | examples/xahau-tip-bot/xahau_rpc.c:114-146 | for every nested bracketed text, with brackets and escaped quotes in strings, no proper prefix looks complete and the whole text does |
| RpcScanner.CompleteMeans | examples/xahau-tip-bot/xahau_rpc.c:114-146 | any text, JSON or not, is complete exactly when, its string literals left out, some closing bracket is one with which as many brackets have been closed as opened |
| RpcScanner.ReceiveExactly | examples/xahau-tip-bot/xahau_rpc.c:180-188 | any fragments: each is appended while text and terminator fit 16384 bytes and is a failure otherwise, and the reply is complete exactly when what was kept is |
| RpcScanner.AnySplitCompletes | examples/xahau-tip-bot/xahau_rpc.c:148-208 | however the text is split into fragments, the reply completes with the last one that matters and nothing fails |
| RpcScanner.JsonCompletes | examples/xahau-tip-bot/xahau_rpc.c:114-188 | the same for every JSON object or array with its own white space at every place, and before it |
| Amounts.ExtractNumber | examples/xahau-tip-bot/xahau_rpc.c:405-430 | the overflow-guarded digit loop yields the exact number or refuses it |
| ChatKeys.Store.SetTagged | src/chatkeys.c:65-94 | empty and overlong ids are refused; a known id is updated in place, a new one appended, growth included |
| ChatKeys.Store.Delete | src/chatkeys.c:131-149 | removes the entry and closes the gap in order |
| ChatKeys.Store.Get | src/chatkeys.c:96-107 | finds the key of an id, if any |
| ChatKeys.Store.Tag | src/chatkeys.c:109-115 | the tag, zero for an unknown id |
| ChatKeys.Store.At | src/chatkeys.c:117-125 | ids by insertion order |
| ChatKeys.SetLookup | src/chatkeys.c:65-94 | setting changes what is found under that id and nothing else |
| ChatKeys.SetOrder | src/chatkeys.c:65-94 | everyone keeps their place and a newcomer is last |
| ChatKeys.RemoveLookup | src/chatkeys.c:131-149 | removing hides that id and nothing else |
| ChatKeys.RemoveOrder | src/chatkeys.c:131-149 | the others keep their order |
| ChatKeys.RunHoldsLatest | src/chatkeys.c:65-149 | after any run the store holds what each id was last told, and no id twice |
| ProtocolClient.Client.RoomsRejoin | src/client.c:2954-2970 | the loop over the store claims the joiner's rooms in order |
| ProtocolClient.Client.BlockingCall | src/client.c:210-259 | refuses unless authenticated and free, claims the slot, waits, and releases it on every failure |
| ProtocolClient.Client.WaitForAnswer | src/client.c:241-256 | the waiting loop: resolved, past the deadline, or the transport failed |
| ProtocolSafety.RunSound | src/client.c:23-40 | the invariant of every reachable state, for any interleaving of callbacks, messages and calls |
| ProtocolSafety.AuthenticatedMeansAccepted | src/parser.c:180-248 | an authenticated client was told by the server that an authentication is accepted, and no close has happened since |
| ProtocolSafety.SendsGuarded | src/client.c:157-176 | outside the authenticated phase only authentication and registration are sent, and each authentication carries the usable nonce that came last since the close |
| ProtocolSafety.SyncBounded | src/parser.c:969-978 | at most fifty pages are asked for after an accepted authentication or a sync asked for while authenticated, until the next of these |
| ProtocolSafety.RequestIds | src/client.c:52-58 | the k-th id is k mod (2^32 - 1) plus one, and ids differ within any window of 2^32 - 1 |
| ProtocolSafety.RoomKeys | src/parser.c:625-833 | a room key is held exactly when the latest event that taught or ended the room taught it: an offer that opens, a registration or a grant, with no end, claim elsewhere, kick, timeout or local end since; and it is the key and role that event brought |
| ProtocolSafety.ContentNeedsKey | src/parser.c:716-782 | content is delivered and sent only while the room's key is held |
| ProtocolSafety.AcceptedRejoins | src/client.c:2954-2970 | each accepted authentication asks for the first page of chats and then claims exactly the joiner's rooms, once each, in insertion order |
| ProtocolCalls.CallOutcome | src/client.c:210-259 | after any run a call goes through exactly when it was let in and sent and, in a slice begun before the deadline with no failed poll up to it, an answer of its kind with its own id or none came; the first such answer is its response, and otherwise it is refused, fails or times out |
| ProtocolCalls.SlotFree | src/client.c:210-259 | after every run the slot is free: every call gives it back |
| ProtocolReplies.EventDoes | src/parser.c:180-1000 | at every event of every run the client sends and delivers exactly this, told from the recorded events, and goes to this phase: authentication for a usable nonce, registration, the next page, rejoined rooms, content whose key is held, frames and ends of rooms, and nothing else |
| ProtocolSafety.CallAnswered | src/client.c:210-259 | a call that succeeds has an answer of the expected kind with its own id or none; a failed one leaves the slot free |
| ProtocolSafety.AnswersAreOwn | src/parser.c:988-998 | in every run a successful call's answer came after its own request, is of its kind, and bears its id or none, never one of the 2^32 - 2 ids issued before: late answers to earlier calls are not taken |
| ProtocolSafety.NestedCallsIgnored | src/client.c:210-259 | every run goes exactly as if no call had been tried while another was waiting or being finished: slot, ids, messages and the rest are the same |
| ProtocolSafety.WaitingIgnoresCalls | src/client.c:210-259 | whatever goes on while a call waits, calls included, its slot stays claimed for its own request |
| ProtocolSafety.OccurRooms | src/parser.c:625-833 | an event makes its own change to the key store and no other |
| ProtocolSafety.AuthTextFits | src/handshake.c:47-53 | the signed text always fits its buffer |
| Dispatch.Parser.ParserDispatch | src/parser.c:1005-1019 | at any nesting, each payload without a key is handed over with the very frame that needed it, and the outer frame is current again afterwards |
| Mailbox.Box.Defer | src/bot.c:192-241 | a non-empty frame not yet held becomes the last entry exactly when fewer than 4000 entries are held, fewer than 500 of that chat, and the chat is held already or fewer than 200 are; otherwise nothing changes |
| Mailbox.DeferExact | src/bot.c:192-241 | the same of the specification, counting places and different ids |
| Mailbox.Box.PendingChats | src/bot.c:157-169 | the nested loops count the different chats |
| Mailbox.Box.DrainMailbox | src/bot.c:244-260 | the in-place scan dispatches and keeps what the specification says, whatever the dispatched frames do |
| Mailbox.DrainUnderFixedKeys | src/bot.c:244-260 | under fixed keys, whatever dispatched frames defer, exactly the frames with a key leave, the held ones and then those accepted meanwhile, in order, and the rest stays in order |
| Mailbox.DrainConserves | src/bot.c:244-260 | nothing is lost and nothing is dispatched twice, with any nested deferrals |
| Mailbox.RunConserves | src/bot.c:192-260 | over every run, accepted frames are held or dispatched, exactly once |
| Mailbox.RunBounded | src/bot.c:192-260 | over every run with ids below 128 characters: at most 4000 frames, 500 per chat, 200 chats, no entry twice |
| Mailbox.BoundsExact | src/bot.c:192-241 | deferring keeps the bounds of every bounded mailbox exactly when the id is below 128 characters |
| Mailbox.ChatOrder | src/bot.c:244-260 | a chat that is not learned in the middle has its frames leave in the order they came, from any place of the scan |
| Mailbox.ChatOrderExact | src/bot.c:244-260 | every mailbox keeps a chat's order through a drain if and only if no effect the drain can reach makes the chat known after it was unknown |
| Mailbox.Overtaking | src/bot.c:244-260 | a key learned during the drain reorders two frames of one chat |
| ActionQueue.Queue.QueueSend | src/bot.c:1309-1329 | without memory for the text the entry is taken back |
| ActionQueue.Queue.DrainActions | src/bot.c:1194-1207 | at most one operation, taken off before it runs |
| ActionQueue.AskedExactly | src/bot.c:1063-1329 | after any run a request is accepted exactly when fewer than 256 operations wait and there is memory for its text; it is then last, with its own members |
| ActionQueue.PollsExactly | src/bot.c:1194-1207 | a poll of a connected bot runs the operation accepted longest ago that has not run, if there is one |
| ActionQueue.FirstInFirstOut | src/bot.c:1063-1207 | over every run, executed and waiting operations are the accepted ones in order, at most 256 waiting |
| BotRooms.Table.RememberRoom | src/bot.c:336-358 | update in place, or evict the first slot and append |
| BotRooms.Table.RemoveRoom | src/bot.c:323-334 | the last room takes the removed one's place |
| BotRooms.RemovedIsSetRemoval | src/bot.c:323-334 | as a set, exactly that room is gone |
| BotRooms.RememberedIsSetInsertion | src/bot.c:336-358 | as a set, that room is in, and nobody is lost unless the table was full |
| BotRooms.RememberedExactly | src/bot.c:336-358 | the table then holds that room with its own widget, label and origin, and every other room as it was, except that a full table loses the one in its first slot to a newcomer |
| BotRooms.RemovedKeepsOthers | src/bot.c:323-334 | removal leaves every other room as it was |
| BotRooms.StepExactly | src/bot.c:310-585 | what every step of every run does to the rooms: an offered or registered room is in with its texts, an ended, timed out, forgotten or reported one is gone, the others are as they were |
| BotRooms.KeyedAfter | src/parser.c:625-833 | an event gives the room it teaches a key, takes it from the room it ends, and leaves every other room alone |
| BotRooms.RunSound | src/bot.c:310-585 | over every run at most 64 rooms, none twice, and only rooms whose key the client's own store holds, except while a final state is being reported |
| BotRooms.ClientRuns | src/bot.c:310-585 | the client beside the table is the protocol client after the run's events |
| Backoff.BaseMs | src/backoff.c:5-19 | the doubling loop is min(base * 2^(attempt - 1), cap) without leaving 32 bits |
| Backoff.DelayMs | src/backoff.c:21-31 | curve plus jitter, never above the cap |
| Backoff.CurveMonotone | src/backoff.c:5-19 | later attempts never wait less |
| Reconnect.Bot.OnDisconnected | src/bot.c:280-299 | schedules once unless stopped or already scheduled |
| Reconnect.Bot.MaybeReconnect | src/bot.c:807-829 | tries only when due, and reschedules on failure |
| Reconnect.EventDoes | src/bot.c:264-829 | at every event of every run: a disconnect schedules the next attempt unless the bot was stopped or an alarm is set, a failed start always does, a poll tries exactly when the alarm has rung and the bot is neither stopped nor connected; the pause is 1, 2, 4, 8, 16 or 30 seconds and the jitter, at most 30 |
| Reconnect.RunSound | src/bot.c:264-829 | over every run the counter is the number of schedulings since the last authentication, every delay lies between curve and cap, and no attempt is early |
| Amounts.ValidateAmount | examples/xahau-tip-bot/commands.c:37-96 | accepts exactly plain positive decimals with at most six decimals |
| Amounts.AmountToDrops | examples/xahau-tip-bot/commands.c:193-232 | status and drops text in 64-bit arithmetic, as the loops compute them |
| Amounts.PlainIsValid | examples/xahau-tip-bot/commands.c:37-96 | that is, digits with at most one dot and at most six digits behind it, one of them not zero |
| Amounts.DropsWorth | examples/xahau-tip-bot/commands.c:193-232 | the drops are a million times the digits without the dot, divided by ten for each decimal; a whole part above 18446744073709 is refused |
| Amounts.DropsExact | examples/xahau-tip-bot/commands.c:193-232 | an accepted amount is converted exactly if and only if it is below the limit at which the sum wraps |
| Amounts.WrapExample | examples/xahau-tip-bot/commands.c:193-232 | an accepted amount that wraps to zero drops |
| Amounts.FormatDropsValue | examples/xahau-tip-bot/index.c:88-92 | the formatted amount is worth the drops it was made of |
| Amounts.DropsOfFormatted | examples/xahau-tip-bot/commands.c:193-232 | converting a formatted amount gives the drops back |
| Amounts.ReadDrops | examples/xahau-tip-bot/xahau_tx.c:112-127 | accepts exactly digit strings below 2^62 and computes their value |
| XahauTx.Writer.WriteNativeAmount | examples/xahau-tip-bot/xahau_tx.c:112-139 | field code and eight big-endian bytes with bit 62 set, or nothing |
| XahauTx.NumbersDecode | examples/xahau-tip-bot/xahau_tx.c:82-139 | the bytes decode to the number, and to the drops plus 2^62 |
| XahauTx.AmountOnLedger | examples/xahau-tip-bot/commands.c:193-232 | the amount as typed, converted and written, stands on the ledger with bit 62 set if and only if it is below 2^62 drops |
| XahauTx.AmountInBlob | examples/xahau-tip-bot/xahau_tx.c:112-225 | the decoder finds that amount in the signed blob |
| XahauTx.Writer.WriteAccountId | examples/xahau-tip-bot/xahau_tx.c:141-149 | only checked addresses of the right version and length |
| XahauTx.AddressOfAccountId | examples/xahau-tip-bot/xahau_tx.c:141-149 | the account id determines its address |
| XahauTx.AddressAccepted | examples/xahau-tip-bot/xahau_tx.c:141-149 | the checked text of an account id is accepted and gives the id back |
| XahauTx.BuildSigningData | examples/xahau-tip-bot/xahau_tx.c:153-189 | prefix and canonical fields, within the 512-byte writer; the statuses in order |
| XahauTx.BuildSignedBlob | examples/xahau-tip-bot/xahau_tx.c:193-225 | the scan loop splices the signature behind the first byte pair that reads as a key field |
| XahauTx.DecodeEncoded | examples/xahau-tip-bot/xahau_tx.c:67-105 | a field decoder recovers every list of canonical fields |
| XahauTx.FieldsAscending | examples/xahau-tip-bot/xahau_tx.c:153-225 | both field lists ascend strictly by type and field code |
| XahauTx.SpliceExact | examples/xahau-tip-bot/xahau_tx.c:193-225 | the signature lands behind the public key if and only if no earlier adjacent bytes form 0x73 0x21 |
| XahauTx.SpliceExample | examples/xahau-tip-bot/xahau_tx.c:193-225 | between any two accounts there is a payment for which it does not |
| XahauTx.BlobDecodes | examples/xahau-tip-bot/xahau_tx.c:153-225 | otherwise the decoder recovers every payment field and the signature from the blob |
| XahauSign.SignPayment | examples/xahau-tip-bot/xahau_tx.c:153-326 | end to end: accepted exactly for numbers of 32 bits, amounts below 2^62 drops and two valid addresses; what is signed is 0x53 0x54 0x58 0x00 and a list in which field (8,1) is the payer, (8,3) the payee, and every other field, looked up by its codes, holds its member; the blob is that list with the signature at (7,4), unless an earlier 0x73 0x21 pair misplaces it |
| XahauSign.SigningLayout | examples/xahau-tip-bot/xahau_tx.c:153-189 | the signing data byte by byte, with every field code written out |
| XahauSign.SigningSays | examples/xahau-tip-bot/xahau_tx.c:153-189 | looking the decoded signing data up by type and index gives each member of the payment, and no other field is there |
| XahauSign.BlobSays | examples/xahau-tip-bot/xahau_tx.c:193-225 | the same of the decoded blob, with the signature |
| XahauSign.BuildsExactly | examples/xahau-tip-bot/xahau_tx.c:153-189 | a payment is buildable exactly when its numbers, amounts and addresses are good, told without the builder |
| TipBot.App.Enqueue | examples/xahau-tip-bot/index.c:380-396 | the ring accepts a command, cut to its buffers, unless it holds 32 |
| TipBot.App.RecordProcessed | examples/xahau-tip-bot/index.c:169-189 | the table slides to keep the newest 2000 records |
| TipBot.App.HandleTip | examples/xahau-tip-bot/index.c:271-376 | checks the table before paying and records only what was paid |
| TipBot.App.LoadProcessed | examples/xahau-tip-bot/index.c:140-167 | fills the table from the first readable lines of the log |
| TipBot.ServedInOrder | examples/xahau-tip-bot/index.c:380-414 | accepted commands are served in order, once each |
| TipBot.ArrivesExactly | examples/xahau-tip-bot/index.c:380-396 | after any run a command is accepted exactly when fewer than 32 wait, last and under its own chat, sender, message and text |
| TipBot.ServesNext | examples/xahau-tip-bot/index.c:398-414 | the command served is the one accepted longest ago that was not served |
| TipBot.TipPaidExactly | examples/xahau-tip-bot/index.c:271-376 | after any run a tip is paid, and recorded, exactly when it is well formed, the ledger takes it and none of the newest 2000 records bears its message id |
| TipBot.NeverPaidTwiceInWindow | examples/xahau-tip-bot/index.c:129-371 | the table is always the newest records, and equal message ids are more than 2000 records apart |
| TipBot.RestartRecognises | examples/xahau-tip-bot/index.c:140-167 | after a restart a message is recognised exactly when it is among the first 2000 records of the log |
| TipBot.RestartForgetsNewest | examples/xahau-tip-bot/index.c:140-167 | with 2001 records the newest payment is forgotten |
| Sessions.HexEncode | examples/widget-visitor-bot/index.c:71-78 | two lower-case digits for each byte |
| Sessions.HexDecode | examples/widget-visitor-bot/index.c:80-101 | accepts exactly such texts of the right length and gives the bytes back |
| Sessions.Escape | examples/widget-visitor-bot/index.c:104-118 | the escaped text of as many characters as leave room; all of them in a buffer more than three times as long |
| Sessions.Unescape | examples/widget-visitor-bot/index.c:139-151 | the unescaped text, cut to the buffer |
| Sessions.UnescapeEscaped | examples/widget-visitor-bot/index.c:104-151 | unescaping undoes escaping |
| Sessions.EscapedPlain | examples/widget-visitor-bot/index.c:104-118 | escaped text has no separator and no line end |
| Sessions.LineFits | examples/widget-visitor-bot/index.c:153-178 | every saved line fits the 2048-byte line buffer |
| Sessions.App.Save | examples/widget-visitor-bot/index.c:153-178 | one line for each session with a key, in order |
| Sessions.App.Load | examples/widget-visitor-bot/index.c:182-230 | appends the sessions the file's lines name until the table is full, for any file |
| SessionFile.LineSays | examples/widget-visitor-bot/index.c:153-178 | a saved line is token, 64 hexadecimal digits, widget, label and origin between bars, with %7C, %25, %0A and %0D for bars, percent signs and line ends |
| SessionFile.LineExactly | examples/widget-visitor-bot/index.c:182-230 | any line with four bars names a session exactly when its second part is 64 lower-case digits and its first leaves a token; escapes of two upper-case digits are read, anything else stands for itself, and each part is cut to its buffer |
| SessionFile.ShortLine | examples/widget-visitor-bot/index.c:182-230 | a line with fewer bars is skipped |
| Sessions.RoundTrip | examples/widget-visitor-bot/index.c:153-230 | loading a saved file restores exactly the sessions with a key, in order |
| Scoreboard.SelectTop | examples/trivia-bot/index.c:137-168 | the chat's ten best entries, different, by falling points, none left out that scores more |
| Scoreboard.TopTenUnique | examples/trivia-bot/index.c:137-168 | any two such selections show the same points in the same places |
| Scoreboard.AwardPoint | examples/trivia-bot/index.c:114-134 | one point more for that player and for nobody else; a full table refuses newcomers |

## Left out

- Libsodium and OpenSSL (src/e2ee.c, src/xrpl.c, src/base64.c, src/identity.c), protobuf packing, libwebsockets, libcurl, sockets, files and environment variables: library calls and I/O.
- Null-pointer arguments: the models take values.
- Allocation failure outside the receive queue and the text of a deferred send; the growth of the JSON reader's heap buffers, of the mailbox array and of the action array, which are sequences here.
- Doubles that are not integers below 10^15, negative zero, infinities and NaN; lone surrogates and embedded NUL escapes are read as the code reads them but are outside the round trips.
- Audio bodies: their type is recognised, their members are not decoded. Edit, remove, typing, presence and moderation frames, which follow the pattern of text and reaction frames.
- The two-byte form of a variable length, which the payment builder never uses, and the hexadecimal form and hash of a signed blob.
- The wrappers that finish a call even when it was refused: slot claims are made for the call itself.
- Delivery order between held and newly arrived frames, and byte separation across connections.
- Field-copy mappings (widgets, purchases, profiles, access), callback setters, logging, the plain chat store, pending-request tables: easy members.
- Rendering the scoreboard as text, and the overflow of a player's points beyond 32 bits.
- Lines of the tip log longer than the line buffer; the tip log is a list of lines here.
- Envelopes.ContentParse: the members of audio bodies are not decoded.
- Amounts.ExtractNumber: finding the key in the reply is not part of the model.
- Dispatch.Parser.ParserDispatch: whether a key is missing is part of the script of a dispatch, not looked up.
- TipBot.App.RecordProcessed: appending the record to the log file is a separate list of lines in TipBot.RestartRecognises.
- TipBot.App.HandleTip: what comes before the table check, and the ledger's answers, are two booleans.
- Scoreboard.AwardPoint: a chat or identity longer than its buffer, whose cut copy would not be found again.
- XahauSign.SignPayment: the hexadecimal text and the hash of the blob.
- XahauTx.BlobDecodes: requires that no earlier 0x73 0x21 pair occurs, because with one the blob is not canonical (XahauTx.SpliceExact).
- Mailbox.ChatOrderExact: speaks of lists of held frames of any length, also beyond the caps.
- Mailbox.RunBounded: requires chat ids below 128 characters, because the bounds fail without that (Mailbox.BoundsExact).
- Reconnect.Bot.MaybeReconnect: clock readings stay below 2^63, so that adding a delay does not leave 64 bits.
