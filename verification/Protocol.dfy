/**
 * The protocol client as a state machine. Each event is a stretch of the client's code that no
 * callback interrupts; since callbacks may do anything the program may do, a run is any sequence of
 * events, with blocking calls spanning whole stretches of it. The log records what an observer sees.
 */
module Protocol {
  import opened Common
  import ChatKeys

  const CHALLENGE_SIZE := 192
  const MAX_SYNC_PAGES := 50
  const ID_LIMIT := 0x1_0000_0000
  const DEFAULT_TIMEOUT_MS := 30000

  const JOINER := 0
  const CREATOR := 1
  const CHANNEL := 2

  type uint32 = x: nat | x < ID_LIMIT

  datatype Phase = Idle | Connecting | AwaitingChallenge | AwaitingAuth | Registering | Authenticated

  datatype Kind = Joined | Text | Left | React | Edit | Remove | Reclaim | End | ClaimedElsewhere | Typing
                | ChannelJoin | ChannelPart | ChannelKicked | ChannelMode | UnknownKind

  predicate IsContent(kind: Kind) {
    kind.Text? || kind.React? || kind.Edit? || kind.Remove?
  }

  /** Kinds after which the room is over for this client. */
  predicate IsFinal(kind: Kind) {
    kind.End? || kind.ClaimedElsewhere? || kind.ChannelKicked?
  }

  datatype Message = Auth(nonce: string) | RegisterDevice | QueryChats | Envelope | Frame(token: string, kind: Kind)
                   | Request(expected: nat)

  /** A server message as the waiting call sees it: its kind and the request id it bears, 0 if none. */
  datatype Answer = Answer(kind: nat, id: uint32)

  datatype Slot = Slot(pending: bool, resolved: bool, requestId: uint32, expected: nat, response: Option<Answer>)

  const FREE := Slot(false, false, 0, 0, None)

  /**
   * `Happened` is written by whoever runs the client, before the event's code, with the phase it
   * found; `Attempted` is a message handed to the transport in some phase, with its request id or 0.
   */
  datatype Entry =
    | Happened(event: Event, phase: Phase)
    | Attempted(message: Message, phase: Phase, id: uint32)
    | ContentDelivered(token: string)
    | CallReturned(expected: nat, answer: Answer)

  datatype View = View(phase: Phase, nextId: uint32, syncPages: nat, challenge: string, rooms: seq<ChatKeys.Entry>,
                       call: Slot, log: seq<Entry>)

  const FRESH := View(Idle, 0, 0, "", [], FREE, [])

  // ---- what each stretch of code does -------------------------------------------------------------------------

  /** The counter skips zero. */
  function TakeId(id: uint32): (r: uint32)
    ensures r != 0
  {
    var next := (id + 1) % ID_LIMIT;
    if next == 0 then 1 else next
  }

  function Noted(v: View, e: Entry): View {
    v.(log := v.log + [e])
  }

  /** Hands a message to the transport; relay frames bear no request id. */
  function Attempt(v: View, m: Message): View {
    if m.Frame? then Noted(v, Attempted(m, v.phase, 0))
    else Noted(v.(nextId := TakeId(v.nextId)), Attempted(m, v.phase, TakeId(v.nextId)))
  }

  function SendAuth(v: View, signed: bool, sent: bool): View {
    if v.challenge == "" || !signed then v
    else
      var w := Attempt(v, Auth(v.challenge));
      if sent then w.(phase := AwaitingAuth) else w
  }

  function SendRegister(v: View, sent: bool): View {
    var w := Attempt(v, RegisterDevice);
    if sent then w.(phase := Registering) else w
  }

  function SyncPage(v: View, ready: bool): View {
    if v.phase != Authenticated || !ready then v else Attempt(v, QueryChats)
  }

  function StartSync(v: View, ready: bool): View {
    SyncPage(v.(syncPages := 1), ready)
  }

  function SendFrame(v: View, token: string, kind: Kind): View {
    if token == "" || v.phase != Authenticated then v else Attempt(v, Frame(token, kind))
  }

  function ChangeRooms(v: View, change: ChatKeys.Change): View {
    v.(rooms := ChatKeys.Apply(v.rooms, change))
  }

  /** Claims again every room this side is the joiner of. */
  function Rejoin(v: View, rooms: seq<ChatKeys.Entry>): View
    decreases |rooms|
  {
    if rooms == [] then v
    else Rejoin(if rooms[0].tag == JOINER then SendFrame(v, rooms[0].id, Joined) else v, rooms[1..])
  }

  /** The parameters are what the server, the cipher, the transport and the program choose. */
  datatype Event =
    | Opened
    | Closed
    | StartAsked(connected: bool)
    | ChallengeCame(nonce: Option<string>, signed: bool, sent: bool)
    | AuthAnswered(ok: bool, unregistered: bool, ready: bool, sent: bool)
    | RegisterAnswered(ok: bool, signed: bool, sent: bool)
    | ErrorCame(unknownDevice: bool, sent: bool)
    | RoomOffered(token: string, unsealed: Option<ChatKeys.Key>)
    | RoomTimedOut(token: string)
    | RelayCame(token: string, kind: Kind, fits: bool, readable: bool)
    | PageCame(more: bool, ready: bool)
    | AnswerCame(answer: Answer)
    | SyncAsked(ready: bool)
    | EnvelopeAsked(ready: bool)
    | ContentAsked(token: string, kind: Kind, built: bool)
    | FrameAsked(token: string, kind: Kind)
    | RoomRegistered(token: string, key: ChatKeys.Key)
    | RoomGranted(token: string, key: ChatKeys.Key, channel: bool)
    | RoomEnded(token: string)

  function AuthAnswer(v: View, ok: bool, unregistered: bool, ready: bool, sent: bool): View {
    if ok then
      var w := StartSync(v.(phase := Authenticated), ready);
      Rejoin(w, w.rooms)
    else if unregistered then SendRegister(v, sent)
    else v
  }

  function Offer(v: View, token: string, key: Option<ChatKeys.Key>): View {
    if token == "" || key == None || !ChatKeys.Acceptable(token) then v
    else SendFrame(ChangeRooms(v, ChatKeys.Learn(token, key.value, JOINER)), token, Joined)
  }

  function Relay(v: View, token: string, kind: Kind, fits: bool, readable: bool): View {
    if token == "" || !fits then v
    else if IsContent(kind) then
      if ChatKeys.Lookup(v.rooms, token) == None || !readable then v else Noted(v, ContentDelivered(token))
    else if IsFinal(kind) then ChangeRooms(v, ChatKeys.Forget(token))
    else v
  }

  /** A waiting call takes a message of the kind it expects that bears its own id or none. */
  function Resolved(call: Slot, answer: Answer): Slot {
    if call.pending && !call.resolved && answer.kind == call.expected && (answer.id == 0 || answer.id == call.requestId)
    then call.(resolved := true, response := Some(answer))
    else call
  }

  function Learned(v: View, token: string, key: ChatKeys.Key, tag: nat): View {
    if ChatKeys.Acceptable(token) then ChangeRooms(v, ChatKeys.Learn(token, key, tag)) else v
  }

  function Step(v: View, e: Event): View {
    match e
    case Opened => v.(phase := AwaitingChallenge)
    case Closed => v.(phase := Idle, challenge := "")
    case StartAsked(connected) => if v.phase == Idle && connected then v.(phase := Connecting) else v
    case ChallengeCame(nonce, signed, sent) =>
      if nonce == None || nonce.value == "" || |nonce.value| > CHALLENGE_SIZE then v
      else SendAuth(v.(challenge := nonce.value), signed, sent)
    case AuthAnswered(ok, unregistered, ready, sent) => AuthAnswer(v, ok, unregistered, ready, sent)
    case RegisterAnswered(ok, signed, sent) => if ok then SendAuth(v, signed, sent) else v
    case ErrorCame(unknownDevice, sent) => if unknownDevice then SendRegister(v, sent) else v
    case RoomOffered(token, unsealed) => Offer(v, token, unsealed)
    case RoomTimedOut(token) => ChangeRooms(v, ChatKeys.Forget(token))
    case RelayCame(token, kind, fits, readable) => Relay(v, token, kind, fits, readable)
    case PageCame(more, ready) =>
      if more && v.syncPages < MAX_SYNC_PAGES then SyncPage(v.(syncPages := v.syncPages + 1), ready) else v
    case AnswerCame(answer) => v.(call := Resolved(v.call, answer))
    case SyncAsked(ready) => if v.phase == Authenticated then StartSync(v, ready) else v
    case EnvelopeAsked(ready) => if v.phase == Authenticated && ready then Attempt(v, Envelope) else v
    case ContentAsked(token, kind, built) =>
      if !IsContent(kind) || ChatKeys.Lookup(v.rooms, token) == None || !built then v else SendFrame(v, token, kind)
    case FrameAsked(token, kind) => if IsContent(kind) then v else SendFrame(v, token, kind)
    case RoomRegistered(token, key) => Learned(v, token, key, JOINER)
    case RoomGranted(token, key, channel) => Learned(v, token, key, if channel then CHANNEL else CREATOR)
    case RoomEnded(token) => ChangeRooms(SendFrame(v, token, End), ChatKeys.Forget(token))
  }

  function Recorded(v: View, e: Event): View {
    Noted(v, Happened(e, v.phase))
  }

  /** An event is recorded, then its code runs. */
  function Occur(v: View, e: Event): View {
    Step(Recorded(v, e), e)
  }

  // ---- blocking calls ---------------------------------------------------------------------------------------------

  /** What may go on at any time, also while a call waits: events, and further calls. */
  datatype Turn = Happens(event: Event) | Calls(call: Call)

  /** One turn of the waiting loop: the clock, what goes on while the transport is serviced, its verdict. */
  datatype Slice = Slice(now: nat, turns: seq<Turn>, polled: Status)

  /** A program's blocking call; `after` is what goes on between its answer and the release of the slot. */
  datatype Call = Call(expected: nat, sent: Status, start: nat, timeout: int, slices: seq<Slice>, after: seq<Turn>)

  function Play(v: View, turn: Turn): View
    decreases turn
  {
    match turn
    case Happens(e) => Occur(v, e)
    case Calls(c) => CallDone(v, c)
  }

  function PlayAll(v: View, turns: seq<Turn>): View
    decreases turns
  {
    if turns == [] then v else PlayAll(Play(v, turns[0]), turns[1..])
  }

  function Released(v: View): View {
    v.(call := v.call.(pending := false, resolved := false, response := None))
  }

  /** Waits until resolved; the clock passes the deadline no later than when the slices end. */
  function Wait(v: View, deadline: nat, slices: seq<Slice>): (View, Status)
    decreases slices
  {
    if v.call.resolved then (v, Ok)
    else if slices == [] || slices[0].now >= deadline then (Released(v), Timeout)
    else
      var w := PlayAll(v, slices[0].turns);
      if slices[0].polled != Ok && slices[0].polled != Timeout then (Released(w), slices[0].polled)
      else Wait(w, deadline, slices[1..])
  }

  /** What entering a call answers before anything is sent. */
  function CallRefusal(v: View): Option<Status> {
    if v.phase != Authenticated then Some(NotConnected)
    else if v.call.pending then Some(State)
    else None
  }

  function Claimed(v: View, expected: nat): View {
    var w := Attempt(v, Request(expected));
    w.(call := Slot(true, false, w.nextId, expected, None))
  }

  function Deadline(c: Call): nat {
    c.start + (if c.timeout >= 0 then c.timeout else DEFAULT_TIMEOUT_MS)
  }

  /** The call up to its return: the state, the status. */
  function CallWaited(v: View, c: Call): (View, Status)
    decreases c, 0
  {
    if CallRefusal(v).Some? then (v, CallRefusal(v).value)
    else
      var w := Claimed(v, c.expected);
      if c.sent != Ok then (Released(w), c.sent) else Wait(w, Deadline(c), c.slices)
  }

  /** The whole call: its answer is lent to the program until the slot is released. */
  function CallDone(v: View, c: Call): View
    decreases c, 1
  {
    var (w, status) := CallWaited(v, c);
    if status != Ok || w.call.response == None then w
    else Released(PlayAll(Noted(w, CallReturned(c.expected, w.call.response.value)), c.after))
  }

  function Run(turns: seq<Turn>): View {
    PlayAll(FRESH, turns)
  }
}
