/** The client's code: fields updated in place by its handlers and calls, each refining its step. */
module ProtocolClient {
  import opened Common
  import ChatKeys
  import opened Protocol

  class Client {
    var phase: Phase
    var nextRequestId: uint32
    var syncPages: nat
    var challenge: string
    var rooms: seq<ChatKeys.Entry>
    var call: Slot
    ghost var log: seq<Entry>

    ghost function V(): View
      reads this
    {
      View(phase, nextRequestId, syncPages, challenge, rooms, call, log)
    }

    constructor ()
      ensures V() == FRESH
    {
      phase, nextRequestId, syncPages, challenge, rooms, call := Idle, 0, 0, "", [], FREE;
      log := [];
    }

    method TakeRequestId() returns (id: uint32)
      modifies this`nextRequestId
      ensures id == nextRequestId == TakeId(old(nextRequestId))
    {
      nextRequestId := (nextRequestId + 1) % ID_LIMIT;
      if nextRequestId == 0 {
        nextRequestId := 1;
      }
      id := nextRequestId;
    }

    method SendMessage(m: Message)
      modifies this`nextRequestId, this`log
      ensures V() == Attempt(old(V()), m)
    {
      var id: uint32 := 0;
      if !m.Frame? {
        id := TakeRequestId();
      }
      log := log + [Attempted(m, phase, id)];
    }

    // ---- transport callbacks ----

    method OnTransportOpen()
      modifies this
      ensures V() == Step(old(V()), Opened)
    {
      phase := AwaitingChallenge;
    }

    method OnTransportClosed()
      modifies this
      ensures V() == Step(old(V()), Closed)
    {
      phase := Idle;
      challenge := "";
    }

    method Start(connected: bool) returns (status: Status)
      modifies this
      ensures V() == Step(old(V()), StartAsked(connected))
      ensures status == if old(phase) != Idle then State else if connected then Ok else Transport
    {
      if phase != Idle {
        return State;
      }
      phase := Connecting;
      if !connected {
        phase := Idle;
        return Transport;
      }
      return Ok;
    }

    // ---- handshake ----

    method HandshakeSendAuth(signed: bool, sent: bool) returns (status: Status)
      modifies this
      ensures V() == SendAuth(old(V()), signed, sent)
      ensures status == if old(challenge) == "" then State else if !signed then Crypto else if sent then Ok else Transport
    {
      if |challenge| == 0 {
        return State;
      }
      if !signed {
        return Crypto;
      }
      SendMessage(Auth(challenge));
      if !sent {
        return Transport;
      }
      phase := AwaitingAuth;
      return Ok;
    }

    method HandshakeSendRegisterDevice(sent: bool) returns (status: Status)
      modifies this
      ensures V() == SendRegister(old(V()), sent)
    {
      SendMessage(RegisterDevice);
      if !sent {
        return Transport;
      }
      phase := Registering;
      return Ok;
    }

    method HandleAuthChallenge(nonce: Option<string>, signed: bool, sent: bool)
      modifies this
      ensures V() == Step(old(V()), ChallengeCame(nonce, signed, sent))
    {
      if nonce == None {
        return;
      }
      var length := |nonce.value|;
      if length == 0 || length > CHALLENGE_SIZE {
        return;
      }
      challenge := nonce.value;
      var status := HandshakeSendAuth(signed, sent);
    }

    method HandleAuthResponse(ok: bool, unregistered: bool, ready: bool, sent: bool)
      modifies this
      ensures V() == Step(old(V()), AuthAnswered(ok, unregistered, ready, sent))
    {
      if ok {
        phase := Authenticated;
        syncPages := 1;
        SyncChatsPage(ready);
        RoomsRejoin();
        return;
      }
      if unregistered {
        var status := HandshakeSendRegisterDevice(sent);
      }
    }

    method HandleRegisterDeviceResponse(ok: bool, signed: bool, sent: bool)
      modifies this
      ensures V() == Step(old(V()), RegisterAnswered(ok, signed, sent))
    {
      if ok {
        var status := HandshakeSendAuth(signed, sent);
      }
    }

    method HandleError(unknownDevice: bool, sent: bool)
      modifies this
      ensures V() == Step(old(V()), ErrorCame(unknownDevice, sent))
    {
      if unknownDevice {
        var status := HandshakeSendRegisterDevice(sent);
      }
    }

    // ---- chat sync ----

    method SyncChatsPage(ready: bool)
      modifies this`nextRequestId, this`log
      ensures V() == SyncPage(old(V()), ready)
    {
      if phase != Authenticated || !ready {
        return;
      }
      SendMessage(QueryChats);
    }

    method SyncChats(ready: bool) returns (status: Status)
      modifies this
      ensures V() == Step(old(V()), SyncAsked(ready))
      ensures phase != Authenticated ==> status == NotConnected
    {
      if phase != Authenticated {
        return NotConnected;
      }
      syncPages := 1;
      SyncChatsPage(ready);
      return Ok;
    }

    /** The end of a page with a cursor to the next one. */
    method NextPage(more: bool, ready: bool)
      modifies this
      ensures V() == Step(old(V()), PageCame(more, ready))
    {
      if more && syncPages < MAX_SYNC_PAGES {
        syncPages := syncPages + 1;
        SyncChatsPage(ready);
      }
    }

    method SendEnvelope(ready: bool) returns (status: Status)
      modifies this
      ensures V() == Step(old(V()), EnvelopeAsked(ready))
    {
      if phase != Authenticated {
        return NotConnected;
      }
      if !ready {
        return InvalidArg;
      }
      SendMessage(Envelope);
      return Ok;
    }

    // ---- visitor rooms ----

    method VisitorSendFrame(token: string, kind: Kind) returns (status: Status)
      modifies this`nextRequestId, this`log
      ensures V() == SendFrame(old(V()), token, kind)
      ensures status == if token == "" then InvalidArg else if phase != Authenticated then NotConnected else Ok
    {
      if token == "" {
        return InvalidArg;
      }
      if phase != Authenticated {
        return NotConnected;
      }
      SendMessage(Frame(token, kind));
      return Ok;
    }

    /** Goes through the store in order, as it stands; sending changes nothing in it. */
    method RoomsRejoin()
      requires phase == Authenticated
      modifies this`nextRequestId, this`log
      ensures V() == Rejoin(old(V()), rooms)
    {
      ghost var whole := Rejoin(V(), rooms);
      for i := 0 to |rooms|
        invariant phase == Authenticated && Rejoin(V(), rooms[i..]) == whole
      {
        assert rooms[i..][1..] == rooms[i + 1..];
        if rooms[i].tag != JOINER {
          continue;
        }
        var status := VisitorSendFrame(rooms[i].id, Joined);
      }
    }

    method HandleVisitorRoomRequested(token: string, unsealed: Option<ChatKeys.Key>)
      modifies this
      ensures V() == Step(old(V()), RoomOffered(token, unsealed))
    {
      if token == "" || unsealed == None {
        return;
      }
      if !ChatKeys.Acceptable(token) {
        return;
      }
      Change(ChatKeys.Learn(token, unsealed.value, JOINER));
      var joined := VisitorSendFrame(token, Joined);
    }

    method Change(change: ChatKeys.Change)
      modifies this`rooms
      ensures V() == ChangeRooms(old(V()), change)
    {
      rooms := ChatKeys.Apply(rooms, change);
    }

    method HandleVisitorRoomTimedOut(token: string)
      modifies this
      ensures V() == Step(old(V()), RoomTimedOut(token))
    {
      Change(ChatKeys.Forget(token));
    }

    /** `fits`: the payload fits its buffer; `readable`: a content frame opened and parsed. */
    method HandleRelayMessage(token: string, kind: Kind, fits: bool, readable: bool)
      modifies this
      ensures V() == Step(old(V()), RelayCame(token, kind, fits, readable))
    {
      if token == "" || !fits {
        return;
      }
      if IsContent(kind) {
        if ChatKeys.Lookup(rooms, token) == None {
          return;
        }
        if readable {
          log := log + [ContentDelivered(token)];
        }
        return;
      }
      match kind {
        case End => Change(ChatKeys.Forget(token));
        case ClaimedElsewhere => Change(ChatKeys.Forget(token));
        case ChannelKicked => Change(ChatKeys.Forget(token));
        case _ =>
      }
    }

    method VisitorRegisterRoom(token: string, key: ChatKeys.Key) returns (status: Status)
      modifies this
      ensures V() == Step(old(V()), RoomRegistered(token, key))
      ensures status == if ChatKeys.Acceptable(token) then Ok else InvalidArg
    {
      if !ChatKeys.Acceptable(token) {
        return InvalidArg;
      }
      Change(ChatKeys.Learn(token, key, JOINER));
      return Ok;
    }

    /** What creating a room or subscribing to a channel does with the room its answer grants. */
    method StoreGranted(token: string, key: ChatKeys.Key, channel: bool) returns (status: Status)
      modifies this
      ensures V() == Step(old(V()), RoomGranted(token, key, channel))
    {
      if !ChatKeys.Acceptable(token) {
        return InvalidArg;
      }
      Change(ChatKeys.Learn(token, key, if channel then CHANNEL else CREATOR));
      return Ok;
    }

    /** The key is forgotten whether or not the frame could be sent. */
    method VisitorEndRoom(token: string) returns (status: Status)
      modifies this
      ensures V() == Step(old(V()), RoomEnded(token))
    {
      status := VisitorSendFrame(token, End);
      Change(ChatKeys.Forget(token));
    }

    method VisitorSendContent(token: string, kind: Kind, built: bool) returns (status: Status)
      requires IsContent(kind)
      modifies this
      ensures V() == Step(old(V()), ContentAsked(token, kind, built))
    {
      if ChatKeys.Lookup(rooms, token) == None {
        return NoRoomKey;
      }
      if !built {
        return BufferTooSmall;
      }
      status := VisitorSendFrame(token, kind);
    }

    // ---- the call slot ----

    /** The end of every dispatch: a waiting call may take the message. */
    method ResolveCall(answer: Answer)
      modifies this
      ensures V() == Step(old(V()), AnswerCame(answer))
    {
      if call.pending && !call.resolved && answer.kind == call.expected && (answer.id == 0 || answer.id == call.requestId) {
        call := call.(response := Some(answer), resolved := true);
      }
    }

    method CallRelease()
      modifies this`call
      ensures V() == Released(old(V()))
    {
      call := call.(response := None, pending := false, resolved := false);
    }

    // ---- runs ----

    /** The transport, the server and the program, as far as this client sees them: one event. */
    method Happen(e: Event)
      modifies this
      ensures V() == Occur(old(V()), e)
    {
      log := log + [Happened(e, phase)];
      var status;
      match e {
        case Opened => OnTransportOpen();
        case Closed => OnTransportClosed();
        case StartAsked(connected) => status := Start(connected);
        case ChallengeCame(nonce, signed, sent) => HandleAuthChallenge(nonce, signed, sent);
        case AuthAnswered(ok, unregistered, ready, sent) => HandleAuthResponse(ok, unregistered, ready, sent);
        case RegisterAnswered(ok, signed, sent) => HandleRegisterDeviceResponse(ok, signed, sent);
        case ErrorCame(unknownDevice, sent) => HandleError(unknownDevice, sent);
        case RoomOffered(token, unsealed) => HandleVisitorRoomRequested(token, unsealed);
        case RoomTimedOut(token) => HandleVisitorRoomTimedOut(token);
        case RelayCame(token, kind, fits, readable) => HandleRelayMessage(token, kind, fits, readable);
        case PageCame(more, ready) => NextPage(more, ready);
        case AnswerCame(answer) => ResolveCall(answer);
        case SyncAsked(ready) => status := SyncChats(ready);
        case EnvelopeAsked(ready) => status := SendEnvelope(ready);
        case ContentAsked(token, kind, built) =>
          if IsContent(kind) {
            status := VisitorSendContent(token, kind, built);
          }
        case FrameAsked(token, kind) =>
          if !IsContent(kind) {
            status := VisitorSendFrame(token, kind);
          }
        case RoomRegistered(token, key) => status := VisitorRegisterRoom(token, key);
        case RoomGranted(token, key, channel) => status := StoreGranted(token, key, channel);
        case RoomEnded(token) => status := VisitorEndRoom(token);
      }
    }

    /** A stretch of a run, calls within calls included. */
    method Go(turns: seq<Turn>)
      modifies this
      ensures V() == PlayAll(old(V()), turns)
      decreases turns, 0
    {
      ghost var whole := PlayAll(V(), turns);
      for i := 0 to |turns|
        invariant PlayAll(V(), turns[i..]) == whole
      {
        assert turns[i..][1..] == turns[i + 1..];
        Take(turns[i]);
      }
    }

    method Take(turn: Turn)
      modifies this
      ensures V() == Play(old(V()), turn)
      decreases turn, 0
    {
      match turn {
        case Happens(e) => Happen(e);
        case Calls(c) => Perform(c);
      }
    }

    /** A wrapper of a blocking call: what it does with the answer, then the end of the call. */
    method Perform(c: Call)
      modifies this
      ensures V() == CallDone(old(V()), c)
      decreases c, 1
    {
      var status, response := BlockingCall(c);
      if status == Ok && response.Some? {
        log := log + [CallReturned(c.expected, response.value)];
        Go(c.after);
        CallRelease();
      }
    }

    /** One blocking call; the answer is lent to the caller until it finishes the call. */
    method BlockingCall(c: Call) returns (status: Status, response: Option<Answer>)
      modifies this
      ensures (V(), status) == CallWaited(old(V()), c)
      ensures status == Ok ==> response == call.response
      decreases c, 0
    {
      response := None;
      if phase != Authenticated {
        return NotConnected, None;
      }
      if call.pending {
        return State, None;
      }
      SendMessage(Request(c.expected));
      call := Slot(true, false, nextRequestId, c.expected, None);
      if c.sent != Ok {
        CallRelease();
        return c.sent, None;
      }
      var budget := if c.timeout >= 0 then c.timeout else DEFAULT_TIMEOUT_MS;
      status := WaitForAnswer(c.start + budget, c.slices);
      if status == Ok {
        response := call.response;
      }
    }

    method WaitForAnswer(deadline: nat, slices: seq<Slice>) returns (status: Status)
      modifies this
      ensures (V(), status) == Wait(old(V()), deadline, slices)
      decreases slices, 0
    {
      ghost var whole := Wait(V(), deadline, slices);
      var i := 0;
      while !call.resolved
        invariant i <= |slices| && Wait(V(), deadline, slices[i..]) == whole
        decreases |slices| - i
      {
        if i == |slices| || slices[i].now >= deadline {
          CallRelease();
          return Timeout;
        }
        assert slices[i..][1..] == slices[i + 1..];
        Go(slices[i].turns);
        if slices[i].polled != Ok && slices[i].polled != Timeout {
          CallRelease();
          return slices[i].polled;
        }
        i := i + 1;
      }
      return Ok;
    }
  }
}
