/** What holds over every run of the protocol client. */
module ProtocolSafety {
  import opened Common
  import ChatKeys
  import opened Protocol
  import opened ProtocolLog

  // ---- the invariant ------------------------------------------------------------------------------------------

  /** What may be said of an entry from what came before it. */
  ghost predicate Good(before: seq<Entry>, e: Entry) {
    match e
    case Attempted(m, phase, id) =>
      && (phase == Authenticated ==> AuthLive(before))
      && (phase == Authenticated || m.Auth? || m.RegisterDevice?)
      && (m.Auth? ==> m.nonce != "" && m.nonce == NonceOf(before))
      && (m.QueryChats? ==> Queries(before) < MAX_SYNC_PAGES)
      && (m.Frame? && IsContent(m.kind) ==> HasKey(before, m.token))
    case ContentDelivered(token) => HasKey(before, token)
    case CallReturned(expected, answer) => Own(before, expected, answer)
    case Happened(_, phase) => phase == Authenticated ==> AuthLive(before)
  }

  ghost predicate GoodLog(log: seq<Entry>) {
    log == [] || (GoodLog(log[..|log| - 1]) && Good(log[..|log| - 1], log[|log| - 1]))
  }

  /** Every entry of a good log is good where it stands. */
  lemma {:induction false} GoodAt(log: seq<Entry>, i: nat)
    requires GoodLog(log) && i < |log|
    ensures Good(log[..i], log[i])
  {
    if i < |log| - 1 {
      var front := log[..|log| - 1];
      GoodAt(front, i);
      assert front[..i] == log[..i];
    }
  }

  /** The id of the k-th request: one to 2^32 - 1, and round again. */
  function IdAt(k: nat): (id: uint32)
    ensures id != 0
  {
    k % (ID_LIMIT - 1) + 1
  }

  /** A claimed slot belongs to the last request; a resolved one holds an answer to it. */
  ghost predicate SlotSound(call: Slot, log: seq<Entry>) {
    && (call.resolved ==> call.pending && call.response.Some? && Own(log, call.expected, call.response.value))
    && (call.pending ==>
          BehindRequest(log) > 0
          && log[BehindRequest(log) - 1] == Attempted(Request(call.expected), Authenticated, call.requestId))
  }

  ghost predicate Sound(v: View) {
    && GoodLog(v.log)
    && (v.phase == Authenticated ==> AuthLive(v.log))
    && v.challenge == NonceOf(v.log)
    && v.rooms == ChatKeys.Run(Changes(v.log))
    && Queries(v.log) <= v.syncPages == Pages(v.log) <= MAX_SYNC_PAGES
    && IdsSound(v)
    && SlotSound(v.call, v.log)
  }

  ghost predicate IdsSound(v: View) {
    Counted(Ids(v.log), v.nextId)
  }

  /** The ids are those of the first requests, in order; the last of them is the counter's. */
  ghost predicate Counted(ids: seq<uint32>, last: uint32) {
    && (forall k :: 0 <= k < |ids| ==> ids[k] == IdAt(k))
    && last == (if ids == [] then 0 else IdAt(|ids| - 1))
  }

  // ---- one entry more -------------------------------------------------------------------------------------------

  lemma Snoc(log: seq<Entry>, e: Entry)
    ensures NonceOf(log + [e]) ==
      match e
      case Happened(ChallengeCame(nonce, _, _), _) => if Usable(nonce) then nonce.value else NonceOf(log)
      case Happened(Closed, _) => ""
      case _ => NonceOf(log)
    ensures AuthLive(log + [e]) <==> !Closes(e) && (Accepts(e) || AuthLive(log))
    ensures Changes(log + [e]) == Changes(log) + ChangesBy(e)
    ensures Queries(log + [e]) == if StartsSync(e) then 0 else Queries(log) + (if IsQuery(e) then 1 else 0)
    ensures Pages(log + [e]) == if StartsSync(e) then 1 else if Announces(e) && Pages(log) < 50 then Pages(log) + 1 else Pages(log)
    ensures Ids(log + [e]) == Ids(log) + (if TakesId(e) then [e.id] else [])
    ensures BehindRequest(log + [e]) == if IsRequest(e) then |log| + 1 else BehindRequest(log)
    ensures GoodLog(log + [e]) <==> GoodLog(log) && Good(log, e)
  {
    assert (log + [e])[..|log|] == log;
  }

  /** What a request was answered stays its answer until the next request. */
  lemma OwnSnoc(log: seq<Entry>, e: Entry, expected: nat, answer: Answer)
    requires !IsRequest(e) && Own(log, expected, answer)
    ensures Own(log + [e], expected, answer)
  {
    Snoc(log, e);
    var q :| BehindRequest(log) <= q < |log| && Brings(log[q], answer);
    assert Brings((log + [e])[q], answer);
  }

  lemma SlotSnoc(call: Slot, log: seq<Entry>, e: Entry)
    requires SlotSound(call, log) && (call.pending ==> !IsRequest(e))
    ensures SlotSound(call, log + [e])
  {
    Snoc(log, e);
    if call.resolved {
      OwnSnoc(log, e, call.expected, call.response.value);
    }
  }

  lemma RunSnoc(changes: seq<ChatKeys.Change>, c: ChatKeys.Change)
    ensures ChatKeys.Run(changes + [c]) == ChatKeys.Apply(ChatKeys.Run(changes), c)
  {
    assert (changes + [c])[..|changes|] == changes;
  }

  lemma NextId(k: nat)
    ensures TakeId(IdAt(k)) == IdAt(k + 1)
    ensures TakeId(0) == IdAt(0)
  {
    var m := ID_LIMIT - 1;
    if k % m == m - 1 {
      assert (k + 1) % m == 0;
    } else {
      assert (k + 1) % m == k % m + 1;
    }
  }

  /** Among any 2^32 - 1 consecutive requests no two have the same id. */
  lemma IdsDistinct(j: nat, k: nat)
    requires j < k < j + ID_LIMIT - 1
    ensures IdAt(j) != IdAt(k)
  {
    var m, turns := ID_LIMIT - 1, k / (ID_LIMIT - 1) - j / (ID_LIMIT - 1);
    assert k - j == turns * m + (k % m - j % m);
    assert turns == 0 || turns == 1;
  }

  // ---- what an event changes at once --------------------------------------------------------------------------

  /** Where a recorded event leaves the phase, the nonce, the page count, the rooms and the slot before anything is sent. */
  function Settled(v: View, e: Event): View {
    var u := Recorded(v, e);
    match e
    case Opened => u.(phase := AwaitingChallenge)
    case Closed => u.(phase := Idle, challenge := "")
    case StartAsked(connected) => if v.phase == Idle && connected then u.(phase := Connecting) else u
    case ChallengeCame(nonce, _, _) => if Usable(nonce) then u.(challenge := nonce.value) else u
    case AuthAnswered(true, _, _, _) => u.(phase := Authenticated, syncPages := 1)
    case SyncAsked(_) => if v.phase == Authenticated then u.(syncPages := 1) else u
    case PageCame(more, _) => if more && v.syncPages < MAX_SYNC_PAGES then u.(syncPages := v.syncPages + 1) else u
    case AnswerCame(answer) => u.(call := Resolved(v.call, answer))
    case _ => if ChangeBy(e).Some? then ChangeRooms(u, ChangeBy(e).value) else u
  }

  /** What the events of the connection and the sync say of the state after them. */
  predicate Follows(v: View, e: Event, w: View) {
    && w.log == v.log + [Happened(e, v.phase)] && w.nextId == v.nextId
    && (w.phase == Authenticated ==> (v.phase == Authenticated && !e.Closed?) || (e.AuthAnswered? && e.ok))
    && w.syncPages == (if StartsSync(Happened(e, v.phase)) then 1
                       else if Announces(Happened(e, v.phase)) && v.syncPages < 50 then v.syncPages + 1
                       else v.syncPages)
    && w.challenge == (match e
                       case ChallengeCame(nonce, _, _) => if Usable(nonce) then nonce.value else v.challenge
                       case Closed => ""
                       case _ => v.challenge)
  }

  lemma SettledFollows(v: View, e: Event)
    ensures Follows(v, e, Settled(v, e))
    ensures Settled(v, e).call == if e.AnswerCame? then Resolved(v.call, e.answer) else v.call
  {
  }

  lemma SettledSound(v: View, e: Event)
    requires Sound(v)
    ensures Sound(Settled(v, e))
  {
    SettledFollows(v, e);
    RoomsSettle(v, e);
    SlotSettles(v, e);
    FollowsSound(v, e, Settled(v, e));
  }

  lemma FollowsSound(v: View, e: Event, w: View)
    requires Sound(v) && Follows(v, e, w) && SlotSound(w.call, w.log)
    requires w.rooms == ChatKeys.Run(Changes(v.log) + ChangesBy(Happened(e, v.phase)))
    ensures Sound(w)
  {
    Snoc(v.log, Happened(e, v.phase));
    assert Ids(v.log) + [] == Ids(v.log);
  }

  lemma SettledRooms(v: View, e: Event)
    ensures Settled(v, e).rooms == if ChangeBy(e).Some? then ChatKeys.Apply(v.rooms, ChangeBy(e).value) else v.rooms
  {
  }

  lemma RoomsSettle(v: View, e: Event)
    requires v.rooms == ChatKeys.Run(Changes(v.log))
    ensures Settled(v, e).rooms == ChatKeys.Run(Changes(v.log) + ChangesBy(Happened(e, v.phase)))
  {
    var before := Changes(v.log);
    SettledRooms(v, e);
    if ChangeBy(e).Some? {
      RunSnoc(before, ChangeBy(e).value);
    } else {
      assert before + [] == before;
    }
  }

  lemma SlotSettles(v: View, e: Event)
    requires SlotSound(v.call, v.log)
    ensures SlotSound(if e.AnswerCame? then Resolved(v.call, e.answer) else v.call, v.log + [Happened(e, v.phase)])
  {
    var entry := Happened(e, v.phase);
    Snoc(v.log, entry);
    SlotSnoc(v.call, v.log, entry);
    if e.AnswerCame? {
      assert Brings((v.log + [entry])[|v.log|], e.answer);
    }
  }

  // ---- every message keeps soundness --------------------------------------------------------------------------

  lemma AttemptSound(v: View, m: Message)
    requires Sound(v) && Good(v.log, Attempted(m, v.phase, 0)) && (m.QueryChats? ==> Queries(v.log) < v.syncPages)
    requires m.Request? ==> !v.call.pending
    ensures Sound(Attempt(v, m)) && Attempt(v, m).phase == v.phase
  {
    var e := Attempted(m, v.phase, if m.Frame? then 0 else TakeId(v.nextId));
    Snoc(v.log, e);
    SlotSnoc(v.call, v.log, e);
    assert Changes(v.log) + [] == Changes(v.log);
    AttemptIds(v, m);
  }

  lemma AttemptIds(v: View, m: Message)
    requires IdsSound(v)
    ensures IdsSound(Attempt(v, m))
  {
    Snoc(v.log, Attempted(m, v.phase, if m.Frame? then 0 else TakeId(v.nextId)));
    if m.Frame? {
      assert Ids(v.log) + [] == Ids(v.log);
    } else {
      CountOn(Ids(v.log), v.nextId);
    }
  }

  lemma CountOn(ids: seq<uint32>, last: uint32)
    requires Counted(ids, last)
    ensures Counted(ids + [TakeId(last)], TakeId(last))
  {
    NextId(if ids == [] then 0 else |ids| - 1);
  }

  lemma SendAuthSound(v: View, signed: bool, sent: bool)
    requires Sound(v)
    ensures Sound(SendAuth(v, signed, sent))
  {
    if v.challenge != "" && signed {
      AttemptSound(v, Auth(v.challenge));
    }
  }

  lemma SendRegisterSound(v: View, sent: bool)
    requires Sound(v)
    ensures Sound(SendRegister(v, sent))
  {
    AttemptSound(v, RegisterDevice);
  }

  lemma SyncPageSound(v: View, ready: bool)
    requires Sound(v) && Queries(v.log) < v.syncPages
    ensures Sound(SyncPage(v, ready)) && SyncPage(v, ready).phase == v.phase
  {
    if v.phase == Authenticated && ready {
      AttemptSound(v, QueryChats);
    }
  }

  lemma SendFrameSound(v: View, token: string, kind: Kind)
    requires Sound(v) && (IsContent(kind) ==> ChatKeys.Lookup(v.rooms, token).Some?)
    ensures Sound(SendFrame(v, token, kind)) && SendFrame(v, token, kind).phase == v.phase
  {
    if token != "" && v.phase == Authenticated {
      HeldIsTaught(v, token);
      AttemptSound(v, Frame(token, kind));
    }
  }

  /** The store of a sound state holds what the events taught. */
  lemma HeldIsTaught(v: View, token: string)
    requires Sound(v)
    ensures ChatKeys.Proper(v.rooms)
    ensures ChatKeys.Lookup(v.rooms, token)
         == if HasKey(v.log, token) then Some(Taught(LastAbout(v.log, token).value, token)) else None
  {
    ChatKeys.RunHoldsLatest(Changes(v.log), token);
    LatestIsTaught(v.log, token);
  }

  lemma {:induction false} RejoinSound(v: View, rooms: seq<ChatKeys.Entry>)
    requires Sound(v)
    ensures Sound(Rejoin(v, rooms))
    decreases |rooms|
  {
    if rooms != [] {
      if rooms[0].tag == JOINER {
        SendFrameSound(v, rooms[0].id, Joined);
        RejoinSound(SendFrame(v, rooms[0].id, Joined), rooms[1..]);
      } else {
        RejoinSound(v, rooms[1..]);
      }
    }
  }

  lemma DeliverSound(v: View, token: string)
    requires Sound(v) && ChatKeys.Lookup(v.rooms, token).Some?
    ensures Sound(Noted(v, ContentDelivered(token)))
  {
    HeldIsTaught(v, token);
    var e := ContentDelivered(token);
    Snoc(v.log, e);
    SlotSnoc(v.call, v.log, e);
    assert Changes(v.log) + [] == Changes(v.log) && Ids(v.log) + [] == Ids(v.log);
  }

  // ---- every event keeps soundness ------------------------------------------------------------------------------

  lemma AuthAnsweredSound(v: View, e: Event)
    requires Sound(v) && e.AuthAnswered?
    ensures Sound(Occur(v, e))
  {
    var w := Settled(v, e);
    SettledSound(v, e);
    if e.ok {
      Snoc(v.log, Happened(e, v.phase));
      SyncPageSound(w, e.ready);
      RejoinSound(SyncPage(w, e.ready), SyncPage(w, e.ready).rooms);
    } else if e.unregistered {
      SendRegisterSound(w, e.sent);
    }
  }

  /** After a challenge, an answered registration or an error: what is sent once the event has settled. */
  lemma HandshakeSends(v: View, e: Event)
    ensures e.ChallengeCame? ==>
              Occur(v, e) == if Usable(e.nonce) then SendAuth(Settled(v, e), e.signed, e.sent) else Settled(v, e)
    ensures e.RegisterAnswered? ==>
              Occur(v, e) == if e.ok then SendAuth(Settled(v, e), e.signed, e.sent) else Settled(v, e)
    ensures e.ErrorCame? ==>
              Occur(v, e) == if e.unknownDevice then SendRegister(Settled(v, e), e.sent) else Settled(v, e)
  {
  }

  lemma HandshakeSound(v: View, e: Event)
    requires Sound(v) && (e.ChallengeCame? || e.RegisterAnswered? || e.ErrorCame?)
    ensures Sound(Occur(v, e))
  {
    HandshakeSends(v, e);
    SettledSound(v, e);
    var w, after := Settled(v, e), Occur(v, e);
    if after != w {
      if e.ErrorCame? {
        SendRegisterSound(w, e.sent);
      } else if e.ChallengeCame? {
        SendAuthSound(w, e.signed, e.sent);
      } else {
        SendAuthSound(w, e.signed, e.sent);
      }
    }
  }

  /** After an event about a room: what is sent or delivered once it has settled. */
  lemma RoomSends(v: View, e: Event)
    ensures e.RoomOffered? ==>
              Occur(v, e) == Settled(v, e) || Occur(v, e) == SendFrame(Settled(v, e), e.token, Joined)
    ensures e.RoomEnded? ==> Occur(v, e) == SendFrame(Settled(v, e), e.token, End)
    ensures e.RoomTimedOut? || e.RoomRegistered? || e.RoomGranted? ==> Occur(v, e) == Settled(v, e)
    ensures e.RelayCame? ==>
              Occur(v, e) == Settled(v, e)
              || (ChatKeys.Lookup(Settled(v, e).rooms, e.token).Some?
                  && Occur(v, e) == Noted(Settled(v, e), ContentDelivered(e.token)))
  {
  }

  lemma OfferedSound(v: View, token: string, unsealed: Option<ChatKeys.Key>)
    requires Sound(v)
    ensures Sound(Occur(v, RoomOffered(token, unsealed)))
  {
    var e := RoomOffered(token, unsealed);
    RoomSends(v, e);
    SettledSound(v, e);
    SendFrameSound(Settled(v, e), token, Joined);
  }

  lemma EndedSound(v: View, token: string)
    requires Sound(v)
    ensures Sound(Occur(v, RoomEnded(token)))
  {
    var e := RoomEnded(token);
    RoomSends(v, e);
    SettledSound(v, e);
    SendFrameSound(Settled(v, e), token, End);
  }

  lemma RelaySound(v: View, e: Event)
    requires Sound(v) && e.RelayCame?
    ensures Sound(Occur(v, e))
  {
    RoomSends(v, e);
    SettledSound(v, e);
    if Occur(v, e) != Settled(v, e) {
      DeliverSound(Settled(v, e), e.token);
    }
  }

  lemma SyncAskedSound(v: View, ready: bool)
    requires Sound(v)
    ensures Sound(Occur(v, SyncAsked(ready)))
  {
    var e := SyncAsked(ready);
    SettledSound(v, e);
    if v.phase == Authenticated {
      Snoc(v.log, Happened(e, v.phase));
      SyncPageSound(Settled(v, e), ready);
    }
  }

  lemma PageSound(v: View, more: bool, ready: bool)
    requires Sound(v)
    ensures Sound(Occur(v, PageCame(more, ready)))
  {
    var e := PageCame(more, ready);
    SettledSound(v, e);
    if more && v.syncPages < MAX_SYNC_PAGES {
      Snoc(v.log, Happened(e, v.phase));
      SyncPageSound(Settled(v, e), ready);
    }
  }

  /** What the program asks to be sent. */
  lemma AskedSends(v: View, e: Event)
    ensures e.EnvelopeAsked? ==>
              Occur(v, e) == Settled(v, e) || (v.phase == Authenticated && Occur(v, e) == Attempt(Settled(v, e), Envelope))
    ensures e.FrameAsked? ==>
              Occur(v, e) == Settled(v, e)
              || (!IsContent(e.kind) && Occur(v, e) == SendFrame(Settled(v, e), e.token, e.kind))
    ensures e.ContentAsked? ==>
              Occur(v, e) == Settled(v, e)
              || (ChatKeys.Lookup(Settled(v, e).rooms, e.token).Some?
                  && Occur(v, e) == SendFrame(Settled(v, e), e.token, e.kind))
    ensures Settled(v, e).phase == Authenticated ==> v.phase == Authenticated || e.AuthAnswered?
  {
  }

  lemma AskedSound(v: View, e: Event)
    requires Sound(v) && (e.EnvelopeAsked? || e.ContentAsked? || e.FrameAsked?)
    ensures Sound(Occur(v, e))
  {
    AskedSends(v, e);
    SettledSound(v, e);
    if Occur(v, e) != Settled(v, e) {
      match e {
        case EnvelopeAsked(_) => AttemptSound(Settled(v, e), Envelope);
        case ContentAsked(token, kind, _) => SendFrameSound(Settled(v, e), token, kind);
        case FrameAsked(token, kind) => SendFrameSound(Settled(v, e), token, kind);
      }
    }
  }

  lemma OccurSound(v: View, e: Event)
    requires Sound(v)
    ensures Sound(Occur(v, e))
  {
    match e {
      case Opened => SettledSound(v, e);
      case Closed => SettledSound(v, e);
      case StartAsked(_) => SettledSound(v, e);
      case AnswerCame(_) => SettledSound(v, e);
      case AuthAnswered(_, _, _, _) => AuthAnsweredSound(v, e);
      case ChallengeCame(_, _, _) => HandshakeSound(v, e);
      case RegisterAnswered(_, _, _) => HandshakeSound(v, e);
      case ErrorCame(_, _) => HandshakeSound(v, e);
      case SyncAsked(ready) => SyncAskedSound(v, ready);
      case PageCame(more, ready) => PageSound(v, more, ready);
      case EnvelopeAsked(_) => AskedSound(v, e);
      case ContentAsked(_, _, _) => AskedSound(v, e);
      case FrameAsked(_, _) => AskedSound(v, e);
      case RoomOffered(token, unsealed) => OfferedSound(v, token, unsealed);
      case RoomEnded(token) => EndedSound(v, token);
      case RelayCame(_, _, _, _) => RelaySound(v, e);
      case _ =>
        RoomSends(v, e);
        SettledSound(v, e);
    }
  }

  // ---- a call's slot while it waits -----------------------------------------------------------------------------

  predicate SameSlot(a: Slot, b: Slot) {
    a.pending == b.pending && a.requestId == b.requestId && a.expected == b.expected
  }

  lemma {:induction false} RejoinKeepsSlot(v: View, rooms: seq<ChatKeys.Entry>)
    ensures Rejoin(v, rooms).call == v.call
    decreases |rooms|
  {
    if rooms != [] {
      RejoinKeepsSlot(if rooms[0].tag == JOINER then SendFrame(v, rooms[0].id, Joined) else v, rooms[1..]);
    }
  }

  /** No event frees, claims or retargets the slot; only an answer touches it. */
  lemma OccurKeepsSlot(v: View, e: Event)
    ensures SameSlot(Occur(v, e).call, v.call) && (!e.AnswerCame? ==> Occur(v, e).call == v.call)
  {
    if e.AuthAnswered? && e.ok {
      var w := StartSync(Recorded(v, e).(phase := Authenticated), e.ready);
      RejoinKeepsSlot(w, w.rooms);
    }
  }

  lemma {:induction false} RejoinKeepsRooms(v: View, rooms: seq<ChatKeys.Entry>)
    ensures Rejoin(v, rooms).rooms == v.rooms
    decreases |rooms|
  {
    if rooms != [] {
      RejoinKeepsRooms(if rooms[0].tag == JOINER then SendFrame(v, rooms[0].id, Joined) else v, rooms[1..]);
    }
  }

  /** An event makes its change to the key store and no other. */
  lemma OccurRooms(v: View, e: Event)
    ensures Occur(v, e).rooms == if ChangeBy(e).Some? then ChatKeys.Apply(v.rooms, ChangeBy(e).value) else v.rooms
  {
    if e.AuthAnswered? && e.ok {
      var w := StartSync(Recorded(v, e).(phase := Authenticated), e.ready);
      RejoinKeepsRooms(w, w.rooms);
    }
  }

  lemma {:induction false} PlaySnoc(v: View, turns: seq<Turn>, last: Turn)
    ensures PlayAll(v, turns + [last]) == Play(PlayAll(v, turns), last)
    decreases |turns|
  {
    if turns == [] {
      assert [] + [last] == [last] && [last][1..] == [];
    } else {
      assert (turns + [last])[1..] == turns[1..] + [last];
      PlaySnoc(Play(v, turns[0]), turns[1..], last);
    }
  }

  /** A call made while another waits is refused and changes nothing. */
  lemma NestedCallRefused(v: View, c: Call)
    requires v.call.pending
    ensures CallDone(v, c) == v && CallWaited(v, c).1 == if v.phase == Authenticated then State else NotConnected
  {
  }

  /** What goes on apart from calls. */
  function Quiet(turns: seq<Turn>): seq<Turn>
    decreases |turns|
  {
    if turns == [] then []
    else (if turns[0].Happens? then [turns[0]] else []) + Quiet(turns[1..])
  }

  /** While a call waits, whatever goes on keeps its slot, and calls tried meanwhile leave no trace. */
  lemma {:induction false} WaitingIgnoresCalls(v: View, turns: seq<Turn>)
    requires v.call.pending
    ensures PlayAll(v, turns) == PlayAll(v, Quiet(turns)) && SameSlot(PlayAll(v, turns).call, v.call)
    decreases |turns|
  {
    if turns != [] {
      match turns[0] {
        case Happens(e) =>
          OccurKeepsSlot(v, e);
          WaitingIgnoresCalls(Occur(v, e), turns[1..]);
          assert Quiet(turns)[1..] == Quiet(turns[1..]);
        case Calls(c) =>
          NestedCallRefused(v, c);
          WaitingIgnoresCalls(v, turns[1..]);
          assert Quiet(turns) == Quiet(turns[1..]);
      }
    }
  }

  function QuietSlices(slices: seq<Slice>): seq<Slice> {
    if slices == [] then []
    else [slices[0].(turns := Quiet(slices[0].turns))] + QuietSlices(slices[1..])
  }

  function QuietCall(c: Call): Call {
    c.(slices := QuietSlices(c.slices), after := Quiet(c.after))
  }

  lemma {:induction false} WaitIgnoresCalls(v: View, deadline: nat, slices: seq<Slice>)
    requires v.call.pending
    ensures
      var (w, status) := Wait(v, deadline, slices);
      && Wait(v, deadline, QuietSlices(slices)) == (w, status)
      && w.call.requestId == v.call.requestId && w.call.expected == v.call.expected
      && w.call.pending == w.call.resolved == (status == Ok)
    decreases |slices|
  {
    if !v.call.resolved && slices != [] && slices[0].now < deadline {
      var quiet := QuietSlices(slices);
      assert quiet[1..] == QuietSlices(slices[1..]);
      WaitingIgnoresCalls(v, slices[0].turns);
      WaitIgnoresCalls(PlayAll(v, slices[0].turns), deadline, slices[1..]);
    }
  }

  /** A call goes exactly as if no other call had been tried before it is over. */
  lemma CallIgnoresCalls(v: View, c: Call)
    ensures CallDone(v, QuietCall(c)) == CallDone(v, c)
  {
    if CallRefusal(v) == None {
      var w := Claimed(v, c.expected);
      if c.sent == Ok {
        WaitIgnoresCalls(w, Deadline(c), c.slices);
        var (x, status) := Wait(w, Deadline(c), c.slices);
        if status == Ok && x.call.response.Some? {
          WaitingIgnoresCalls(Noted(x, CallReturned(c.expected, x.call.response.value)), c.after);
        }
      }
    }
  }

  function QuietRun(turns: seq<Turn>): seq<Turn> {
    if turns == [] then []
    else [if turns[0].Calls? then Calls(QuietCall(turns[0].call)) else turns[0]] + QuietRun(turns[1..])
  }

  /** In any run, calls tried during other calls change nothing at all: not the slot, not the ids, not a message. */
  lemma {:induction false} NestedCallsIgnored(v: View, turns: seq<Turn>)
    ensures PlayAll(v, QuietRun(turns)) == PlayAll(v, turns)
    decreases |turns|
  {
    if turns != [] {
      assert QuietRun(turns)[1..] == QuietRun(turns[1..]);
      if turns[0].Calls? {
        CallIgnoresCalls(v, turns[0].call);
      }
      NestedCallsIgnored(Play(v, turns[0]), turns[1..]);
    }
  }

  // ---- every reachable state is sound -----------------------------------------------------------------------------

  lemma ClaimedSound(v: View, expected: nat)
    requires Sound(v) && CallRefusal(v) == None
    ensures Sound(Claimed(v, expected)) && Claimed(v, expected).call.pending
  {
    AttemptSound(v, Request(expected));
    Snoc(v.log, Attempted(Request(expected), v.phase, TakeId(v.nextId)));
  }

  lemma ReturnedSound(v: View, expected: nat)
    requires Sound(v) && v.call.resolved && v.call.expected == expected
    ensures Sound(Noted(v, CallReturned(expected, v.call.response.value)))
  {
    var e := CallReturned(expected, v.call.response.value);
    Snoc(v.log, e);
    SlotSnoc(v.call, v.log, e);
    assert Changes(v.log) + [] == Changes(v.log) && Ids(v.log) + [] == Ids(v.log);
  }

  lemma {:induction false} PlaySound(v: View, turn: Turn)
    requires Sound(v)
    ensures Sound(Play(v, turn))
    decreases turn
  {
    match turn {
      case Happens(e) => OccurSound(v, e);
      case Calls(c) => CallSound(v, c);
    }
  }

  lemma {:induction false} PlayAllSound(v: View, turns: seq<Turn>)
    requires Sound(v)
    ensures Sound(PlayAll(v, turns))
    decreases turns
  {
    if turns != [] {
      PlaySound(v, turns[0]);
      PlayAllSound(Play(v, turns[0]), turns[1..]);
    }
  }

  lemma {:induction false} WaitSound(v: View, deadline: nat, slices: seq<Slice>)
    requires Sound(v)
    ensures Sound(Wait(v, deadline, slices).0)
    decreases slices
  {
    if !v.call.resolved && slices != [] && slices[0].now < deadline {
      var w := PlayAll(v, slices[0].turns);
      PlayAllSound(v, slices[0].turns);
      ReleasedSound(w);
      WaitSound(w, deadline, slices[1..]);
    } else {
      ReleasedSound(v);
    }
  }

  lemma ReleasedSound(v: View)
    requires Sound(v)
    ensures Sound(Released(v))
  {
  }

  /** A call that was let in: on success its answer sits in its slot, otherwise the slot is free. */
  lemma {:induction false} CallWaitedSound(v: View, c: Call)
    requires Sound(v) && CallRefusal(v) == None
    ensures
      var (w, status) := CallWaited(v, c);
      && Sound(w) && w.call.pending == w.call.resolved == (status == Ok)
      && w.call.expected == c.expected && w.call.requestId == TakeId(v.nextId)
    decreases c, 0
  {
    ClaimedSound(v, c.expected);
    var w := Claimed(v, c.expected);
    if c.sent != Ok {
      ReleasedSound(w);
    } else {
      WaitSound(w, Deadline(c), c.slices);
      WaitIgnoresCalls(w, Deadline(c), c.slices);
    }
  }

  lemma {:induction false} CallSound(v: View, c: Call)
    requires Sound(v)
    ensures Sound(CallDone(v, c))
    decreases c, 1
  {
    if CallRefusal(v) == None {
      CallWaitedSound(v, c);
      var (w, status) := CallWaited(v, c);
      if status == Ok {
        ReturnedSound(w, c.expected);
        var u := Noted(w, CallReturned(c.expected, w.call.response.value));
        PlayAllSound(u, c.after);
        ReleasedSound(PlayAll(u, c.after));
      }
    }
  }

  /** Every reachable state is sound. */
  lemma RunSound(turns: seq<Turn>)
    ensures Sound(Run(turns))
  {
    PlayAllSound(FRESH, turns);
  }

  // ---- what this means -------------------------------------------------------------------------------------------

  lemma {:induction false} LiveSince(log: seq<Entry>) returns (i: nat)
    requires AuthLive(log)
    ensures i < |log| && Accepts(log[i]) && forall k :: i < k < |log| ==> !Closes(log[k])
  {
    if Accepts(log[|log| - 1]) {
      i := |log| - 1;
    } else {
      i := LiveSince(log[..|log| - 1]);
    }
  }

  /** If the client is authenticated, the server has said yes, and the connection has not closed since. */
  lemma AuthenticatedMeansAccepted(turns: seq<Turn>)
    requires Run(turns).phase == Authenticated
    ensures
      var log := Run(turns).log;
      exists i :: 0 <= i < |log| && Accepts(log[i]) && forall k :: i < k < |log| ==> !Closes(log[k])
  {
    RunSound(turns);
    var i := LiveSince(Run(turns).log);
  }

  /**
   * Whatever was handed to the transport outside the authenticated phase was an authentication or
   * a device registration, and every authentication carried the usable nonce that came last since the close.
   */
  lemma SendsGuarded(turns: seq<Turn>, i: nat)
    requires i < |Run(turns).log| && Run(turns).log[i].Attempted?
    ensures
      var log := Run(turns).log;
      var m := log[i].message;
      && (log[i].phase == Authenticated ==> AuthLive(log[..i]))
      && (log[i].phase != Authenticated ==> m.Auth? || m.RegisterDevice?)
      && (m.Auth? ==> m.nonce != "" && m.nonce == NonceOf(log[..i]))
  {
    RunSound(turns);
    GoodAt(Run(turns).log, i);
  }

  /** At most fifty pages are asked for from one start of a sync to the next. */
  lemma SyncBounded(turns: seq<Turn>)
    ensures Queries(Run(turns).log) <= MAX_SYNC_PAGES
  {
    RunSound(turns);
  }

  /** The k-th request id of any run, never zero, and no id twice among 2^32 - 1 in a row. */
  lemma RequestIds(turns: seq<Turn>, j: nat, k: nat)
    requires j < k < |Ids(Run(turns).log)|
    ensures Ids(Run(turns).log)[k] == k % 0xFFFF_FFFF + 1
    ensures k - j < 0xFFFF_FFFF ==> Ids(Run(turns).log)[j] != Ids(Run(turns).log)[k]
  {
    RunSound(turns);
    if k - j < ID_LIMIT - 1 {
      IdsDistinct(j, k);
    }
  }

  /** A room key is held exactly when the latest event that taught or ended the room taught it, and is what it taught. */
  lemma RoomKeys(turns: seq<Turn>, token: string)
    ensures
      var v := Run(turns);
      var last, held := LastAbout(v.log, token), ChatKeys.Lookup(v.rooms, token);
      && (held.Some? <==> last.Some? && Teaches(last.value, token))
      && (held.Some? ==> held.value == Taught(last.value, token))
      && ChatKeys.Proper(v.rooms)
  {
    RunSound(turns);
    HeldIsTaught(Run(turns), token);
  }

  /** Content is delivered, and sent, only for rooms whose key was held at that moment. */
  lemma ContentNeedsKey(turns: seq<Turn>, i: nat)
    requires i < |Run(turns).log|
    ensures
      var log := Run(turns).log;
      && (log[i].ContentDelivered? ==> HasKey(log[..i], log[i].token))
      && (log[i].Attempted? && log[i].message.Frame? && IsContent(log[i].message.kind) ==>
            HasKey(log[..i], log[i].message.token))
  {
    RunSound(turns);
    GoodAt(Run(turns).log, i);
  }

  function JoinerIds(rooms: seq<ChatKeys.Entry>): seq<string> {
    if rooms == [] then []
    else (if rooms[0].tag == JOINER then [rooms[0].id] else []) + JoinerIds(rooms[1..])
  }

  function Joins(tokens: seq<string>): seq<Entry> {
    if tokens == [] then [] else [Attempted(Frame(tokens[0], Joined), Authenticated, 0)] + Joins(tokens[1..])
  }

  lemma {:induction false} RejoinLogs(v: View, rooms: seq<ChatKeys.Entry>)
    requires v.phase == Authenticated && ChatKeys.Proper(rooms)
    ensures Rejoin(v, rooms) == v.(log := v.log + Joins(JoinerIds(rooms)))
    decreases |rooms|
  {
    if rooms == [] {
      assert v.log + [] == v.log;
    } else if rooms[0].tag == JOINER {
      var w := SendFrame(v, rooms[0].id, Joined);
      RejoinLogs(w, rooms[1..]);
      assert JoinerIds(rooms)[1..] == JoinerIds(rooms[1..]);
      Associate(v.log, [Attempted(Frame(rooms[0].id, Joined), Authenticated, 0)], Joins(JoinerIds(rooms[1..])));
    } else {
      RejoinLogs(v, rooms[1..]);
      assert JoinerIds(rooms) == JoinerIds(rooms[1..]);
    }
  }

  /**
   * Each accepted authentication asks for the first page of chats, if it can, and then claims, once
   * each and in the order they were learned, exactly the rooms this side is the joiner of.
   */
  lemma AcceptedRejoins(turns: seq<Turn>, e: Event)
    requires e.AuthAnswered? && e.ok
    ensures
      var v := Run(turns);
      var page := if e.ready then [Attempted(QueryChats, Authenticated, TakeId(v.nextId))] else [];
      Occur(v, e).log == v.log + [Happened(e, v.phase)] + page + Joins(JoinerIds(v.rooms))
  {
    var v := Run(turns);
    var w := StartSync(Recorded(v, e).(phase := Authenticated), e.ready);
    RoomKeys(turns, "");
    RejoinLogs(w, w.rooms);
  }

  /**
   * A call that succeeds has an answer of the kind it expects that bears the id it sent or none; one
   * that fails after being let in leaves the slot free.
   */
  lemma CallAnswered(turns: seq<Turn>, c: Call)
    requires CallRefusal(Run(turns)) == None
    ensures
      var v := Run(turns);
      var (w, status) := CallWaited(v, c);
      if status == Ok then
        w.call.response.Some? && w.call.response.value.kind == c.expected
        && (w.call.response.value.id == 0 || w.call.response.value.id == TakeId(v.nextId))
      else !w.call.pending
  {
    var v := Run(turns);
    RunSound(turns);
    CallWaitedSound(v, c);
    var w := CallWaited(v, c).0;
    if w.call.resolved {
      AnswerFits(w);
    }
  }

  lemma AnswerFits(v: View)
    requires Sound(v) && v.call.resolved
    ensures v.call.response.Some? && v.call.response.value.kind == v.call.expected
    ensures v.call.response.value.id == 0 || v.call.response.value.id == v.call.requestId
  {
  }

  lemma {:induction false} IdsPrefix(log: seq<Entry>, n: nat)
    requires n <= |log|
    ensures Ids(log[..n]) <= Ids(log)
  {
    if n < |log| {
      IdsPrefix(log[..|log| - 1], n);
      assert log[..|log| - 1][..n] == log[..n];
    } else {
      assert log[..n] == log;
    }
  }

  lemma IdsAround(log: seq<Entry>, n: nat)
    requires n < |log| && TakesId(log[n])
    ensures Ids(log[..n]) + [log[n].id] <= Ids(log)
  {
    var upTo := log[..n + 1];
    assert upTo[..n] == log[..n] && upTo[n] == log[n];
    IdsPrefix(log, n + 1);
  }

  /**
   * Every successful call of a run got its answer after its own request, of the kind it expects and
   * with its own id or none, and never with an id that any of the 2^32 - 2 requests before it bore:
   * a late answer to one of them is not taken.
   */
  lemma AnswersAreOwn(turns: seq<Turn>, i: nat, j: nat)
    requires i < |Run(turns).log| && Run(turns).log[i].CallReturned?
    ensures
      var log := Run(turns).log;
      var answer, p := log[i].answer, BehindRequest(log[..i]);
      && p > 0 && log[p - 1] == Attempted(Request(log[i].expected), Authenticated, log[p - 1].id)
      && (exists q :: p <= q < i && Brings(log[q], answer))
      && answer.kind == log[i].expected && (answer.id == 0 || answer.id == log[p - 1].id)
      && var earlier := Ids(log[..p - 1]);
         |earlier| - 0xFFFF_FFFE <= j < |earlier| && answer.id != 0 ==> answer.id != earlier[j]
  {
    var log, p := Run(turns).log, BehindRequest(Run(turns).log[..i]);
    RunSound(turns);
    GoodAt(log, i);
    GoodAt(log, p - 1);
    assert log[..i][p - 1] == log[p - 1];
    assert forall q :: p <= q < i ==> log[..i][q] == log[q];
    if log[i].answer.id != 0 {
      IdsAround(log, p - 1);
      var k := |Ids(log[..p - 1])|;
      if k - 0xFFFF_FFFE <= j < k {
        IdsDistinct(j, k);
      }
    }
  }

  /** The text an authentication signs always fits its buffer. */
  lemma AuthTextFits(address: string, deviceId: string, nonce: string)
    requires |address| < 64 && |deviceId| < 65 && |nonce| <= CHALLENGE_SIZE
    ensures |"evergram-auth:" + address + ":" + deviceId + ":" + nonce| < CHALLENGE_SIZE + 256
  {
  }
}
