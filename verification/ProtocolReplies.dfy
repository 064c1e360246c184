/**
 * What the client must do at every event of every run: the messages it hands to the transport, the
 * content it delivers and the phase it goes to, told from the recorded events.
 */
module ProtocolReplies {
  import opened Common
  import ChatKeys
  import opened Protocol
  import opened ProtocolLog
  import opened ProtocolSafety

  /** A message with the next request id. */
  function Numbered(m: Message, phase: Phase, last: uint32): Entry {
    Attempted(m, phase, if last == 0xFFFF_FFFF then 1 else last + 1)
  }

  function Relayed(token: string, kind: Kind): Entry {
    Attempted(Frame(token, kind), Authenticated, 0)
  }

  predicate ContentKind(kind: Kind) {
    kind in {Text, React, Edit, Remove}
  }

  /**
   * The entries an event must add, from the log before it, the phase it finds, the id issued last and
   * the rooms held, in the order they were learned.
   */
  function Reply(log: seq<Entry>, phase: Phase, last: uint32, rooms: seq<ChatKeys.Entry>, e: Event): seq<Entry> {
    var authenticated := phase == Authenticated;
    match e
    case ChallengeCame(nonce, signed, _) =>
      if Usable(nonce) && signed then [Numbered(Auth(nonce.value), phase, last)] else []
    case RegisterAnswered(ok, signed, _) =>
      if ok && signed && NonceOf(log) != "" then [Numbered(Auth(NonceOf(log)), phase, last)] else []
    case ErrorCame(unknownDevice, _) => if unknownDevice then [Numbered(RegisterDevice, phase, last)] else []
    case AuthAnswered(ok, unregistered, ready, _) =>
      if ok then (if ready then [Numbered(QueryChats, Authenticated, last)] else []) + Joins(JoinerIds(rooms))
      else if unregistered then [Numbered(RegisterDevice, phase, last)]
      else []
    case RoomOffered(token, _) => if authenticated && Teaches(e, token) then [Relayed(token, Joined)] else []
    case RelayCame(token, kind, fits, readable) =>
      if fits && readable && ContentKind(kind) && HasKey(log, token) then [ContentDelivered(token)] else []
    case PageCame(more, ready) =>
      if more && ready && authenticated && Pages(log) < 50 then [Numbered(QueryChats, phase, last)] else []
    case SyncAsked(ready) => if authenticated && ready then [Numbered(QueryChats, phase, last)] else []
    case EnvelopeAsked(ready) => if authenticated && ready then [Numbered(Envelope, phase, last)] else []
    case ContentAsked(token, kind, built) =>
      if authenticated && built && ContentKind(kind) && HasKey(log, token) then [Relayed(token, kind)] else []
    case FrameAsked(token, kind) =>
      if authenticated && token != "" && !ContentKind(kind) then [Relayed(token, kind)] else []
    case RoomEnded(token) => if authenticated && token != "" then [Relayed(token, End)] else []
    case _ => []
  }

  /** The phase an event leads to; a message that could not be sent leads nowhere. */
  function PhaseAfter(log: seq<Entry>, phase: Phase, e: Event): Phase {
    match e
    case Opened => AwaitingChallenge
    case Closed => Idle
    case StartAsked(connected) => if phase == Idle && connected then Connecting else phase
    case ChallengeCame(nonce, signed, sent) => if Usable(nonce) && signed && sent then AwaitingAuth else phase
    case RegisterAnswered(ok, signed, sent) =>
      if ok && signed && sent && NonceOf(log) != "" then AwaitingAuth else phase
    case ErrorCame(unknownDevice, sent) => if unknownDevice && sent then Registering else phase
    case AuthAnswered(ok, unregistered, _, sent) =>
      if ok then Authenticated else if unregistered && sent then Registering else phase
    case _ => phase
  }

  lemma KeyHeld(v: View, token: string)
    requires Sound(v)
    ensures ChatKeys.Lookup(v.rooms, token).Some? <==> HasKey(v.log, token)
    ensures token == "" ==> !HasKey(v.log, token)
  {
    HeldIsTaught(v, token);
  }

  lemma HandshakeReplies(v: View, e: Event)
    requires v.challenge == NonceOf(v.log) && (e.ChallengeCame? || e.RegisterAnswered? || e.ErrorCame?)
    ensures Occur(v, e).log == v.log + [Happened(e, v.phase)] + Reply(v.log, v.phase, v.nextId, v.rooms, e)
    ensures Occur(v, e).phase == PhaseAfter(v.log, v.phase, e)
  {
    assert v.log + [Happened(e, v.phase)] + [] == v.log + [Happened(e, v.phase)];
  }

  lemma AcceptedReplies(v: View, e: Event)
    requires ChatKeys.Proper(v.rooms) && e.AuthAnswered? && e.ok
    ensures Occur(v, e).log == v.log + [Happened(e, v.phase)] + Reply(v.log, v.phase, v.nextId, v.rooms, e)
    ensures Occur(v, e).phase == Authenticated
  {
    var begun := Recorded(v, e).(phase := Authenticated);
    var page := if e.ready then [Numbered(QueryChats, Authenticated, v.nextId)] else [];
    SyncStarts(begun, e.ready);
    RejoinLogs(StartSync(begun, e.ready), v.rooms);
    Associate(begun.log, page, Joins(JoinerIds(v.rooms)));
  }

  lemma SyncStarts(v: View, ready: bool)
    requires v.phase == Authenticated
    ensures
      var w := StartSync(v, ready);
      && w.log == v.log + (if ready then [Numbered(QueryChats, Authenticated, v.nextId)] else [])
      && w.phase == Authenticated && w.rooms == v.rooms
  {
    assert v.log + [] == v.log;
  }

  lemma AuthReplies(v: View, e: Event)
    requires ChatKeys.Proper(v.rooms) && e.AuthAnswered?
    ensures Occur(v, e).log == v.log + [Happened(e, v.phase)] + Reply(v.log, v.phase, v.nextId, v.rooms, e)
    ensures Occur(v, e).phase == PhaseAfter(v.log, v.phase, e)
  {
    if e.ok {
      AcceptedReplies(v, e);
    } else {
      assert v.log + [Happened(e, v.phase)] + [] == v.log + [Happened(e, v.phase)];
    }
  }

  lemma RoomReplies(v: View, e: Event)
    requires e.RoomOffered? || e.RelayCame? || e.ContentAsked? || e.FrameAsked? || e.RoomEnded?
    requires ChatKeys.Lookup(v.rooms, e.token).Some? <==> HasKey(v.log, e.token)
    requires e.token == "" ==> !HasKey(v.log, e.token)
    ensures Occur(v, e).log == v.log + [Happened(e, v.phase)] + Reply(v.log, v.phase, v.nextId, v.rooms, e)
    ensures Occur(v, e).phase == PhaseAfter(v.log, v.phase, e)
  {
    assert v.log + [Happened(e, v.phase)] + [] == v.log + [Happened(e, v.phase)];
  }

  lemma OtherReplies(v: View, e: Event)
    requires v.syncPages == Pages(v.log)
    requires !e.ChallengeCame? && !e.RegisterAnswered? && !e.ErrorCame? && !e.AuthAnswered?
    requires !e.RoomOffered? && !e.RelayCame? && !e.ContentAsked? && !e.FrameAsked? && !e.RoomEnded?
    ensures Occur(v, e).log == v.log + [Happened(e, v.phase)] + Reply(v.log, v.phase, v.nextId, v.rooms, e)
    ensures Occur(v, e).phase == PhaseAfter(v.log, v.phase, e)
  {
    assert v.log + [Happened(e, v.phase)] + [] == v.log + [Happened(e, v.phase)];
  }

  lemma Knows(v: View)
    requires Sound(v)
    ensures v.challenge == NonceOf(v.log) && v.syncPages == Pages(v.log) && ChatKeys.Proper(v.rooms)
  {
    HeldIsTaught(v, "");
  }

  /** At every event of every run the client does this and nothing else. */
  lemma EventDoes(turns: seq<Turn>, e: Event)
    ensures
      var v := Run(turns);
      && Occur(v, e).log == v.log + [Happened(e, v.phase)] + Reply(v.log, v.phase, v.nextId, v.rooms, e)
      && Occur(v, e).phase == PhaseAfter(v.log, v.phase, e)
  {
    var v := Run(turns);
    RunSound(turns);
    Knows(v);
    if e.ChallengeCame? || e.RegisterAnswered? || e.ErrorCame? {
      HandshakeReplies(v, e);
    } else if e.AuthAnswered? {
      AuthReplies(v, e);
    } else if e.RoomOffered? || e.RelayCame? || e.ContentAsked? || e.FrameAsked? || e.RoomEnded? {
      KeyHeld(v, e.token);
      RoomReplies(v, e);
    } else {
      OtherReplies(v, e);
    }
  }
}
