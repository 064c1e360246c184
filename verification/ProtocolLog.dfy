/** How the log of a run is read: what its events say of the connection, the rooms, the sync and the calls. */
module ProtocolLog {
  import opened Common
  import ChatKeys
  import opened Protocol

  // ---- the connection and the sync ----------------------------------------------------------------------------

  /** A nonce the client can keep. */
  predicate Usable(nonce: Option<string>) {
    nonce.Some? && 0 < |nonce.value| <= 192
  }

  /** The usable nonce that came last since the connection last closed; empty if none did. */
  function NonceOf(log: seq<Entry>): string {
    if log == [] then ""
    else
      match log[|log| - 1]
      case Happened(ChallengeCame(nonce, _, _), _) => if Usable(nonce) then nonce.value else NonceOf(log[..|log| - 1])
      case Happened(Closed, _) => ""
      case _ => NonceOf(log[..|log| - 1])
  }

  /** The server answered an authentication with yes. */
  predicate Accepts(e: Entry) {
    e.Happened? && e.event.AuthAnswered? && e.event.ok
  }

  predicate Closes(e: Entry) {
    e.Happened? && e.event.Closed?
  }

  /** An authentication was accepted since the connection last closed. */
  predicate AuthLive(log: seq<Entry>) {
    log != [] && !Closes(log[|log| - 1]) && (Accepts(log[|log| - 1]) || AuthLive(log[..|log| - 1]))
  }

  /** A chat sync begins with an accepted authentication, or when an authenticated program asks for one. */
  predicate StartsSync(e: Entry) {
    Accepts(e) || (e.Happened? && e.event.SyncAsked? && e.phase == Authenticated)
  }

  /** Pages asked for since a sync was last started. */
  function Queries(log: seq<Entry>): nat {
    if log == [] || StartsSync(log[|log| - 1]) then 0
    else Queries(log[..|log| - 1]) + (if IsQuery(log[|log| - 1]) then 1 else 0)
  }

  /** The page the sync is at: the first when it starts, and one more for each that announces another, up to fifty. */
  function Pages(log: seq<Entry>): nat {
    if log == [] then 0
    else if StartsSync(log[|log| - 1]) then 1
    else if Announces(log[|log| - 1]) && Pages(log[..|log| - 1]) < 50 then Pages(log[..|log| - 1]) + 1
    else Pages(log[..|log| - 1])
  }

  /** A page came that is not the last. */
  predicate Announces(e: Entry) {
    e.Happened? && e.event.PageCame? && e.event.more
  }

  predicate IsQuery(e: Entry) {
    e.Attempted? && e.message.QueryChats?
  }

  /** The room's key is learned: it is offered and opens, or the program registers it, or an answer grants it. */
  predicate Teaches(e: Event, token: string) {
    ChatKeys.Acceptable(token) &&
    match e
    case RoomOffered(t, unsealed) => t == token && unsealed.Some?
    case RoomRegistered(t, _) => t == token
    case RoomGranted(t, _, _) => t == token
    case _ => false
  }

  /** The room is over: ended, claimed elsewhere or a kick, no visitor came in time, or ended here. */
  predicate Ends(e: Event, token: string) {
    match e
    case RelayCame(t, kind, fits, _) => t == token != "" && fits && kind in {End, ClaimedElsewhere, ChannelKicked}
    case RoomTimedOut(t) => t == token
    case RoomEnded(t) => t == token
    case _ => false
  }

  /** The latest event that taught or ended a room. */
  function LastAbout(log: seq<Entry>, token: string): (r: Option<Event>)
    ensures r.Some? ==> Teaches(r.value, token) || Ends(r.value, token)
  {
    if log == [] then None
    else
      var last := log[|log| - 1];
      if last.Happened? && (Teaches(last.event, token) || Ends(last.event, token)) then Some(last.event)
      else LastAbout(log[..|log| - 1], token)
  }

  /** What a teaching event says: the key, and what this side is in the room. */
  function Taught(e: Event, token: string): ChatKeys.Entry
    requires Teaches(e, token)
  {
    match e
    case RoomOffered(_, unsealed) => ChatKeys.Entry(token, unsealed.value, JOINER)
    case RoomRegistered(_, key) => ChatKeys.Entry(token, key, JOINER)
    case RoomGranted(_, key, channel) => ChatKeys.Entry(token, key, if channel then CHANNEL else CREATOR)
  }

  predicate HasKey(log: seq<Entry>, token: string) {
    LastAbout(log, token).Some? && Teaches(LastAbout(log, token).value, token)
  }

  /** The change an event makes to the key store. */
  function ChangeBy(e: Event): Option<ChatKeys.Change> {
    match e
    case RoomOffered(t, Some(key)) => Some(ChatKeys.Learn(t, key, JOINER))
    case RoomRegistered(t, key) => Some(ChatKeys.Learn(t, key, JOINER))
    case RoomGranted(t, key, channel) => Some(ChatKeys.Learn(t, key, if channel then CHANNEL else CREATOR))
    case RelayCame(t, kind, true, _) => if t != "" && IsFinal(kind) then Some(ChatKeys.Forget(t)) else None
    case RoomTimedOut(t) => Some(ChatKeys.Forget(t))
    case RoomEnded(t) => Some(ChatKeys.Forget(t))
    case _ => None
  }

  function Changes(log: seq<Entry>): seq<ChatKeys.Change> {
    if log == [] then [] else Changes(log[..|log| - 1]) + ChangesBy(log[|log| - 1])
  }

  function ChangesBy(e: Entry): seq<ChatKeys.Change> {
    if e.Happened? && ChangeBy(e.event).Some? then [ChangeBy(e.event).value] else []
  }

  /** What an event teaches or ends is what its change makes of the room. */
  lemma ChangeSays(before: seq<ChatKeys.Change>, e: Event, token: string)
    ensures
      var after := if ChangeBy(e).Some? then before + [ChangeBy(e).value] else before;
      ChatKeys.Latest(after, token)
        == if Teaches(e, token) then Some(Taught(e, token))
           else if Ends(e, token) then None
           else ChatKeys.Latest(before, token)
  {
    if ChangeBy(e).Some? {
      LatestSnoc(before, ChangeBy(e).value, token);
    }
  }

  lemma LatestSnoc(before: seq<ChatKeys.Change>, c: ChatKeys.Change, token: string)
    ensures ChatKeys.Latest(before + [c], token) ==
      match c
      case Learn(x, key, tag) =>
        if x == token && ChatKeys.Acceptable(x) then Some(ChatKeys.Entry(x, key, tag)) else ChatKeys.Latest(before, token)
      case Forget(x) => if x == token then None else ChatKeys.Latest(before, token)
  {
    assert (before + [c])[..|before|] == before;
  }

  /** The latest change of a room is the one its latest event makes. */
  lemma {:induction false} LatestIsTaught(log: seq<Entry>, token: string)
    ensures ChatKeys.Latest(Changes(log), token)
         == if HasKey(log, token) then Some(Taught(LastAbout(log, token).value, token)) else None
  {
    if log != [] {
      var before := Changes(log[..|log| - 1]);
      LatestIsTaught(log[..|log| - 1], token);
      assert before + [] == before;
      if log[|log| - 1].Happened? {
        ChangeSays(before, log[|log| - 1].event, token);
      }
    }
  }

  /** The request ids used, in order. */
  function Ids(log: seq<Entry>): seq<uint32> {
    if log == [] then []
    else Ids(log[..|log| - 1]) + (if TakesId(log[|log| - 1]) then [log[|log| - 1].id] else [])
  }

  predicate TakesId(e: Entry) {
    e.Attempted? && e.id != 0
  }

  predicate IsRequest(e: Entry) {
    e.Attempted? && e.message.Request?
  }

  /** Index just behind the last request of a blocking call. */
  function BehindRequest(log: seq<Entry>): (p: nat)
    ensures p <= |log|
    ensures forall q :: p <= q < |log| ==> !IsRequest(log[q])
    ensures p > 0 ==> IsRequest(log[p - 1])
  {
    if log == [] then 0
    else if IsRequest(log[|log| - 1]) then |log|
    else BehindRequest(log[..|log| - 1])
  }

  /** The answer came from the server since that request. */
  ghost predicate Heard(log: seq<Entry>, answer: Answer) {
    exists q :: BehindRequest(log) <= q < |log| && Brings(log[q], answer)
  }

  predicate Brings(e: Entry, answer: Answer) {
    e.Happened? && e.event == AnswerCame(answer)
  }

  /** The answer is of the kind the last request expects, bears its id or none, and came since. */
  ghost predicate Own(log: seq<Entry>, expected: nat, answer: Answer) {
    var p := BehindRequest(log);
    && p > 0 && log[p - 1].message == Request(expected)
    && answer.kind == expected && (answer.id == 0 || answer.id == log[p - 1].id)
    && Heard(log, answer)
  }
}
