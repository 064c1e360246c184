/**
 * The bot's table of visitor rooms: a small unordered array with removal by moving the last entry,
 * kept beside the client's room keys by the bot's callbacks and calls.
 */
module BotRooms {
  import opened Common
  import ChatKeys
  import Protocol
  import ProtocolLog
  import ProtocolSafety

  const MAX_ROOMS := 64
  const TOKEN_SIZE := 128
  const WIDGET_SIZE := 128
  const LABEL_SIZE := 128
  const ORIGIN_SIZE := 256

  datatype Handle = Handle(token: string, widget: string, visitorLabel: string, origin: string)

  // ---- the simple view -----------------------------------------------------------------------------------

  /** Place of the room with that token, or the number of rooms. */
  function Find(rooms: seq<Handle>, token: string): (i: nat)
    ensures i <= |rooms|
    ensures i < |rooms| ==> rooms[i].token == token
    ensures forall k :: 0 <= k < i ==> rooms[k].token != token
  {
    if rooms == [] || rooms[0].token == token then 0 else 1 + Find(rooms[1..], token)
  }

  /** The last room takes the place of the one removed. */
  function Removed(rooms: seq<Handle>, token: string): (r: seq<Handle>)
    ensures |r| == if Find(rooms, token) < |rooms| then |rooms| - 1 else |rooms|
  {
    var i := Find(rooms, token);
    if i == |rooms| then rooms else rooms[i := rooms[|rooms| - 1]][..|rooms| - 1]
  }

  /** What an entry keeps of a room. */
  function Kept(h: Handle): Handle {
    Handle(CopyBounded(TOKEN_SIZE, h.token), CopyBounded(WIDGET_SIZE, h.widget),
           CopyBounded(LABEL_SIZE, h.visitorLabel), CopyBounded(ORIGIN_SIZE, h.origin))
  }

  /** A known room is updated in place; a full table forgets the room in its first slot. */
  function Remembered(rooms: seq<Handle>, h: Handle): seq<Handle> {
    if h.token == "" then rooms
    else
      var i := Find(rooms, h.token);
      if i < |rooms| then rooms[i := Kept(h).(token := rooms[i].token)]
      else if |rooms| == MAX_ROOMS then Removed(rooms, rooms[0].token) + [Kept(h)]
      else rooms + [Kept(h)]
  }

  predicate Distinct(rooms: seq<Handle>) {
    forall i, j :: 0 <= i < j < |rooms| ==> rooms[i].token != rooms[j].token
  }

  function Tokens(rooms: seq<Handle>): set<string> {
    set i | 0 <= i < |rooms| :: rooms[i].token
  }

  /** Removal takes out that room and no other. */
  lemma RemovedIsSetRemoval(rooms: seq<Handle>, token: string)
    requires Distinct(rooms)
    ensures Distinct(Removed(rooms, token))
    ensures Tokens(Removed(rooms, token)) == Tokens(rooms) - {token}
  {
    var i, after := Find(rooms, token), Removed(rooms, token);
    if i < |rooms| {
      var last := |rooms| - 1;
      assert forall k :: 0 <= k < last ==> after[k] == if k == i then rooms[last] else rooms[k];
      forall t | t in Tokens(rooms) - {token} ensures t in Tokens(after) {
        var k :| 0 <= k < |rooms| && rooms[k].token == t;
        assert after[if k == last then i else k].token == t;
      }
      forall t | t in Tokens(after) ensures t in Tokens(rooms) - {token} {
        var k :| 0 <= k < |after| && after[k].token == t;
        assert rooms[if k == i then last else k].token == t;
      }
    } else {
      assert token !in Tokens(rooms);
    }
  }

  /** Remembering a room whose token fits keeps the table bounded and free of doubles, and adds only that room. */
  lemma RememberedIsSetInsertion(rooms: seq<Handle>, h: Handle)
    requires Distinct(rooms) && |rooms| <= MAX_ROOMS && 0 < |h.token| < TOKEN_SIZE
    ensures Distinct(Remembered(rooms, h)) && |Remembered(rooms, h)| <= MAX_ROOMS
    ensures h.token in Tokens(Remembered(rooms, h)) && Tokens(Remembered(rooms, h)) <= Tokens(rooms) + {h.token}
    ensures |rooms| < MAX_ROOMS || h.token in Tokens(rooms) ==> Tokens(rooms) <= Tokens(Remembered(rooms, h))
  {
    var i, after := Find(rooms, h.token), Remembered(rooms, h);
    if i < |rooms| {
      assert forall k :: 0 <= k < |rooms| ==> after[k].token == rooms[k].token;
      assert after[i].token == h.token;
      assert Tokens(after) == Tokens(rooms) by {
        forall t ensures t in Tokens(after) <==> t in Tokens(rooms) {
          if t in Tokens(after) {
            var k :| 0 <= k < |after| && after[k].token == t;
            assert rooms[k].token == t;
          }
          if t in Tokens(rooms) {
            var k :| 0 <= k < |rooms| && rooms[k].token == t;
            assert after[k].token == t;
          }
        }
      }
    } else if |rooms| == MAX_ROOMS {
      RemovedIsSetRemoval(rooms, rooms[0].token);
      Appended(Removed(rooms, rooms[0].token), h);
    } else {
      Appended(rooms, h);
    }
  }

  /** What the table keeps of a room: its token and the three texts, each cut to its buffer. */
  predicate Describes(x: Handle, h: Handle) {
    && x.token == h.token && CutTo(x.widget, h.widget, 128)
    && CutTo(x.visitorLabel, h.visitorLabel, 128) && CutTo(x.origin, h.origin, 256)
  }

  /** Removal leaves every other room as it is. */
  lemma RemovedKeepsOthers(rooms: seq<Handle>, token: string, x: Handle)
    requires Distinct(rooms)
    ensures x in Removed(rooms, token) <==> x in rooms && x.token != token
  {
    var i, after := Find(rooms, token), Removed(rooms, token);
    if i < |rooms| {
      var last := |rooms| - 1;
      assert forall k :: 0 <= k < last ==> after[k] == if k == i then rooms[last] else rooms[k];
      if x in rooms && x.token != token {
        var k :| 0 <= k < |rooms| && rooms[k] == x;
        assert after[if k == last then i else k] == x;
      }
      if x in after {
        var k :| 0 <= k < |after| && after[k] == x;
        assert rooms[if k == i then last else k] == x;
      }
    }
  }

  /**
   * After a room is remembered the table holds it with its own texts, and every other room it held
   * before as it was, except that a full table loses the one in its first slot to a newcomer.
   */
  lemma RememberedExactly(rooms: seq<Handle>, h: Handle, x: Handle)
    requires Distinct(rooms) && |rooms| <= 64 && 0 < |h.token| < 128
    ensures
      var full := |rooms| == 64 && forall k :: 0 <= k < |rooms| ==> rooms[k].token != h.token;
      var left := x in rooms && x.token != h.token && (full ==> x != rooms[0]);
      x in Remembered(rooms, h) <==> Describes(x, h) || left
  {
    var i, after := Find(rooms, h.token), Remembered(rooms, h);
    OneDescription(x, h);
    if i < |rooms| {
      assert after == rooms[i := Kept(h)];
      if x in after {
        var k :| 0 <= k < |after| && after[k] == x;
        assert k != i ==> rooms[k] == x;
      }
      if x in rooms && x.token != h.token {
        var k :| 0 <= k < |rooms| && rooms[k] == x;
        assert after[k] == x;
      }
      assert after[i] == Kept(h);
    } else if |rooms| == MAX_ROOMS {
      RemovedKeepsOthers(rooms, rooms[0].token, x);
    }
  }

  lemma OneDescription(x: Handle, h: Handle)
    requires |h.token| < 128
    ensures Describes(x, h) <==> x == Kept(h)
  {
    if Describes(x, h) {
      OneCut(x.widget, Kept(h).widget, h.widget, 128);
      OneCut(x.visitorLabel, Kept(h).visitorLabel, h.visitorLabel, 128);
      OneCut(x.origin, Kept(h).origin, h.origin, 256);
    }
  }

  lemma OneCut(a: string, b: string, given: string, size: nat)
    requires size > 0 && CutTo(a, given, size) && CutTo(b, given, size)
    ensures a == b
  {
  }

  lemma Appended(rooms: seq<Handle>, h: Handle)
    requires Distinct(rooms) && h.token !in Tokens(rooms) && |h.token| < TOKEN_SIZE
    ensures Distinct(rooms + [Kept(h)]) && Tokens(rooms + [Kept(h)]) == Tokens(rooms) + {h.token}
  {
    var after := rooms + [Kept(h)];
    assert after[|rooms|].token == h.token;
    forall t | t in Tokens(rooms) ensures t in Tokens(after) {
      var k :| 0 <= k < |rooms| && rooms[k].token == t;
      assert after[k].token == t;
    }
    forall k | 0 <= k < |rooms| ensures rooms[k].token != h.token {
      assert rooms[k].token in Tokens(rooms);
    }
  }

  // ---- whole runs ---------------------------------------------------------------------------------------------

  /**
   * What happens to the client and, through the bot's callbacks and calls, to the table. A final
   * state is two steps: the client forgets the key and the program is told, which may do anything;
   * then the table forgets the room. `details` is what the offer, or the program, says of the room.
   */
  datatype Step =
    | Event(event: Protocol.Event, details: Option<Handle>)
    | FinalDone
    | Forgotten(token: string)

  /** `telling`: final states the program is being told of, the innermost last. */
  datatype Tables = Tables(rooms: seq<Handle>, client: Protocol.View, telling: seq<string>)

  function Described(token: string, details: Option<Handle>): Handle {
    if details == None then Handle(token, "", "", "") else details.value.(token := token)
  }

  /** What the bot's table makes of an event of the client. */
  function AfterEvent(t: Tables, e: Protocol.Event, details: Option<Handle>): Tables {
    match e
    case RoomOffered(token, Some(_)) =>
      if ChatKeys.Acceptable(token) then t.(rooms := Remembered(t.rooms, Described(token, details))) else t
    case RoomRegistered(token, _) =>
      if ChatKeys.Acceptable(token) && details.Some? then t.(rooms := Remembered(t.rooms, Described(token, details))) else t
    case RoomEnded(token) => t.(rooms := Removed(t.rooms, token))
    case RoomTimedOut(token) => t.(rooms := Removed(t.rooms, token))
    case RelayCame(token, kind, true, _) =>
      if token != "" && Protocol.IsFinal(kind) then t.(telling := t.telling + [token]) else t
    case _ => t
  }

  function Next(t: Tables, step: Step): Tables {
    match step
    case Event(e, details) => AfterEvent(t.(client := Protocol.Occur(t.client, e)), e, details)
    case FinalDone =>
      if t.telling == [] then t
      else t.(rooms := Removed(t.rooms, t.telling[|t.telling| - 1]), telling := t.telling[..|t.telling| - 1])
    case Forgotten(token) => t.(rooms := Removed(t.rooms, token))
  }

  function Run(steps: seq<Step>): Tables {
    if steps == [] then Tables([], Protocol.FRESH, []) else Next(Run(steps[..|steps| - 1]), steps[|steps| - 1])
  }

  predicate Keyed(client: Protocol.View, token: string) {
    ChatKeys.Lookup(client.rooms, token).Some?
  }

  /** Every room of the table has a key, or the program is being told that it is over. */
  ghost predicate Sound(t: Tables) {
    && Distinct(t.rooms) && |t.rooms| <= MAX_ROOMS && ChatKeys.Proper(t.client.rooms)
    && (forall token :: token in Tokens(t.rooms) ==> Keyed(t.client, token) || token in t.telling)
  }

  /** An event gives the room it teaches a key, takes it from the room it ends, and leaves the others alone. */
  lemma KeyedAfter(client: Protocol.View, e: Protocol.Event, token: string)
    requires ChatKeys.Proper(client.rooms)
    ensures
      var after := Protocol.Occur(client, e);
      && ChatKeys.Proper(after.rooms)
      && (Keyed(after, token) <==>
            ProtocolLog.Teaches(e, token) || (Keyed(client, token) && !ProtocolLog.Ends(e, token)))
  {
    ProtocolSafety.OccurRooms(client, e);
    if Keyed(client, token) {
      ChatKeys.ProperAcceptable(client.rooms, token);
    }
    var change := ProtocolLog.ChangeBy(e);
    if change.Some? {
      match change.value {
        case Learn(id, key, tag) =>
          if ChatKeys.Acceptable(id) {
            ChatKeys.SetLookup(client.rooms, id, key, tag, token);
            ChatKeys.SetProper(client.rooms, id, key, tag);
          }
        case Forget(id) =>
          ChatKeys.RemoveLookup(client.rooms, id, token);
          ChatKeys.RemoveProper(client.rooms, id);
      }
    }
  }

  lemma EventKeepsSound(t: Tables, e: Protocol.Event, details: Option<Handle>)
    requires Sound(t)
    ensures Sound(Next(t, Event(e, details)))
  {
    KeyedAfter(t.client, e, "");
    TableAfter(t.(client := Protocol.Occur(t.client, e)), e, details);
    var after := Next(t, Event(e, details));
    forall token | token in Tokens(after.rooms) ensures Keyed(after.client, token) || token in after.telling {
      KeyedAfter(t.client, e, token);
    }
  }

  /** The table has more rooms only by what the event teaches, and loses what it ends here. */
  lemma TableAfter(t: Tables, e: Protocol.Event, details: Option<Handle>)
    requires Distinct(t.rooms) && |t.rooms| <= MAX_ROOMS
    ensures
      var after := AfterEvent(t, e, details);
      && Distinct(after.rooms) && |after.rooms| <= MAX_ROOMS && after.client == t.client
      && (forall token :: token in Tokens(after.rooms) ==>
            ProtocolLog.Teaches(e, token)
            || (token in Tokens(t.rooms) && (ProtocolLog.Ends(e, token) ==> token in after.telling)))
      && (forall token :: token in t.telling ==> token in after.telling)
  {
    match e {
      case RoomOffered(token, Some(_)) =>
        if ChatKeys.Acceptable(token) {
          RememberedIsSetInsertion(t.rooms, Described(token, details));
        }
      case RoomRegistered(token, _) =>
        if ChatKeys.Acceptable(token) && details.Some? {
          RememberedIsSetInsertion(t.rooms, Described(token, details));
        }
      case RoomEnded(token) => RemovedIsSetRemoval(t.rooms, token);
      case RoomTimedOut(token) => RemovedIsSetRemoval(t.rooms, token);
      case RelayCame(token, kind, true, _) =>
        assert (t.telling + [token])[|t.telling|] == token;
      case _ =>
    }
  }

  lemma NextKeepsSound(t: Tables, step: Step)
    requires Sound(t)
    ensures Sound(Next(t, step))
  {
    match step {
      case Event(e, details) => EventKeepsSound(t, e, details);
      case FinalDone =>
        if t.telling != [] {
          var n := |t.telling| - 1;
          RemovedIsSetRemoval(t.rooms, t.telling[n]);
          assert t.telling == t.telling[..n] + [t.telling[n]];
        }
      case Forgotten(token) => RemovedIsSetRemoval(t.rooms, token);
    }
  }

  /**
   * Over every run the table has at most 64 rooms, none twice, and, whenever the program is not in
   * the middle of being told that a room is over, only rooms whose key the client holds.
   */
  lemma {:induction false} RunSound(steps: seq<Step>)
    ensures Sound(Run(steps))
    ensures Run(steps).telling == [] ==>
      forall token :: token in Tokens(Run(steps).rooms) ==> Keyed(Run(steps).client, token)
  {
    if steps != [] {
      RunSound(steps[..|steps| - 1]);
      NextKeepsSound(Run(steps[..|steps| - 1]), steps[|steps| - 1]);
    }
  }

  /** The room a step brings to the table: one that is offered and opens, or that the program registers with its texts. */
  function Brought(step: Step): Option<Handle> {
    match step
    case Event(RoomOffered(token, Some(_)), details) =>
      if 0 < |token| < 128 then Some(if details == None then Handle(token, "", "", "") else details.value.(token := token))
      else None
    case Event(RoomRegistered(token, _), Some(h)) => if 0 < |token| < 128 then Some(h.(token := token)) else None
    case _ => None
  }

  /** The room a step takes away: one that ends here, times out or is forgotten, or whose end was told. */
  function TakenAway(telling: seq<string>, step: Step): Option<string> {
    match step
    case Event(RoomEnded(token), _) => Some(token)
    case Event(RoomTimedOut(token), _) => Some(token)
    case Forgotten(token) => Some(token)
    case FinalDone => if telling == [] then None else Some(telling[|telling| - 1])
    case _ => None
  }

  lemma NextRooms(t: Tables, step: Step)
    ensures Next(t, step).rooms ==
      match Brought(step)
      case Some(h) => Remembered(t.rooms, h)
      case None =>
        if TakenAway(t.telling, step) == None then t.rooms else Removed(t.rooms, TakenAway(t.telling, step).value)
  {
  }

  /** What every step of every run does to the rooms the table holds. */
  lemma StepExactly(steps: seq<Step>, step: Step, x: Handle)
    ensures
      var t, rooms := Run(steps), Run(steps + [step]).rooms;
      var gone := TakenAway(t.telling, step);
      match Brought(step)
      case Some(h) =>
        var full := |t.rooms| == 64 && forall k :: 0 <= k < |t.rooms| ==> t.rooms[k].token != h.token;
        x in rooms <==> Describes(x, h) || (x in t.rooms && x.token != h.token && (full ==> x != t.rooms[0]))
      case None =>
        if gone == None then rooms == t.rooms
        else x in rooms <==> x in t.rooms && x.token != gone.value
  {
    var t := Run(steps);
    RunSound(steps);
    assert (steps + [step])[..|steps|] == steps;
    NextRooms(t, step);
    if Brought(step).Some? {
      RememberedExactly(t.rooms, Brought(step).value, x);
    } else if TakenAway(t.telling, step).Some? {
      RemovedKeepsOthers(t.rooms, TakenAway(t.telling, step).value, x);
    }
  }

  /** The client's part of a run. */
  function ClientTurns(steps: seq<Step>): seq<Protocol.Turn> {
    if steps == [] then []
    else
      var last := steps[|steps| - 1];
      ClientTurns(steps[..|steps| - 1]) + (if last.Event? then [Protocol.Happens(last.event)] else [])
  }

  /** The client beside the table is the protocol client, after the events of the run. */
  lemma {:induction false} ClientRuns(steps: seq<Step>)
    ensures Run(steps).client == Protocol.Run(ClientTurns(steps))
  {
    if steps != [] {
      var before, last := steps[..|steps| - 1], steps[|steps| - 1];
      ClientRuns(before);
      if last.Event? {
        ProtocolSafety.PlaySnoc(Protocol.FRESH, ClientTurns(before), Protocol.Happens(last.event));
      } else {
        assert ClientTurns(before) + [] == ClientTurns(before);
      }
    }
  }

  // ---- the code -----------------------------------------------------------------------------------------------

  class Table {
    var rooms: array<Handle>
    var count: nat

    ghost predicate Valid()
      reads this, rooms
    {
      rooms.Length == MAX_ROOMS && count <= MAX_ROOMS
    }

    function View(): (s: seq<Handle>)
      reads this, rooms
      requires count <= rooms.Length
      ensures |s| == count
    {
      rooms[..count]
    }

    constructor ()
      ensures Valid() && fresh(rooms) && View() == []
    {
      rooms := new Handle[MAX_ROOMS](_ => Handle("", "", "", ""));
      count := 0;
    }

    method FindRoom(token: string) returns (i: nat)
      requires Valid()
      ensures i == Find(View(), token)
    {
      i := 0;
      while i < count
        invariant i <= count && Find(View(), token) == i + Find(View()[i..], token)
      {
        assert View()[i..][0] == rooms[i] && View()[i..][1..] == View()[i + 1..];
        if rooms[i].token == token {
          break;
        }
        i := i + 1;
      }
    }

    method RemoveRoom(token: string)
      requires Valid()
      modifies this`count, rooms
      ensures Valid() && View() == Removed(old(View()), token)
    {
      var i := FindRoom(token);
      if i < count {
        rooms[i] := rooms[count - 1];
        count := count - 1;
      }
    }

    method RememberRoom(h: Handle)
      requires Valid()
      modifies this`count, rooms
      ensures Valid() && View() == Remembered(old(View()), h)
    {
      if h.token == "" {
        return;
      }
      var i := FindRoom(h.token);
      if i == count {
        if count == MAX_ROOMS {
          RemoveRoom(rooms[0].token);
        }
        i := count;
        count := count + 1;
        rooms[i] := Handle(CopyBounded(TOKEN_SIZE, h.token), "", "", "");
      }
      rooms[i] := Handle(rooms[i].token, CopyBounded(WIDGET_SIZE, h.widget), CopyBounded(LABEL_SIZE, h.visitorLabel),
                         CopyBounded(ORIGIN_SIZE, h.origin));
    }
  }
}
