/**
 * The bot's queue of operations put off until no callback is running: bounded, first in first out,
 * at most one operation per poll.
 */
module ActionQueue {
  import opened Common

  const MAX_ACTIONS := 256
  const CHAT_ID_SIZE := 128
  const IDENTITY_SIZE := 128
  const NOTE_SIZE := 512

  datatype Kind = ApproveJoin | AddParticipant | DenyJoin | RemoveParticipant | PromoteModerator | ReportUser | LeaveChat
                | RotateKey | AcceptChatRequest | DeclineChatRequest | AcceptGroupInvite | DeclineGroupInvite | Send

  datatype Action = Action(kind: Kind, chatId: string, identity: string, note: string, text: Option<string>)

  // ---- the simple view -----------------------------------------------------------------------------------

  /** What an entry keeps of an operation. */
  function Kept(kind: Kind, chatId: string, identity: string, note: string): Action {
    Action(kind, CopyBounded(CHAT_ID_SIZE, chatId), CopyBounded(IDENTITY_SIZE, identity), CopyBounded(NOTE_SIZE, note), None)
  }

  function KeptSend(chatId: string, text: string): Action {
    Kept(Send, chatId, "", "").(text := Some(text))
  }

  datatype Request = Operation(kind: Kind, chatId: string, identity: string, note: string)
                   | SendLater(chatId: string, text: string, memory: bool)

  function Wanted(r: Request): Action {
    match r
    case Operation(kind, chatId, identity, note) => Kept(kind, chatId, identity, note)
    case SendLater(chatId, text, _) => KeptSend(chatId, text)
  }

  function Answer(queue: seq<Action>, r: Request): Status {
    if |queue| >= MAX_ACTIONS then State
    else if r.SendLater? && !r.memory then NoMemory
    else Ok
  }

  /** Only a request answered `Ok` leaves an entry. */
  function Requested(queue: seq<Action>, r: Request): seq<Action> {
    if Answer(queue, r) == Ok then queue + [Wanted(r)] else queue
  }

  function Accepted(queue: seq<Action>, rs: seq<Request>): seq<Action>
    decreases |rs|
  {
    if rs == [] then []
    else
      (if Answer(queue, rs[0]) == Ok then [Wanted(rs[0])] else []) + Accepted(Requested(queue, rs[0]), rs[1..])
  }

  /** A request from the program, or one poll; while an operation runs, callbacks may make requests. */
  datatype Step = Asks(request: Request) | Polls(connected: bool, nested: seq<Request>)

  datatype History = History(queue: seq<Action>, executed: seq<Action>, accepted: seq<Action>)

  function Run(steps: seq<Step>): History {
    if steps == [] then History([], [], [])
    else
      var h := Run(steps[..|steps| - 1]);
      match steps[|steps| - 1]
      case Asks(r) => History(Requested(h.queue, r), h.executed, h.accepted + Accepted(h.queue, [r]))
      case Polls(connected, nested) =>
        if h.queue == [] || !connected then h
        else
          var rest := h.queue[1..];
          History(rest + Accepted(rest, nested), h.executed + [h.queue[0]], h.accepted + Accepted(rest, nested))
  }

  lemma {:induction false} AcceptedFits(queue: seq<Action>, rs: seq<Request>)
    requires |queue| <= MAX_ACTIONS
    ensures |queue| + |Accepted(queue, rs)| <= MAX_ACTIONS
    decreases |rs|
  {
    if rs != [] {
      AcceptedFits(Requested(queue, rs[0]), rs[1..]);
    }
  }

  /** Over every run the operations executed so far and those waiting are the accepted ones, in their order. */
  lemma {:induction false} FirstInFirstOut(steps: seq<Step>)
    ensures Run(steps).executed + Run(steps).queue == Run(steps).accepted
    ensures |Run(steps).queue| <= MAX_ACTIONS
  {
    if steps != [] {
      var h := Run(steps[..|steps| - 1]);
      FirstInFirstOut(steps[..|steps| - 1]);
      match steps[|steps| - 1] {
        case Asks(r) =>
          AcceptedFits(h.queue, [r]);
          assert Accepted(Requested(h.queue, r), [r][1..]) == [];
          Associate(h.executed, h.queue, Accepted(h.queue, [r]));
        case Polls(connected, nested) =>
          if h.queue != [] && connected {
            var rest := h.queue[1..];
            AcceptedFits(rest, nested);
            assert h.queue == [h.queue[0]] + rest;
            Associate(h.executed + [h.queue[0]], rest, Accepted(rest, nested));
          }
      }
    }
  }

  /**
   * After any run a request is accepted exactly when fewer than 256 operations wait and, for a message
   * put off, there is memory for its text; it is then the last to wait, under its own members.
   */
  lemma AskedExactly(steps: seq<Step>, r: Request)
    ensures
      var before, after := Run(steps), Run(steps + [Asks(r)]);
      if |before.accepted| - |before.executed| < 256 && (r.SendLater? ==> r.memory) then
        && |after.accepted| == |before.accepted| + 1 && before.accepted <= after.accepted
        && after.executed == before.executed && Bears(after.accepted[|before.accepted|], r)
      else after == before
  {
    var h := Run(steps);
    FirstInFirstOut(steps);
    assert |h.executed + h.queue| == |h.accepted|;
    assert (steps + [Asks(r)])[..|steps|] == steps;
    assert Accepted(Requested(h.queue, r), [r][1..]) == [];
  }

  /** A poll of a connected bot runs the operation accepted longest ago that has not run yet, if there is one. */
  lemma PollsExactly(steps: seq<Step>, connected: bool, nested: seq<Request>)
    ensures
      var before, after := Run(steps), Run(steps + [Polls(connected, nested)]);
      if connected && |before.executed| < |before.accepted| then
        after.executed == before.executed + [before.accepted[|before.executed|]]
      else after == before
  {
    var h := Run(steps);
    FirstInFirstOut(steps);
    assert |h.executed + h.queue| == |h.accepted|;
    assert (steps + [Polls(connected, nested)])[..|steps|] == steps;
  }

  /** An entry with the members of the request, each cut to its buffer. */
  predicate Bears(a: Action, r: Request) {
    match r
    case Operation(kind, chatId, identity, note) =>
      a.kind == kind && CutTo(a.chatId, chatId, 128) && CutTo(a.identity, identity, 128) && CutTo(a.note, note, 512)
      && a.text == None
    case SendLater(chatId, text, _) =>
      a.kind == Send && CutTo(a.chatId, chatId, 128) && a.identity == "" && a.note == "" && a.text == Some(text)
  }

  // ---- the code ---------------------------------------------------------------------------------------------

  class Queue {
    var actions: seq<Action>

    constructor ()
      ensures actions == []
    {
      actions := [];
    }

    method Enqueue(kind: Kind, chatId: string, identity: string, note: string) returns (status: Status)
      modifies this
      ensures status == Answer(old(actions), Operation(kind, chatId, identity, note))
      ensures actions == Requested(old(actions), Operation(kind, chatId, identity, note))
    {
      if |actions| >= MAX_ACTIONS {
        return State;
      }
      actions := actions + [Action(kind, CopyBounded(CHAT_ID_SIZE, chatId), CopyBounded(IDENTITY_SIZE, identity),
                                   CopyBounded(NOTE_SIZE, note), None)];
      return Ok;
    }

    /** Without memory for the text the entry just made is taken back. */
    method QueueSend(chatId: string, text: string, memory: bool) returns (status: Status)
      modifies this
      ensures status == Answer(old(actions), SendLater(chatId, text, memory))
      ensures actions == Requested(old(actions), SendLater(chatId, text, memory))
    {
      status := Enqueue(Send, chatId, "", "");
      if status != Ok {
        return;
      }
      var last := |actions| - 1;
      if !memory {
        actions := actions[..last];
        return NoMemory;
      }
      actions := actions[last := actions[last].(text := Some(text))];
    }

    method Ask(r: Request) returns (status: Status)
      modifies this
      ensures status == Answer(old(actions), r) && actions == Requested(old(actions), r)
    {
      match r {
        case Operation(kind, chatId, identity, note) => status := Enqueue(kind, chatId, identity, note);
        case SendLater(chatId, text, memory) => status := QueueSend(chatId, text, memory);
      }
    }

    /** Takes the first operation off the queue before running it; `nested` is what running it asks for. */
    method DrainActions(connected: bool, nested: seq<Request>) returns (executed: Option<Action>)
      modifies this
      ensures executed == if old(actions) == [] || !connected then None else Some(old(actions)[0])
      ensures actions == if executed == None then old(actions) else old(actions)[1..] + Accepted(old(actions)[1..], nested)
    {
      if |actions| == 0 || !connected {
        return None;
      }
      executed := Some(actions[0]);
      actions := actions[1..];
      ghost var all := actions + Accepted(actions, nested);
      for k := 0 to |nested|
        invariant actions + Accepted(actions, nested[k..]) == all
      {
        ghost var before := actions;
        assert nested[k..][1..] == nested[k + 1..];
        var status := Ask(nested[k]);
        Associate(before, if status == Ok then [Wanted(nested[k])] else [], Accepted(actions, nested[k + 1..]));
      }
      assert actions + [] == actions;
    }
  }
}
