/**
 * When a blocking call succeeds, and with which answer, said of the events that come while it waits.
 */
module ProtocolCalls {
  import opened Common
  import ChatKeys
  import opened Protocol
  import opened ProtocolSafety

  /** What goes on is an answer a call with that kind and id takes. */
  predicate Fits(turn: Turn, expected: nat, id: uint32) {
    match turn
    case Happens(AnswerCame(answer)) => answer.kind == expected && (answer.id == 0 || answer.id == id)
    case _ => false
  }

  /** The waiting loop goes through that slice: it begins before the deadline and the transport does not fail. */
  predicate Served(slice: Slice, deadline: nat) {
    slice.now < deadline && (slice.polled == Ok || slice.polled == Timeout)
  }

  /** The first fitting answer comes at place `j` of slice `n`, and every slice up to it is served. */
  predicate Arrives(slices: seq<Slice>, deadline: nat, expected: nat, id: uint32, n: nat, j: nat) {
    && n < |slices| && j < |slices[n].turns| && Fits(slices[n].turns[j], expected, id)
    && (forall k :: 0 <= k <= n ==> Served(slices[k], deadline))
    && (forall k, i :: 0 <= k < n && 0 <= i < |slices[k].turns| ==> !Fits(slices[k].turns[i], expected, id))
    && (forall i :: 0 <= i < j ==> !Fits(slices[n].turns[i], expected, id))
  }

  /** The transport fails in slice `n`, before any slice brought an answer. */
  predicate Breaks(slices: seq<Slice>, deadline: nat, expected: nat, id: uint32, n: nat) {
    && n < |slices| && slices[n].now < deadline && !Served(slices[n], deadline)
    && (forall k :: 0 <= k < n ==> Served(slices[k], deadline))
    && (forall k, i :: 0 <= k < n && 0 <= i < |slices[k].turns| ==> !Fits(slices[k].turns[i], expected, id))
  }

  // ---- one slice ------------------------------------------------------------------------------------------------

  predicate Waits(call: Slot, expected: nat, id: uint32) {
    call.pending && !call.resolved && call.expected == expected && call.requestId == id
  }

  predicate Holds(call: Slot, answer: Answer) {
    call.pending && call.resolved && call.response == Some(answer)
  }

  lemma TurnWaits(v: View, turn: Turn, expected: nat, id: uint32)
    requires Waits(v.call, expected, id)
    ensures
      if Fits(turn, expected, id) then Holds(Play(v, turn).call, turn.event.answer)
      else Waits(Play(v, turn).call, expected, id)
  {
    match turn {
      case Happens(e) => OccurKeepsSlot(v, e);
      case Calls(c) => NestedCallRefused(v, c);
    }
  }

  lemma TurnHolds(v: View, turn: Turn, answer: Answer)
    requires Holds(v.call, answer)
    ensures Holds(Play(v, turn).call, answer)
  {
    match turn {
      case Happens(e) => OccurKeepsSlot(v, e);
      case Calls(c) => NestedCallRefused(v, c);
    }
  }

  lemma {:induction false} TurnsHold(v: View, turns: seq<Turn>, answer: Answer)
    requires Holds(v.call, answer)
    ensures Holds(PlayAll(v, turns).call, answer)
    decreases |turns|
  {
    if turns != [] {
      TurnHolds(v, turns[0], answer);
      TurnsHold(Play(v, turns[0]), turns[1..], answer);
    }
  }

  lemma {:induction false} TurnsWait(v: View, turns: seq<Turn>, expected: nat, id: uint32)
    requires Waits(v.call, expected, id) && forall i :: 0 <= i < |turns| ==> !Fits(turns[i], expected, id)
    ensures Waits(PlayAll(v, turns).call, expected, id)
    decreases |turns|
  {
    if turns != [] {
      TurnWaits(v, turns[0], expected, id);
      TurnsWait(Play(v, turns[0]), turns[1..], expected, id);
    }
  }

  /** The first fitting answer of a stretch is the one taken. */
  lemma {:induction false} TurnsTake(v: View, turns: seq<Turn>, expected: nat, id: uint32, j: nat)
    requires Waits(v.call, expected, id) && j < |turns| && Fits(turns[j], expected, id)
    requires forall i :: 0 <= i < j ==> !Fits(turns[i], expected, id)
    ensures Holds(PlayAll(v, turns).call, turns[j].event.answer)
    decreases |turns|
  {
    TurnWaits(v, turns[0], expected, id);
    if j == 0 {
      TurnsHold(Play(v, turns[0]), turns[1..], turns[0].event.answer);
    } else {
      TurnsTake(Play(v, turns[0]), turns[1..], expected, id, j - 1);
    }
  }

  // ---- the waiting loop -------------------------------------------------------------------------------------------

  lemma {:induction false} WaitTakes(v: View, deadline: nat, slices: seq<Slice>, expected: nat, id: uint32, n: nat, j: nat)
    requires Waits(v.call, expected, id) && Arrives(slices, deadline, expected, id, n, j)
    ensures
      var (w, status) := Wait(v, deadline, slices);
      status == Ok && w.call.response == Some(slices[n].turns[j].event.answer)
    decreases n
  {
    var w := PlayAll(v, slices[0].turns);
    assert Served(slices[0], deadline);
    if n == 0 {
      TurnsTake(v, slices[0].turns, expected, id, j);
    } else {
      TurnsWait(v, slices[0].turns, expected, id);
      assert forall k :: 0 <= k <= n - 1 ==> slices[1..][k] == slices[k + 1];
      WaitTakes(w, deadline, slices[1..], expected, id, n - 1, j);
    }
  }

  lemma {:induction false} WaitBreaks(v: View, deadline: nat, slices: seq<Slice>, expected: nat, id: uint32, n: nat)
    requires Waits(v.call, expected, id) && Breaks(slices, deadline, expected, id, n)
    ensures Wait(v, deadline, slices).1 == slices[n].polled
    decreases n
  {
    if n > 0 {
      assert Served(slices[0], deadline);
      TurnsWait(v, slices[0].turns, expected, id);
      assert forall k :: 0 <= k <= n - 1 ==> slices[1..][k] == slices[k + 1];
      WaitBreaks(PlayAll(v, slices[0].turns), deadline, slices[1..], expected, id, n - 1);
    }
  }

  /** If neither happens the call times out. */
  lemma {:induction false} WaitTimesOut(v: View, deadline: nat, slices: seq<Slice>, expected: nat, id: uint32)
    requires Waits(v.call, expected, id)
    requires forall n: nat, j: nat :: !Arrives(slices, deadline, expected, id, n, j)
    requires forall n: nat :: !Breaks(slices, deadline, expected, id, n)
    ensures Wait(v, deadline, slices).1 == Timeout
    decreases |slices|
  {
    if slices != [] && slices[0].now < deadline {
      assert !Breaks(slices, deadline, expected, id, 0);
      assert Served(slices[0], deadline);
      NoneFits(slices, deadline, expected, id);
      var rest := slices[1..];
      TurnsWait(v, slices[0].turns, expected, id);
      forall n: nat, j: nat ensures !Arrives(rest, deadline, expected, id, n, j) {
        if Arrives(rest, deadline, expected, id, n, j) {
          ArrivesLater(slices, deadline, expected, id, n, j);
        }
      }
      forall n: nat ensures !Breaks(rest, deadline, expected, id, n) {
        if Breaks(rest, deadline, expected, id, n) {
          BreaksLater(slices, deadline, expected, id, n);
        }
      }
      WaitTimesOut(PlayAll(v, slices[0].turns), deadline, rest, expected, id);
    }
  }

  /** Nothing in the first slice fits, if nothing arrives. */
  lemma NoneFits(slices: seq<Slice>, deadline: nat, expected: nat, id: uint32)
    requires slices != [] && Served(slices[0], deadline) && forall j: nat :: !Arrives(slices, deadline, expected, id, 0, j)
    ensures forall i :: 0 <= i < |slices[0].turns| ==> !Fits(slices[0].turns[i], expected, id)
  {
    var turns, i := slices[0].turns, 0;
    while i < |turns|
      invariant i <= |turns| && forall k :: 0 <= k < i ==> !Fits(turns[k], expected, id)
    {
      assert !Arrives(slices, deadline, expected, id, 0, i);
      i := i + 1;
    }
  }

  /** What holds of the slices behind the first holds of the slices. */
  lemma Later(slices: seq<Slice>, deadline: nat, expected: nat, id: uint32, n: nat)
    requires slices != [] && n < |slices[1..]| && Served(slices[0], deadline)
    requires forall i :: 0 <= i < |slices[0].turns| ==> !Fits(slices[0].turns[i], expected, id)
    ensures forall k :: 0 <= k <= n ==> slices[1..][k] == slices[k + 1]
    ensures (forall k :: 0 <= k < n ==> Served(slices[1..][k], deadline))
        ==> forall k :: 0 <= k < n + 1 ==> Served(slices[k], deadline)
    ensures (forall k, i :: 0 <= k < n && 0 <= i < |slices[1..][k].turns| ==> !Fits(slices[1..][k].turns[i], expected, id))
        ==> forall k, i :: 0 <= k < n + 1 && 0 <= i < |slices[k].turns| ==> !Fits(slices[k].turns[i], expected, id)
  {
    forall k | 0 < k < n + 1 ensures slices[k] == slices[1..][k - 1] {
    }
  }

  lemma ArrivesLater(slices: seq<Slice>, deadline: nat, expected: nat, id: uint32, n: nat, j: nat)
    requires slices != [] && Served(slices[0], deadline) && Arrives(slices[1..], deadline, expected, id, n, j)
    requires forall i :: 0 <= i < |slices[0].turns| ==> !Fits(slices[0].turns[i], expected, id)
    ensures Arrives(slices, deadline, expected, id, n + 1, j)
  {
    Later(slices, deadline, expected, id, n);
    assert Served(slices[1..][n], deadline);
  }

  lemma BreaksLater(slices: seq<Slice>, deadline: nat, expected: nat, id: uint32, n: nat)
    requires slices != [] && Served(slices[0], deadline) && Breaks(slices[1..], deadline, expected, id, n)
    requires forall i :: 0 <= i < |slices[0].turns| ==> !Fits(slices[0].turns[i], expected, id)
    ensures Breaks(slices, deadline, expected, id, n + 1)
  {
    Later(slices, deadline, expected, id, n);
  }

  // ---- whole calls -------------------------------------------------------------------------------------------------

  /** Success exactly with the first fitting answer; otherwise the transport's failure or a timeout. */
  ghost predicate Outcome(slices: seq<Slice>, deadline: nat, expected: nat, id: uint32, after: View, status: Status) {
    && (status == Ok <==> exists n: nat, j: nat :: Arrives(slices, deadline, expected, id, n, j))
    && (forall n: nat, j: nat :: Arrives(slices, deadline, expected, id, n, j) ==>
          after.call.response == Some(slices[n].turns[j].event.answer))
    && (forall n: nat :: Breaks(slices, deadline, expected, id, n) ==> status == slices[n].polled)
    && (status == Ok || status == Timeout || exists n: nat :: Breaks(slices, deadline, expected, id, n))
  }

  /**
   * What a call of any run answers. It is let in only when the client is authenticated and no call is
   * pending; it must be sent; and then it succeeds exactly when a fitting answer arrives, with the
   * first of them. Without one it answers the transport's failure or times out.
   */
  lemma CallOutcome(turns: seq<Turn>, c: Call)
    ensures
      var v := Run(turns);
      var (w, status) := CallWaited(v, c);
      var id: uint32 := if v.nextId == 0xFFFF_FFFF then 1 else v.nextId + 1;
      var deadline := c.start + (if c.timeout >= 0 then c.timeout else 30000);
      if v.phase != Authenticated then status == NotConnected && w == v
      else if v.call.pending then status == State && w == v
      else if c.sent != Ok then status == c.sent
      else Outcome(c.slices, deadline, c.expected, id, w, status)
  {
    var v := Run(turns);
    RunSound(turns);
    if v.phase == Authenticated && !v.call.pending && c.sent == Ok {
      var w, id, deadline := Claimed(v, c.expected), TakeId(v.nextId), Deadline(c);
      assert Waits(w.call, c.expected, id);
      WaitOutcome(w, deadline, c.slices, c.expected, id);
      assert id == if v.nextId == 0xFFFF_FFFF then 1 else v.nextId + 1;
    }
  }

  lemma WaitOutcome(v: View, deadline: nat, slices: seq<Slice>, expected: nat, id: uint32)
    requires Waits(v.call, expected, id)
    ensures
      var (w, status) := Wait(v, deadline, slices);
      Outcome(slices, deadline, expected, id, w, status)
  {
    forall n: nat, j: nat | Arrives(slices, deadline, expected, id, n, j)
      ensures Wait(v, deadline, slices).1 == Ok
      ensures Wait(v, deadline, slices).0.call.response == Some(slices[n].turns[j].event.answer)
    {
      WaitTakes(v, deadline, slices, expected, id, n, j);
    }
    forall n: nat | Breaks(slices, deadline, expected, id, n) ensures Wait(v, deadline, slices).1 == slices[n].polled {
      WaitBreaks(v, deadline, slices, expected, id, n);
    }
    if (forall n: nat, j: nat :: !Arrives(slices, deadline, expected, id, n, j)) && (forall n: nat :: !Breaks(slices, deadline, expected, id, n)) {
      WaitTimesOut(v, deadline, slices, expected, id);
    }
  }

  // ---- the slot between calls -----------------------------------------------------------------------------------

  lemma EventKeepsClaim(v: View, e: Event)
    ensures Occur(v, e).call.pending == v.call.pending
  {
    if e.AuthAnswered? {
      RejoinKeepsSlot(StartSync(Recorded(v, e).(phase := Authenticated), e.ready), v.rooms);
    }
  }

  /**
   * After every run the slot is free, so the next call of an authenticated client is let in: every
   * call gives the slot back, whether it was answered, refused or failed.
   */
  lemma {:induction false} SlotFree(turns: seq<Turn>)
    ensures !Run(turns).call.pending
    decreases |turns|
  {
    if turns != [] {
      var front, last := turns[..|turns| - 1], turns[|turns| - 1];
      SlotFree(front);
      assert turns == front + [last];
      PlaySnoc(FRESH, front, last);
      match last {
        case Happens(e) => EventKeepsClaim(Run(front), e);
        case Calls(c) => CallFrees(front, c);
      }
    }
  }

  lemma CallFrees(turns: seq<Turn>, c: Call)
    requires !Run(turns).call.pending
    ensures !CallDone(Run(turns), c).call.pending
  {
    var v := Run(turns);
    var (w, status) := CallWaited(v, c);
    if CallRefusal(v) == None {
      CallAnswered(turns, c);
    } else {
      assert status != Ok && w == v;
    }
  }
}
