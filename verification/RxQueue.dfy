/**
 * The receive queue: one byte buffer plus the end offset of each complete message, compacted on
 * every pop. It refines a list of complete messages and the partial message behind them.
 */
module ReceiveQueue {
  import opened Common

  const INITIAL_CAPACITY := 4096
  const INITIAL_FRAMES := 8
  const SIZE_MAX := 0xFFFF_FFFF_FFFF_FFFF

  // ---- the simple view -----------------------------------------------------------------------

  type Message = seq<byte>

  datatype Queue = Queue(frames: seq<Message>, partial: Message)

  const EMPTY := Queue([], [])

  function Pushed(q: Queue, data: seq<byte>): Queue {
    q.(partial := q.partial + data)
  }

  /** Closing an empty message delivers nothing. */
  function Ended(q: Queue): Queue {
    if q.partial == [] then q else Queue(q.frames + [q.partial], [])
  }

  function Popped(q: Queue): Queue {
    if q.frames == [] then q else q.(frames := q.frames[1..])
  }

  // ---- offsets against messages -----------------------------------------------------------------

  /** Offsets strictly increase from `start` and stay inside the `len` stored bytes. */
  ghost predicate Increasing(ends: seq<nat>, start: nat, len: nat) {
    start <= len &&
    (ends == [] || (start < ends[0] && Increasing(ends[1..], ends[0], len)))
  }

  /** The messages the offsets cut out of the stored bytes, and what is left behind them. */
  ghost function Cut(bytes: seq<byte>, start: nat, ends: seq<nat>): Queue
    requires Increasing(ends, start, |bytes|)
    decreases |ends|
  {
    if ends == [] then Queue([], bytes[start..])
    else
      var rest := Cut(bytes, ends[0], ends[1..]);
      Queue([bytes[start..ends[0]]] + rest.frames, rest.partial)
  }

  lemma {:induction false} CutExtend(bytes: seq<byte>, start: nat, ends: seq<nat>, data: seq<byte>)
    requires Increasing(ends, start, |bytes|)
    ensures Increasing(ends, start, |bytes + data|)
    ensures Cut(bytes + data, start, ends) == Pushed(Cut(bytes, start, ends), data)
    decreases |ends|
  {
    if ends == [] {
      assert (bytes + data)[start..] == bytes[start..] + data;
    } else {
      CutExtend(bytes, ends[0], ends[1..], data);
      OffsetBound(ends[1..], ends[0], |bytes|);
      assert (bytes + data)[start..ends[0]] == bytes[start..ends[0]];
    }
  }

  lemma OffsetBound(ends: seq<nat>, start: nat, len: nat)
    requires Increasing(ends, start, len)
    ensures start <= len
  {
  }

  /** Where the partial message begins. */
  function LastEnd(ends: seq<nat>, start: nat): nat {
    if ends == [] then start else ends[|ends| - 1]
  }

  lemma {:induction false} CutClose(bytes: seq<byte>, start: nat, ends: seq<nat>)
    requires Increasing(ends, start, |bytes|)
    ensures LastEnd(ends, start) <= |bytes|
    ensures Cut(bytes, start, ends).partial == bytes[LastEnd(ends, start)..]
    ensures |bytes| > LastEnd(ends, start) ==>
              Increasing(ends + [|bytes|], start, |bytes|)
              && Cut(bytes, start, ends + [|bytes|]) == Ended(Cut(bytes, start, ends))
    decreases |ends|
  {
    var more := ends + [|bytes|];
    if ends == [] {
      assert more[1..] == [] && bytes[|bytes|..] == [] && bytes[start..|bytes|] == bytes[start..];
      assert Cut(bytes, |bytes|, more[1..]) == Queue([], []);
      assert [bytes[start..]] + [] == [] + [bytes[start..]];
    } else {
      CutClose(bytes, ends[0], ends[1..]);
      assert more[1..] == ends[1..] + [|bytes|];
      var first, rest := bytes[start..ends[0]], Cut(bytes, ends[0], ends[1..]);
      assert [first] + (rest.frames + [rest.partial]) == ([first] + rest.frames) + [rest.partial];
    }
  }

  /** Moving the bytes and every offset down by the same distance changes no message. */
  lemma {:induction false} CutShift(bytes: seq<byte>, start: nat, ends: seq<nat>, shift: nat, low: seq<nat>)
    requires shift <= start && Increasing(ends, start, |bytes|)
    requires |low| == |ends| && forall i :: 0 <= i < |ends| ==> low[i] == ends[i] - shift
    ensures Increasing(low, start - shift, |bytes| - shift)
    ensures Cut(bytes[shift..], start - shift, low) == Cut(bytes, start, ends)
    decreases |ends|
  {
    if ends != [] {
      CutShift(bytes, ends[0], ends[1..], shift, low[1..]);
      OffsetBound(ends[1..], ends[0], |bytes|);
      assert bytes[shift..][start - shift..low[0]] == bytes[start..ends[0]];
    } else {
      assert bytes[shift..][start - shift..] == bytes[start..];
    }
  }

  // ---- the code ----------------------------------------------------------------------------------

  class RxQueue {
    var buf: array<byte>
    var len: nat
    var consumed: nat
    var ends: array<nat>
    var frameCount: nat

    ghost predicate Valid()
      reads this, buf, ends
    {
      && buf as object != ends
      && buf.Length <= SIZE_MAX
      && len <= buf.Length
      && frameCount <= ends.Length
      && Increasing(ends[..frameCount], consumed, len)
    }

    ghost function View(): Queue
      reads this, buf, ends
      requires Valid()
    {
      Cut(buf[..len], consumed, ends[..frameCount])
    }

    constructor ()
      ensures Valid() && fresh(buf) && fresh(ends) && View() == EMPTY
    {
      buf := new byte[0];
      ends := new nat[0];
      len, consumed, frameCount := 0, 0, 0;
    }

    /**
     * Grows the buffer by doubling until `needed` bytes fit. `granted` is the allocator's answer;
     * a refused or overflowing growth leaves the buffer as it was.
     */
    method EnsureBuffer(needed: nat, granted: bool) returns (ok: bool)
      requires Valid()
      modifies this`buf
      ensures Valid() && View() == old(View())
      ensures buf == old(buf) || fresh(buf)
      ensures !ok ==> buf == old(buf)
      ensures ok ==> buf.Length >= needed
      ensures ok && needed > old(buf.Length) ==> granted
      ensures granted && needed <= SIZE_MAX / 2 ==> ok
    {
      if needed <= buf.Length {
        return true;
      }
      var capacity := if buf.Length > 0 then buf.Length else INITIAL_CAPACITY;
      while capacity < needed
        invariant 0 < capacity <= SIZE_MAX
        decreases needed - capacity
      {
        if capacity > SIZE_MAX / 2 {
          return false;
        }
        capacity := capacity * 2;
      }
      if !granted {
        return false;
      }
      var grown := new byte[capacity](i requires 0 <= i < capacity reads this, buf =>
        if i < buf.Length then buf[i] else 0);
      assert grown[..len] == buf[..len];
      buf := grown;
      ok := true;
    }

    method EnsureFrameSlot(granted: bool) returns (ok: bool)
      requires Valid()
      modifies this`ends
      ensures Valid() && View() == old(View()) && ends[..frameCount] == old(ends[..frameCount])
      ensures ends == old(ends) || fresh(ends)
      ensures !ok ==> ends == old(ends)
      ensures ok ==> ends.Length > frameCount
      ensures !ok ==> !granted && frameCount == ends.Length
    {
      if frameCount < ends.Length {
        return true;
      }
      if !granted {
        return false;
      }
      var capacity := if ends.Length > 0 then ends.Length * 2 else INITIAL_FRAMES;
      var grown := new nat[capacity](i requires 0 <= i < capacity reads this, ends =>
        if i < ends.Length then ends[i] else 0);
      assert grown[..frameCount] == ends[..frameCount];
      ends := grown;
      ok := true;
    }

    /** Appends a fragment to the message being assembled. */
    method Push(data: seq<byte>, granted: bool) returns (status: Status)
      requires Valid()
      modifies this, buf
      ensures Valid() && ends == old(ends) && (buf == old(buf) || fresh(buf))
      ensures status == Ok ==> View() == Pushed(old(View()), data)
      ensures status != Ok ==> status == NoMemory && View() == old(View())
      ensures granted && old(len) + |data| <= SIZE_MAX / 2 ==> status == Ok
    {
      if |data| == 0 {
        CutExtend(buf[..len], consumed, ends[..frameCount], []);
        assert buf[..len] + [] == buf[..len];
        return Ok;
      }
      if |data| > SIZE_MAX - len {
        return NoMemory;
      }
      var ok := EnsureBuffer(len + |data|, granted);
      if !ok {
        return NoMemory;
      }
      ghost var before, offsets := buf[..len], ends[..frameCount];
      CutExtend(before, consumed, offsets, data);
      forall i | 0 <= i < |data| {
        buf[len + i] := data[i];
      }
      len := len + |data|;
      assert buf[..len] == before + data && ends[..frameCount] == offsets;
      return Ok;
    }

    /** Closes the message being assembled; an empty one is dropped. */
    method EndFrame(granted: bool) returns (status: Status)
      requires Valid()
      modifies this, ends
      ensures Valid() && buf == old(buf) && (ends == old(ends) || fresh(ends))
      ensures status == Ok ==> View() == Ended(old(View()))
      ensures status != Ok ==> status == NoMemory && View() == old(View()) && !granted
    {
      var start := if frameCount > 0 then ends[frameCount - 1] else consumed;
      assert start == LastEnd(ends[..frameCount], consumed);
      CutClose(buf[..len], consumed, ends[..frameCount]);
      if len <= start {
        return Ok;
      }
      var ok := EnsureFrameSlot(granted);
      if !ok {
        return NoMemory;
      }
      ghost var before, bytes := ends[..frameCount], buf[..len];
      ends[frameCount] := len;
      frameCount := frameCount + 1;
      assert ends[..frameCount] == before + [|bytes|] && buf[..len] == bytes;
      return Ok;
    }
  
    method Clear()
      requires Valid()
      modifies this, buf
      ensures Valid() && View() == EMPTY && buf == old(buf) && ends == old(ends)
    {
      forall i | 0 <= i < buf.Length {
        buf[i] := 0;
      }
      len, consumed, frameCount := 0, 0, 0;
    }

    /** The front message, or nothing. */
    method Frame() returns (frame: Option<Message>)
      requires Valid()
      ensures frame == if View().frames == [] then None else Some(View().frames[0])
    {
      if frameCount == 0 {
        return None;
      }
      FrontOffset();
      return Some(buf[consumed..ends[0]]);
    }

    lemma FrontOffset()
      requires Valid() && frameCount > 0
      ensures consumed < ends[0] <= len
      ensures View().frames != [] && View().frames[0] == buf[consumed..ends[0]]
      ensures Increasing(ends[1..frameCount], ends[0], len)
      ensures Cut(buf[..len], ends[0], ends[1..frameCount]) == Popped(View())
    {
      assert ends[..frameCount][1..] == ends[1..frameCount];
      OffsetBound(ends[1..frameCount], ends[0], len);
      assert buf[..len][consumed..ends[0]] == buf[consumed..ends[0]];
    }

    /** Moves the offsets behind the first one place down. */
    method ShiftOffsets(ghost behind: seq<nat>)
      requires frameCount < ends.Length && behind == ends[1..frameCount + 1]
      modifies ends
      ensures ends[..frameCount] == behind
    {
      assert forall i :: 0 <= i < frameCount ==> behind[i] == ends[i + 1];
      forall i | 0 <= i < frameCount {
        ends[i] := ends[i + 1];
      }
    }

    /** Moves `count` bytes from `from` to the front of the buffer. */
    method MoveBytes(from: nat, count: nat, ghost moved: seq<byte>)
      requires from + count <= buf.Length && moved == buf[from..from + count]
      modifies buf
      ensures buf[..count] == moved
    {
      assert forall i :: 0 <= i < count ==> moved[i] == buf[from + i];
      forall i | 0 <= i < count {
        buf[i] := buf[from + i];
      }
    }

    method LowerOffsets(ghost offsets: seq<nat>)
      requires frameCount <= ends.Length && offsets == ends[..frameCount]
      requires forall k :: 0 <= k < frameCount ==> offsets[k] >= consumed
      modifies ends
      ensures |ends[..frameCount]| == |offsets|
      ensures forall k :: 0 <= k < |offsets| ==> ends[..frameCount][k] == offsets[k] - consumed
    {
      for i := 0 to frameCount
        invariant forall k :: 0 <= k < i ==> ends[k] == offsets[k] - consumed
        invariant forall k :: i <= k < frameCount ==> ends[k] == offsets[k]
      {
        ends[i] := ends[i] - consumed;
      }
    }

    /** Drops the front message and moves everything behind it to the front of the buffer. */
    method Pop()
      requires Valid()
      modifies this, buf, ends
      ensures Valid() && View() == Popped(old(View())) && buf == old(buf) && ends == old(ends)
      ensures old(frameCount) > 0 ==> consumed == 0
    {
      if frameCount == 0 {
        return;
      }
      FrontOffset();
      ghost var q, bytes, behind, first := Popped(View()), buf[..len], ends[1..frameCount], ends[0];
      Offsets(behind, first, |bytes|);

      consumed := ends[0];
      frameCount := frameCount - 1;
      ShiftOffsets(behind);

      var remaining := len - consumed;
      assert bytes[first..] == buf[consumed..consumed + remaining];
      MoveBytes(consumed, remaining, bytes[first..]);
      len := remaining;
      LowerOffsets(behind);
      consumed := 0;
      CutShift(bytes, first, behind, first, ends[..frameCount]);
    }
  }

  lemma {:induction false} Offsets(ends: seq<nat>, start: nat, len: nat)
    requires Increasing(ends, start, len)
    ensures forall i :: 0 <= i < |ends| ==> start < ends[i] <= len
  {
    if ends != [] {
      Offsets(ends[1..], ends[0], len);
      OffsetBound(ends[1..], ends[0], len);
    }
  }

  // ---- whole runs ------------------------------------------------------------------------------

  /** What the transport does with the queue; a refused call changes nothing. */
  datatype Operation =
    | Fragment(data: seq<byte>, accepted: bool)
    | FinalFragment(accepted: bool)
    | Pop
    | Clear

  /** The queue's state and the messages it has handed out since it was last cleared. */
  datatype Run = Run(queue: Queue, popped: seq<Message>)

  function Step(run: Run, op: Operation): Run {
    match op
    case Fragment(data, accepted) => if accepted then run.(queue := Pushed(run.queue, data)) else run
    case FinalFragment(accepted) => if accepted then run.(queue := Ended(run.queue)) else run
    case Pop =>
      if run.queue.frames == [] then run
      else Run(Popped(run.queue), run.popped + [run.queue.frames[0]])
    case Clear => Run(EMPTY, [])
  }

  function RunAll(ops: seq<Operation>): Run {
    if ops == [] then Run(EMPTY, []) else Step(RunAll(ops[..|ops| - 1]), ops[|ops| - 1])
  }

  /** Index just behind the last clear. */
  function SinceClear(ops: seq<Operation>): (i: nat)
    ensures i <= |ops|
    ensures forall k :: i <= k < |ops| ==> ops[k] != Clear
  {
    if ops == [] then 0
    else if ops[|ops| - 1] == Clear then |ops|
    else SinceClear(ops[..|ops| - 1])
  }

  /** Index just behind the last message closed at or after `from`. */
  function SinceFinal(ops: seq<Operation>, from: nat): (i: nat)
    requires from <= |ops|
    ensures from <= i <= |ops|
    ensures forall k :: i <= k < |ops| ==> !(ops[k].FinalFragment? && ops[k].accepted)
    ensures i == from || (ops[i - 1].FinalFragment? && ops[i - 1].accepted)
    decreases |ops|
  {
    if |ops| == from then from
    else if ops[|ops| - 1].FinalFragment? && ops[|ops| - 1].accepted then |ops|
    else SinceFinal(ops[..|ops| - 1], from)
  }

  /** All fragments accepted in a stretch of the run, concatenated. */
  function Payload(ops: seq<Operation>): seq<byte> {
    if ops == [] then []
    else
      var op := ops[|ops| - 1];
      Payload(ops[..|ops| - 1]) + (if op.Fragment? && op.accepted then op.data else [])
  }

  /**
   * The messages of a run as section 5.4 of RFC 6455 reads fragments: each final fragment closes
   * everything since the previous one, and messages without payload are not messages.
   */
  function Messages(ops: seq<Operation>, from: nat): seq<Message>
    requires from <= |ops|
    decreases |ops|
  {
    if |ops| == from then []
    else
      var earlier := ops[..|ops| - 1];
      var op := ops[|ops| - 1];
      if op.FinalFragment? && op.accepted then
        var message := Payload(earlier[SinceFinal(earlier, from)..]);
        Messages(earlier, from) + (if message == [] then [] else [message])
      else
        Messages(earlier, from)
  }

  /**
   * Under every interleaving: what was popped followed by what is queued is exactly the list of
   * messages closed since the last clear, and the partial message is what came after the last of them.
   */
  lemma {:induction false} RunDelivers(ops: seq<Operation>)
    ensures
      var run, from := RunAll(ops), SinceClear(ops);
      && run.popped + run.queue.frames == Messages(ops, from)
      && run.queue.partial == Payload(ops[SinceFinal(ops, from)..])
  {
    if ops != [] {
      var last := |ops| - 1;
      RunDelivers(ops[..last]);
      if ops[last] != Clear {
        StepDelivers(ops, SinceClear(ops));
      } else {
        assert ops[|ops|..] == [];
      }
    }
  }

  /** One operation other than a clear. */
  lemma StepDelivers(ops: seq<Operation>, from: nat)
    requires ops != [] && from < |ops| && ops[|ops| - 1] != Clear
    requires
      var earlier := ops[..|ops| - 1];
      var run := RunAll(earlier);
      && run.popped + run.queue.frames == Messages(earlier, from)
      && run.queue.partial == Payload(earlier[SinceFinal(earlier, from)..])
    ensures
      var run := RunAll(ops);
      && run.popped + run.queue.frames == Messages(ops, from)
      && run.queue.partial == Payload(ops[SinceFinal(ops, from)..])
  {
    var earlier, op := ops[..|ops| - 1], ops[|ops| - 1];
    var run, cut := RunAll(earlier), SinceFinal(earlier, from);
    PayloadStep(ops, cut);
    match op {
      case FinalFragment(accepted) =>
        assert ops[|ops|..] == [];
        Associate(run.popped, run.queue.frames, [run.queue.partial]);
      case Pop =>
        if run.queue.frames != [] {
          var front, others := [run.queue.frames[0]], run.queue.frames[1..];
          Associate(run.popped, front, others);
          assert front + others == run.queue.frames;
        }
      case _ =>
    }
  }

  lemma PayloadStep(ops: seq<Operation>, cut: nat)
    requires cut < |ops|
    ensures
      var op := ops[|ops| - 1];
      Payload(ops[cut..]) == Payload(ops[..|ops| - 1][cut..]) + (if op.Fragment? && op.accepted then op.data else [])
  {
    var tail := ops[cut..];
    assert tail[..|tail| - 1] == ops[..|ops| - 1][cut..];
  }

  /** How many messages the pops of a run take: each the next one closed, if there is one. */
  function Taken(ops: seq<Operation>, from: nat): nat
    requires from <= |ops|
    decreases |ops|
  {
    if |ops| == from then 0
    else
      var earlier := ops[..|ops| - 1];
      var n := Taken(earlier, from);
      if ops[|ops| - 1] == Pop && n < |Messages(earlier, from)| then n + 1 else n
  }

  /** Every pop hands out the next message whenever there is one: the k-th popped is the k-th closed. */
  lemma {:induction false} PopsTakeNext(ops: seq<Operation>)
    ensures
      var run, from := RunAll(ops), SinceClear(ops);
      && |run.popped| == Taken(ops, from) <= |Messages(ops, from)|
      && run.popped == Messages(ops, from)[..Taken(ops, from)]
      && run.queue.frames == Messages(ops, from)[Taken(ops, from)..]
  {
    RunDelivers(ops);
    if ops != [] && ops[|ops| - 1] != Clear {
      var earlier := ops[..|ops| - 1];
      RunDelivers(earlier);
      PopsTakeNext(earlier);
    }
    var run := RunAll(ops);
    assert run.popped == (run.popped + run.queue.frames)[..|run.popped|];
    assert run.queue.frames == (run.popped + run.queue.frames)[|run.popped|..];
  }
}
