/**
 * The bot's reconnect scheduler: what its callbacks and its poll loop do to the attempt counter
 * and the next attempt time, and what that means over every run.
 */
module Reconnect {
  import opened Backoff

  /** A clock reading in milliseconds; adding a delay to one never leaves 64 bits. */
  type Clock = x: nat | x < 0x8000_0000_0000_0000

  // ---- the simple view --------------------------------------------------------------------------

  datatype Timer = Timer(shouldStop: bool, attempts: uint32, next: nat)

  const FRESH := Timer(false, 0, 0)

  datatype Event =
    | Connected
    | Disconnected(now: Clock, draw: uint32)
    | Started(accepted: bool, now: Clock, draw: uint32)
    | Polled(now: Clock, connected: bool, accepted: bool, later: Clock, draw: uint32)
    | Stopped

  /** What happened, as an observer outside the bot would log it. */
  datatype Entry =
    | Authenticated
    | Scheduled(attempt: uint32, at: Clock, delay: nat)
    | Tried(at: Clock)

  function Delay(attempt: uint32, draw: uint32): nat {
    Min(Curve(attempt, BASE_MS, CAP_MS) + draw, CAP_MS)
  }

  /** Counts one more attempt and sets the alarm. */
  function Schedule(t: Timer, now: Clock, draw: uint32): (Timer, Entry) {
    var attempt := (t.attempts + 1) % 0x1_0000_0000;
    (t.(attempts := attempt, next := now + Delay(attempt, draw)), Scheduled(attempt, now, Delay(attempt, draw)))
  }

  predicate Due(t: Timer, now: Clock, connected: bool) {
    !t.shouldStop && t.next != 0 && !connected && now >= t.next
  }

  function Step(t: Timer, event: Event): (Timer, seq<Entry>) {
    match event
    case Connected => (t.(attempts := 0, next := 0), [Authenticated])
    case Disconnected(now, draw) =>
      if t.shouldStop || t.next != 0 then (t, [])
      else
        var (after, entry) := Schedule(t, now, draw);
        (after, [entry])
    case Started(accepted, now, draw) =>
      if accepted then (t, [])
      else
        var (after, entry) := Schedule(t, now, draw);
        (after, [entry])
    case Polled(now, connected, accepted, later, draw) =>
      if !Due(t, now, connected) then (t, [])
      else if accepted then (t.(next := 0), [Tried(now)])
      else
        var (after, entry) := Schedule(t.(next := 0), later, draw);
        (after, [Tried(now), entry])
    case Stopped => (t.(shouldStop := true), [])
  }

  // ---- the code -----------------------------------------------------------------------------------

  class Bot {
    var online: bool
    var shouldStop: bool
    var reconnectAttempts: uint32
    var nextAttemptMs: nat

    function View(): Timer
      reads this
    {
      Timer(shouldStop, reconnectAttempts, nextAttemptMs)
    }

    constructor ()
      ensures View() == FRESH && !online
    {
      online, shouldStop, reconnectAttempts, nextAttemptMs := false, false, 0, 0;
    }

    method OnConnected()
      modifies this
      ensures View() == Step(old(View()), Connected).0 && online
    {
      online := true;
      reconnectAttempts := 0;
      nextAttemptMs := 0;
    }

    method OnDisconnected(now: Clock, draw: uint32)
      requires draw < JITTER_MS
      modifies this
      ensures View() == Step(old(View()), Disconnected(now, draw)).0 && !online
    {
      online := false;
      if !shouldStop && nextAttemptMs == 0 {
        ScheduleNext(now, draw);
      }
    }

    method ScheduleNext(now: Clock, draw: uint32)
      requires draw < JITTER_MS
      modifies this`reconnectAttempts, this`nextAttemptMs
      ensures View() == Schedule(old(View()), now, draw).0
    {
      reconnectAttempts := (reconnectAttempts + 1) % 0x1_0000_0000;
      var delay := DelayMs(reconnectAttempts, BASE_MS, CAP_MS, JITTER_MS, draw);
      nextAttemptMs := now + delay;
    }

    /** `accepted` is what starting the client answered. */
    method Start(accepted: bool, now: Clock, draw: uint32)
      requires draw < JITTER_MS
      modifies this`reconnectAttempts, this`nextAttemptMs
      ensures View() == Step(old(View()), Started(accepted, now, draw)).0
    {
      if !accepted {
        ScheduleNext(now, draw);
      }
    }

    /** `tried` tells whether the client was started. */
    method MaybeReconnect(now: Clock, connected: bool, accepted: bool, later: Clock, draw: uint32)
      returns (tried: bool)
      requires draw < JITTER_MS
      modifies this`reconnectAttempts, this`nextAttemptMs
      ensures View() == Step(old(View()), Polled(now, connected, accepted, later, draw)).0
      ensures tried == Due(old(View()), now, connected)
    {
      if shouldStop || nextAttemptMs == 0 || connected {
        return false;
      }
      if now < nextAttemptMs {
        return false;
      }
      nextAttemptMs := 0;
      if !accepted {
        ScheduleNext(later, draw);
      }
      return true;
    }

    method Stop()
      modifies this`shouldStop
      ensures View() == Step(old(View()), Stopped).0
    {
      shouldStop := true;
    }
  }

  // ---- whole runs -----------------------------------------------------------------------------------

  datatype Run = Run(timer: Timer, log: seq<Entry>)

  function RunAll(events: seq<Event>): Run {
    if events == [] then Run(FRESH, [])
    else
      var before := RunAll(events[..|events| - 1]);
      var (timer, entries) := Step(before.timer, events[|events| - 1]);
      Run(timer, before.log + entries)
  }

  /** Schedulings since the last authentication. */
  function Schedulings(log: seq<Entry>): nat {
    if log == [] || log[|log| - 1] == Authenticated then 0
    else Schedulings(log[..|log| - 1]) + (if log[|log| - 1].Scheduled? then 1 else 0)
  }

  /** When the alarm last set rings; 0 once it was used up or authentication made it pointless. */
  function Alarm(log: seq<Entry>): nat {
    if log == [] then 0
    else match log[|log| - 1]
      case Scheduled(_, at, delay) => at + delay
      case _ => 0
  }

  /**
   * Every delay lies between the curve and the cap, and no attempt was made before the alarm set
   * for it rang.
   */
  predicate Sound(log: seq<Entry>) {
    log == [] || (
      var earlier, last := log[..|log| - 1], log[|log| - 1];
      && Sound(earlier)
      && (last.Scheduled? ==> Curve(last.attempt, BASE_MS, CAP_MS) <= last.delay <= CAP_MS
                              && last.attempt == (Schedulings(earlier) + 1) % 0x1_0000_0000)
      && (last.Tried? ==> 0 < Alarm(earlier) <= last.at))
  }

  /** The timer agrees with the log: the counter, in 32 bits, and the alarm. */
  predicate Agrees(t: Timer, log: seq<Entry>) {
    t.attempts == Schedulings(log) % 0x1_0000_0000 && t.next == Alarm(log) && Sound(log)
  }

  lemma CountsOn(n: nat)
    ensures (n % 0x1_0000_0000 + 1) % 0x1_0000_0000 == (n + 1) % 0x1_0000_0000
  {
  }

  /** One entry more. */
  lemma Snoc(log: seq<Entry>, e: Entry)
    ensures Alarm(log + [e]) == if e.Scheduled? then e.at + e.delay else 0
    ensures Schedulings(log + [e])
         == if e.Authenticated? then 0 else Schedulings(log) + (if e.Scheduled? then 1 else 0)
    ensures Sound(log + [e]) <==>
      Sound(log)
      && (e.Scheduled? ==> Curve(e.attempt, BASE_MS, CAP_MS) <= e.delay <= CAP_MS
                           && e.attempt == (Schedulings(log) + 1) % 0x1_0000_0000)
      && (e.Tried? ==> 0 < Alarm(log) <= e.at)
  {
    assert (log + [e])[..|log|] == log;
  }

  lemma SchedulingAgrees(t: Timer, log: seq<Entry>, now: Clock, draw: uint32)
    requires Sound(log) && t.attempts == Schedulings(log) % 0x1_0000_0000
    ensures Agrees(Schedule(t, now, draw).0, log + [Schedule(t, now, draw).1])
  {
    CountsOn(Schedulings(log));
    Snoc(log, Schedule(t, now, draw).1);
  }

  lemma PollAgrees(t: Timer, log: seq<Entry>, now: Clock, accepted: bool, later: Clock, draw: uint32)
    requires Agrees(t, log) && Due(t, now, false)
    ensures
      var (after, entries) := Step(t, Polled(now, false, accepted, later, draw));
      Agrees(after, log + entries)
  {
    var tried := log + [Tried(now)];
    Snoc(log, Tried(now));
    if !accepted {
      var entry := Schedule(t.(next := 0), later, draw).1;
      SchedulingAgrees(t.(next := 0), tried, later, draw);
      assert tried + [entry] == log + [Tried(now), entry];
    }
  }

  lemma StepAgrees(t: Timer, log: seq<Entry>, e: Event)
    requires Agrees(t, log)
    ensures Agrees(Step(t, e).0, log + Step(t, e).1)
  {
    assert log + [] == log;
    match e {
      case Connected => Snoc(log, Authenticated);
      case Disconnected(now, draw) => SchedulingAgrees(t, log, now, draw);
      case Started(accepted, now, draw) => SchedulingAgrees(t, log, now, draw);
      case Polled(now, connected, accepted, later, draw) =>
        if Due(t, now, connected) {
          PollAgrees(t, log, now, accepted, later, draw);
        }
      case Stopped =>
    }
  }

  /**
   * Over every run the counter is the number of schedulings since the last authentication (in 32
   * bits), the timer is the alarm last set, and the log is sound.
   */
  lemma {:induction false} RunSound(events: seq<Event>)
    ensures
      var run := RunAll(events);
      && run.timer.attempts == Schedulings(run.log) % 0x1_0000_0000
      && run.timer.next == Alarm(run.log)
      && Sound(run.log)
  {
    if events != [] {
      var last := |events| - 1;
      RunSound(events[..last]);
      StepAgrees(RunAll(events[..last]).timer, RunAll(events[..last]).log, events[last]);
    }
  }

  // ---- what every event does ------------------------------------------------------------------------

  /** Milliseconds before the jitter, by the number of the attempt. */
  function Pause(attempt: nat): nat {
    if attempt <= 1 then 1000
    else if attempt == 2 then 2000
    else if attempt == 3 then 4000
    else if attempt == 4 then 8000
    else if attempt == 5 then 16000
    else 30000
  }

  /** The attempt after `n` schedulings, `draw` milliseconds of jitter later but never after thirty seconds. */
  function Planned(n: nat, at: Clock, draw: uint32): Entry {
    var attempt := (n + 1) % 0x1_0000_0000;
    Scheduled(attempt, at, if Pause(attempt) + draw < 30000 then Pause(attempt) + draw else 30000)
  }

  predicate StoppedIn(events: seq<Event>) {
    exists i :: 0 <= i < |events| && events[i].Stopped?
  }

  /** What an event must add to the log. */
  function Reaction(stopped: bool, log: seq<Entry>, e: Event): seq<Entry> {
    var n, alarm := Schedulings(log), Alarm(log);
    match e
    case Connected => [Authenticated]
    case Disconnected(now, draw) => if stopped || alarm != 0 then [] else [Planned(n, now, draw)]
    case Started(accepted, now, draw) => if accepted then [] else [Planned(n, now, draw)]
    case Polled(now, connected, accepted, later, draw) =>
      if stopped || connected || alarm == 0 || now < alarm then []
      else [Tried(now)] + (if accepted then [] else [Planned(n, later, draw)])
    case Stopped => []
  }

  lemma CurveIsPause(attempt: nat)
    ensures Curve(attempt, 1000, 30000) == Pause(attempt)
  {
    assert PowerOfTwo(3) == 8 && PowerOfTwo(4) == 16 && PowerOfTwo(5) == 32;
    if attempt > 5 {
      PowerMonotone(5, attempt - 1);
    }
  }

  lemma PlannedNext(t: Timer, n: nat, at: Clock, draw: uint32)
    requires t.attempts == n % 0x1_0000_0000
    ensures Schedule(t, at, draw).1 == Planned(n, at, draw)
  {
    CountsOn(n);
    CurveIsPause((n + 1) % 0x1_0000_0000);
  }

  lemma {:induction false} StopStays(events: seq<Event>)
    ensures RunAll(events).timer.shouldStop <==> StoppedIn(events)
  {
    if events != [] {
      var front, last := events[..|events| - 1], |events| - 1;
      StopStays(front);
      if i :| 0 <= i < |events| && events[i].Stopped? {
        assert i < last ==> front[i].Stopped?;
      }
      if i :| 0 <= i < |front| && front[i].Stopped? {
        assert events[i].Stopped?;
      }
    }
  }

  lemma StepReacts(t: Timer, log: seq<Entry>, e: Event)
    requires t.attempts == Schedulings(log) % 0x1_0000_0000 && t.next == Alarm(log)
    ensures Step(t, e).1 == Reaction(t.shouldStop, log, e)
  {
    var n := Schedulings(log);
    match e {
      case Connected =>
      case Disconnected(now, draw) => PlannedNext(t, n, now, draw);
      case Started(accepted, now, draw) => PlannedNext(t, n, now, draw);
      case Polled(now, connected, accepted, later, draw) => PlannedNext(t.(next := 0), n, later, draw);
      case Stopped =>
    }
  }

  /**
   * At every event of every run: a disconnect schedules the next attempt unless the bot was stopped
   * or an alarm is set, a failed start always does, and a poll tries when the alarm has rung.
   */
  lemma EventDoes(events: seq<Event>, e: Event)
    ensures RunAll(events + [e]).log
         == RunAll(events).log + Reaction(StoppedIn(events), RunAll(events).log, e)
  {
    assert (events + [e])[..|events|] == events;
    RunSound(events);
    StopStays(events);
    StepReacts(RunAll(events).timer, RunAll(events).log, e);
  }
}
