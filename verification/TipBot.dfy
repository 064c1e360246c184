/**
 * The tip bot's command ring and its idempotency table: commands leave in order, once each, and a
 * message already paid for is not paid again while its record is in the table.
 */
module TipBot {
  import opened Common

  const QUEUE_MAX := 32
  const IDEMPOTENCY_MAX := 2000
  const CHAT_ID_SIZE := 128
  const IDENTITY_SIZE := 128
  const MESSAGE_ID_SIZE := 128
  const TEXT_SIZE := 512
  const HASH_HEX_SIZE := 65

  datatype Command = Command(chatId: string, sender: string, messageId: string, replyTo: string, text: string)

  /** What a place of the ring keeps of a command. */
  function Kept(c: Command): Command {
    Command(CopyBounded(CHAT_ID_SIZE, c.chatId), CopyBounded(IDENTITY_SIZE, c.sender),
            CopyBounded(MESSAGE_ID_SIZE, c.messageId), CopyBounded(MESSAGE_ID_SIZE, c.replyTo), CopyBounded(TEXT_SIZE, c.text))
  }

  datatype Record = Record(messageId: string, txHash: string)

  // ---- the simple views --------------------------------------------------------------------------

  /** The newest records the table has room for. */
  function Window(records: seq<Record>): seq<Record> {
    if |records| <= IDEMPOTENCY_MAX then records else records[|records| - IDEMPOTENCY_MAX..]
  }

  predicate Holds(table: seq<Record>, messageId: string) {
    exists i :: 0 <= i < |table| && table[i].messageId == messageId
  }

  /** What becomes of one tip command. */
  datatype Outcome = Rejected | AlreadySent | NotPaid | Paid

  /**
   * `parsed`: everything before the idempotency check succeeded; `submitted`: the ledger answered,
   * the payment was built and the ledger took it.
   */
  datatype Tip = Tip(messageId: string, txHash: string, parsed: bool, submitted: bool)

  function TipOutcome(table: seq<Record>, tip: Tip): Outcome {
    if !tip.parsed then Rejected
    else if Holds(table, tip.messageId) then AlreadySent
    else if !tip.submitted then NotPaid
    else Paid
  }

  function TableAfter(table: seq<Record>, tip: Tip): seq<Record> {
    if TipOutcome(table, tip) == Paid then Window(table + [Record(tip.messageId, tip.txHash)]) else table
  }

  // ---- the code ---------------------------------------------------------------------------------------

  class App {
    var queue: array<Command>
    var queueHead: nat
    var queueCount: nat
    var processed: array<Record>
    var processedCount: nat

    ghost predicate Valid()
      reads this, queue, processed
    {
      && queue.Length == QUEUE_MAX && queueHead < QUEUE_MAX && queueCount <= QUEUE_MAX
      && processed.Length == IDEMPOTENCY_MAX && processedCount <= IDEMPOTENCY_MAX
    }

    function Queued(): (s: seq<Command>)
      reads this, queue
      requires queue.Length == QUEUE_MAX
      ensures |s| == queueCount
    {
      seq(queueCount, i requires 0 <= i < queueCount reads this, queue requires queue.Length == QUEUE_MAX =>
        queue[(queueHead + i) % QUEUE_MAX])
    }

    function Table(): seq<Record>
      reads this, processed
      requires processedCount <= processed.Length
    {
      processed[..processedCount]
    }

    constructor ()
      ensures Valid() && fresh(queue) && fresh(processed) && Queued() == [] && Table() == []
    {
      queue := new Command[QUEUE_MAX](_ => Command("", "", "", "", ""));
      processed := new Record[IDEMPOTENCY_MAX](_ => Record("", ""));
      queueHead, queueCount, processedCount := 0, 0, 0;
    }

    /** A full ring ignores the command. */
    method Enqueue(command: Command) returns (accepted: bool)
      requires Valid()
      modifies this`queueCount, queue
      ensures Valid() && Table() == old(Table())
      ensures accepted == (|old(Queued())| < QUEUE_MAX)
      ensures Queued() == if accepted then old(Queued()) + [Kept(command)] else old(Queued())
    {
      if queueCount == QUEUE_MAX {
        return false;
      }
      ghost var before := Queued();
      var slot := (queueHead + queueCount) % QUEUE_MAX;
      queue[slot] := Kept(command);
      queueCount := queueCount + 1;
      forall i | 0 <= i < |before| ensures Queued()[i] == before[i] {
        assert (queueHead + i) % QUEUE_MAX != slot;
      }
      assert Queued() == before + [Kept(command)];
      return true;
    }

    /** Takes the oldest command off the ring. */
    method Dequeue() returns (command: Option<Command>)
      requires Valid()
      modifies this`queueHead, this`queueCount
      ensures Valid() && Table() == old(Table())
      ensures command == if old(Queued()) == [] then None else Some(old(Queued())[0])
      ensures Queued() == if old(Queued()) == [] then [] else old(Queued())[1..]
    {
      if queueCount == 0 {
        return None;
      }
      ghost var before := Queued();
      command := Some(queue[queueHead]);
      queueHead := (queueHead + 1) % QUEUE_MAX;
      queueCount := queueCount - 1;
      forall i | 0 <= i < |Queued()| ensures Queued()[i] == before[i + 1] {
        assert (queueHead + i) % QUEUE_MAX == (old(queueHead) + (i + 1)) % QUEUE_MAX;
      }
      assert Queued() == before[1..];
    }

    method AlreadyProcessed(messageId: string) returns (found: bool)
      requires Valid()
      ensures found == Holds(Table(), messageId)
    {
      for i := 0 to processedCount
        invariant forall k :: 0 <= k < i ==> processed[k].messageId != messageId
      {
        if processed[i].messageId == messageId {
          assert Table()[i].messageId == messageId;
          return true;
        }
      }
      return false;
    }

    /** Appends a record, dropping the oldest when the table is full. */
    method RecordProcessed(messageId: string, txHash: string)
      requires Valid()
      modifies this`processedCount, processed
      ensures Valid() && Queued() == old(Queued())
      ensures Table() == Window(old(Table()) + [Record(messageId, txHash)])
    {
      ghost var before, record := Table(), Record(messageId, txHash);
      if processedCount == IDEMPOTENCY_MAX {
        forall i | 0 <= i < IDEMPOTENCY_MAX - 1 {
          processed[i] := processed[i + 1];
        }
        processedCount := processedCount - 1;
      }
      processed[processedCount] := Record(messageId, txHash);
      processedCount := processedCount + 1;
      assert Table() == Window(before + [record]);
    }

    /** The checks and the record of one tip, in the order the bot makes them. */
    method HandleTip(tip: Tip) returns (outcome: Outcome)
      requires Valid()
      modifies this`processedCount, processed
      ensures Valid() && Queued() == old(Queued())
      ensures outcome == TipOutcome(old(Table()), tip)
      ensures Table() == TableAfter(old(Table()), tip)
    {
      if !tip.parsed {
        return Rejected;
      }
      var found := AlreadyProcessed(tip.messageId);
      if found {
        return AlreadySent;
      }
      if !tip.submitted {
        return NotPaid;
      }
      RecordProcessed(tip.messageId, tip.txHash);
      return Paid;
    }

    /** Serves one command; only `!tip` touches the table. */
    method RunOne(txHash: string, parsed: bool, submitted: bool) returns (served: Option<Command>, outcome: Outcome)
      requires Valid()
      modifies this, processed
      ensures Valid() && queue == old(queue) && processed == old(processed)
      ensures served == if old(Queued()) == [] then None else Some(old(Queued())[0])
      ensures Queued() == if old(Queued()) == [] then [] else old(Queued())[1..]
      ensures
        var isTip := served.Some? && "!tip" <= served.value.text;
        var tip := Tip(if isTip then served.value.messageId else "", txHash, parsed, submitted);
        && outcome == (if isTip then TipOutcome(old(Table()), tip) else Rejected)
        && Table() == (if isTip then TableAfter(old(Table()), tip) else old(Table()))
    {
      served := Dequeue();
      outcome := Rejected;
      if served.Some? && "!tip" <= served.value.text {
        outcome := HandleTip(Tip(served.value.messageId, txHash, parsed, submitted));
      }
    }

    method AddRecord(record: Record)
      requires Valid() && processedCount < IDEMPOTENCY_MAX
      modifies this`processedCount, processed
      ensures Valid() && Queued() == old(Queued()) && Table() == old(Table()) + [record]
    {
      processed[processedCount] := record;
      processedCount := processedCount + 1;
    }

    /** Fills the empty table from the lines of the log, until it is full or the lines end. */
    method LoadProcessed(lines: seq<string>)
      requires Valid() && processedCount == 0
      modifies this`processedCount, processed
      ensures Valid() && Queued() == old(Queued()) && Table() == Loaded(lines)
    {
      var i := 0;
      assert lines[..0] == [];
      while i < |lines| && processedCount < IDEMPOTENCY_MAX
        invariant i <= |lines| && Valid() && Table() == ParsedLines(lines[..i]) && Queued() == old(Queued())
      {
        var record := ParseLine(lines[i]);
        assert lines[..i + 1][..i] == lines[..i];
        if record.Some? {
          AddRecord(record.value);
        }
        i := i + 1;
      }
      ParsedPrefix(lines, i);
      assert lines[..|lines|] == lines;
    }
  }

  // ---- the ring over whole runs -----------------------------------------------------------------------

  datatype RingEvent = Arrive(command: Command) | Serve

  datatype Ring = Ring(queued: seq<Command>, accepted: seq<Command>, served: seq<Command>)

  function RingStep(r: Ring, event: RingEvent): Ring {
    match event
    case Arrive(command) =>
      if |r.queued| < QUEUE_MAX then Ring(r.queued + [Kept(command)], r.accepted + [Kept(command)], r.served) else r
    case Serve =>
      if r.queued == [] then r else Ring(r.queued[1..], r.accepted, r.served + [r.queued[0]])
  }

  function RingRun(events: seq<RingEvent>): Ring {
    if events == [] then Ring([], [], []) else RingStep(RingRun(events[..|events| - 1]), events[|events| - 1])
  }

  /** Accepted commands are served in the order they came, each once, and the rest is still queued. */
  lemma {:induction false} ServedInOrder(events: seq<RingEvent>)
    ensures RingRun(events).served + RingRun(events).queued == RingRun(events).accepted
    ensures |RingRun(events).queued| <= QUEUE_MAX
  {
    if events != [] {
      var r := RingRun(events[..|events| - 1]);
      ServedInOrder(events[..|events| - 1]);
      if events[|events| - 1] == Serve && r.queued != [] {
        assert (r.served + [r.queued[0]]) + r.queued[1..] == r.served + r.queued;
      }
    }
  }

  /**
   * Whatever the run, a command that comes while fewer than 32 wait is accepted last, under its own
   * chat, sender, message and text; otherwise nothing changes.
   */
  lemma {:induction false} ArrivesExactly(events: seq<RingEvent>, c: Command)
    ensures
      var before, after := RingRun(events), RingRun(events + [Arrive(c)]);
      if |before.accepted| - |before.served| < 32 then
        && |after.accepted| == |before.accepted| + 1 && before.accepted <= after.accepted && after.served == before.served
        && (var kept := after.accepted[|before.accepted|];
            && CutTo(kept.chatId, c.chatId, 128) && CutTo(kept.sender, c.sender, 128)
            && CutTo(kept.messageId, c.messageId, 128) && CutTo(kept.replyTo, c.replyTo, 128)
            && CutTo(kept.text, c.text, 512))
      else after == before
  {
    var r := RingRun(events);
    ServedInOrder(events);
    assert |r.served + r.queued| == |r.accepted|;
    assert (events + [Arrive(c)])[..|events|] == events;
  }

  /** Serving hands out the command accepted longest ago that was not served yet, if there is one. */
  lemma ServesNext(events: seq<RingEvent>)
    ensures
      var before, after := RingRun(events), RingRun(events + [Serve]);
      && after.accepted == before.accepted
      && after.served == before.served
           + (if |before.served| < |before.accepted| then [before.accepted[|before.served|]] else [])
  {
    var r := RingRun(events);
    ServedInOrder(events);
    assert |r.served + r.queued| == |r.accepted|;
    assert (events + [Serve])[..|events|] == events;
    assert r.served + [] == r.served;
  }

  // ---- payments over whole runs -----------------------------------------------------------------------

  /** The table, and every record ever made: those loaded at the start, then one a payment. */
  datatype Books = Books(table: seq<Record>, records: seq<Record>)

  function TipRun(loaded: seq<Record>, tips: seq<Tip>): Books {
    if tips == [] then Books(loaded, loaded)
    else
      var before, tip := TipRun(loaded, tips[..|tips| - 1]), tips[|tips| - 1];
      Books(TableAfter(before.table, tip),
            if TipOutcome(before.table, tip) == Paid then before.records + [Record(tip.messageId, tip.txHash)]
            else before.records)
  }

  /** The table is always the newest records, and no record lies within 2000 of an equal one. */
  lemma {:induction false} NeverPaidTwiceInWindow(loaded: seq<Record>, tips: seq<Tip>)
    requires |loaded| <= IDEMPOTENCY_MAX
    ensures
      var books := TipRun(loaded, tips);
      && books.table == Window(books.records)
      && loaded <= books.records
      && forall i, j ::
          0 <= i < j < |books.records| && |loaded| <= j && books.records[i].messageId == books.records[j].messageId
          ==> j - i > IDEMPOTENCY_MAX
  {
    if tips != [] {
      var before, tip := TipRun(loaded, tips[..|tips| - 1]), tips[|tips| - 1];
      NeverPaidTwiceInWindow(loaded, tips[..|tips| - 1]);
      if TipOutcome(before.table, tip) == Paid {
        var n, record := |before.records|, Record(tip.messageId, tip.txHash);
        WindowAppend(before.records, record);
        forall i | 0 <= i < n && before.records[i].messageId == tip.messageId ensures n - i > IDEMPOTENCY_MAX {
          if n - i <= IDEMPOTENCY_MAX {
            InWindow(before.records, i);
            assert false;
          }
        }
      }
    }
  }

  /**
   * Whatever was loaded and done before, a tip is paid exactly when it is well formed, the ledger
   * takes it and none of the newest 2000 records bears its message id; only then is it recorded.
   */
  lemma TipPaidExactly(loaded: seq<Record>, tips: seq<Tip>, tip: Tip)
    requires |loaded| <= 2000
    ensures
      var books := TipRun(loaded, tips);
      var records := books.records;
      var known := exists i :: 0 <= i < |records| && |records| - i <= 2000 && records[i].messageId == tip.messageId;
      && (TipOutcome(books.table, tip) == Paid <==> tip.parsed && tip.submitted && !known)
      && (TipOutcome(books.table, tip) == AlreadySent <==> tip.parsed && known)
      && TipRun(loaded, tips + [tip]).records
         == records + (if tip.parsed && tip.submitted && !known then [Record(tip.messageId, tip.txHash)] else [])
  {
    var books := TipRun(loaded, tips);
    NeverPaidTwiceInWindow(loaded, tips);
    HoldsNewest(books.records, tip.messageId);
    assert (tips + [tip])[..|tips|] == tips;
  }

  lemma HoldsNewest(records: seq<Record>, messageId: string)
    ensures Holds(Window(records), messageId)
       <==> exists i :: 0 <= i < |records| && |records| - i <= 2000 && records[i].messageId == messageId
  {
    var start := if |records| <= IDEMPOTENCY_MAX then 0 else |records| - IDEMPOTENCY_MAX;
    if i :| 0 <= i < |Window(records)| && Window(records)[i].messageId == messageId {
      assert records[start + i].messageId == messageId;
    }
    if i :| 0 <= i < |records| && |records| - i <= 2000 && records[i].messageId == messageId {
      InWindow(records, i);
    }
  }

  lemma WindowAppend(records: seq<Record>, record: Record)
    ensures Window(Window(records) + [record]) == Window(records + [record])
  {
  }

  lemma InWindow(records: seq<Record>, i: nat)
    requires i < |records| <= i + IDEMPOTENCY_MAX
    ensures Holds(Window(records), records[i].messageId)
  {
    var start := if |records| <= IDEMPOTENCY_MAX then 0 else |records| - IDEMPOTENCY_MAX;
    assert Window(records)[i - start] == records[i];
  }

  // ---- restarts ---------------------------------------------------------------------------------------------

  /** Where the line break begins. */
  function LineEnd(s: string): (i: nat)
    ensures i <= |s|
    ensures forall k :: 0 <= k < i ==> s[k] != '\n' && s[k] != '\r'
    ensures i < |s| ==> s[i] == '\n' || s[i] == '\r'
  {
    if s == "" || s[0] == '\n' || s[0] == '\r' then 0 else 1 + LineEnd(s[1..])
  }

  /** One line of the log; lines without a separator or with an overlong field are skipped. */
  function ParseLine(line: string): Option<Record> {
    var text := line[..LineEnd(line)];
    var bar := IndexOf(text, '|');
    if bar == None then None
    else if bar.value >= MESSAGE_ID_SIZE || |text| - bar.value - 1 >= HASH_HEX_SIZE then None
    else Some(Record(text[..bar.value], text[bar.value + 1..]))
  }

  function ParsedLines(lines: seq<string>): (records: seq<Record>)
    ensures |records| <= |lines|
  {
    if lines == [] then []
    else
      var record := ParseLine(lines[|lines| - 1]);
      ParsedLines(lines[..|lines| - 1]) + (if record.Some? then [record.value] else [])
  }

  /** What a restart reads back: the first records of the log, as many as the table has room for. */
  function Loaded(lines: seq<string>): seq<Record> {
    var records := ParsedLines(lines);
    if |records| <= IDEMPOTENCY_MAX then records else records[..IDEMPOTENCY_MAX]
  }

  lemma {:induction false} ParsedPrefix(lines: seq<string>, i: nat)
    requires i <= |lines|
    ensures ParsedLines(lines[..i]) <= ParsedLines(lines)
    decreases |lines|
  {
    if i < |lines| {
      ParsedPrefix(lines[..|lines| - 1], i);
      assert lines[..|lines| - 1][..i] == lines[..i];
    } else {
      assert lines[..i] == lines;
    }
  }

  function LogLine(record: Record): string {
    record.messageId + "|" + record.txHash + "\n"
  }

  predicate Loggable(record: Record) {
    && FitsBuffer(record.messageId, MESSAGE_ID_SIZE) && FitsBuffer(record.txHash, HASH_HEX_SIZE)
    && (forall k :: 0 <= k < |record.messageId| ==>
          record.messageId[k] != '|' && record.messageId[k] != '\n' && record.messageId[k] != '\r')
    && (forall k :: 0 <= k < |record.txHash| ==> record.txHash[k] != '\n' && record.txHash[k] != '\r')
  }

  lemma {:induction false} LineEndAt(s: string, i: nat)
    requires i < |s| && s[i] == '\n' && forall k :: 0 <= k < i ==> s[k] != '\n' && s[k] != '\r'
    ensures LineEnd(s) == i
  {
    if i > 0 {
      LineEndAt(s[1..], i - 1);
    }
  }

  lemma LogLineParses(record: Record)
    requires Loggable(record)
    ensures ParseLine(LogLine(record)) == Some(record)
  {
    var line, text := LogLine(record), record.messageId + "|" + record.txHash;
    LineEndAt(line, |text|);
    assert line[..|text|] == text;
    SplitAt(record.messageId, '|', record.txHash);
  }

  function LogLines(records: seq<Record>): (lines: seq<string>)
    ensures |lines| == |records|
  {
    seq(|records|, i requires 0 <= i < |records| => LogLine(records[i]))
  }

  lemma {:induction false} LogRoundTrip(records: seq<Record>)
    requires forall i :: 0 <= i < |records| ==> Loggable(records[i])
    ensures ParsedLines(LogLines(records)) == records
  {
    if records != [] {
      var last := |records| - 1;
      LogRoundTrip(records[..last]);
      LogLineParses(records[last]);
      assert LogLines(records)[..last] == LogLines(records[..last]);
    }
  }

  /**
   * After a restart a message is recognised exactly when it is among the first 2000 records of the
   * log. While the process runs it is the newest 2000 that count, so the two tables agree as long as
   * the log holds no more than 2000 records.
   */
  lemma RestartRecognises(records: seq<Record>, messageId: string)
    requires forall i :: 0 <= i < |records| ==> Loggable(records[i])
    ensures Holds(Loaded(LogLines(records)), messageId)
       <==> exists i :: 0 <= i < |records| && i < IDEMPOTENCY_MAX && records[i].messageId == messageId
    ensures |records| <= IDEMPOTENCY_MAX ==> Loaded(LogLines(records)) == Window(records)
  {
    LogRoundTrip(records);
    var table := Loaded(LogLines(records));
    assert forall i :: 0 <= i < |table| ==> table[i] == records[i];
    if i :| 0 <= i < |records| && i < IDEMPOTENCY_MAX && records[i].messageId == messageId {
      assert table[i].messageId == messageId;
    }
  }

  /**
   * With one record more the restart forgets the newest payment, so a redelivery of that message
   * would be paid again.
   */
  lemma RestartForgetsNewest(tips: seq<Tip>, retry: Tip)
    requires var records := TipRun([], tips).records;
      && |records| == IDEMPOTENCY_MAX + 1
      && (forall i :: 0 <= i < |records| ==> Loggable(records[i]))
      && retry == Tip(records[IDEMPOTENCY_MAX].messageId, retry.txHash, true, true)
    ensures TipOutcome(TipRun([], tips).table, retry) == AlreadySent
    ensures TipOutcome(Loaded(LogLines(TipRun([], tips).records)), retry) == Paid
  {
    var books := TipRun([], tips);
    var records, id := books.records, retry.messageId;
    NeverPaidTwiceInWindow([], tips);
    assert books.table[IDEMPOTENCY_MAX - 1] == records[IDEMPOTENCY_MAX];
    RestartRecognises(records, id);
  }
}
