/**
 * The bot's mailbox: frames of chats whose key is not known yet, bounded in number and without
 * duplicates, and handed back in order once the key arrives.
 */
module Mailbox {
  import opened Common

  const CHAT_ID_SIZE := 128
  const MAX_PER_CHAT := 500
  const MAX_CHATS := 200
  const MAX_TOTAL := 4000

  datatype Held = Held(chatId: string, frame: seq<byte>)

  // ---- the simple view -------------------------------------------------------------------------------------

  function CountFor(held: seq<Held>, chatId: string): (n: nat)
    ensures n <= |held|
  {
    if held == [] then 0
    else CountFor(held[..|held| - 1], chatId) + (if held[|held| - 1].chatId == chatId then 1 else 0)
  }

  function Chats(held: seq<Held>): set<string> {
    set i | 0 <= i < |held| :: held[i].chatId
  }

  /** Why a frame is kept or not. */
  predicate Accepts(held: seq<Held>, chatId: string, frame: seq<byte>) {
    && frame != []
    && |held| < MAX_TOTAL
    && CountFor(held, chatId) < MAX_PER_CHAT
    && (|Chats(held)| >= MAX_CHATS ==> CountFor(held, chatId) > 0)
    && Held(chatId, frame) !in held
  }

  /** The entry holds what fits its buffer of the chat's id. */
  function Entry(chatId: string, frame: seq<byte>): Held {
    Held(CopyBounded(CHAT_ID_SIZE, chatId), frame)
  }

  function Deferred(held: seq<Held>, chatId: string, frame: seq<byte>): seq<Held> {
    if Accepts(held, chatId, frame) then held + [Entry(chatId, frame)] else held
  }

  /** The caps, and no entry twice. */
  ghost predicate Bounded(held: seq<Held>) {
    && |held| <= MAX_TOTAL && |Chats(held)| <= MAX_CHATS
    && (forall chatId :: CountFor(held, chatId) <= MAX_PER_CHAT)
    && (forall i, j :: 0 <= i < j < |held| ==> held[i] != held[j])
  }

  lemma {:induction false} CountPositive(held: seq<Held>, chatId: string)
    ensures CountFor(held, chatId) > 0 <==> chatId in Chats(held)
  {
    if held != [] {
      var front, last := held[..|held| - 1], held[|held| - 1];
      CountPositive(front, chatId);
      assert held[|held| - 1] == last;
      if chatId in Chats(front) {
        var i :| 0 <= i < |front| && front[i].chatId == chatId;
        assert held[i] == front[i];
      }
      if chatId in Chats(held) && last.chatId != chatId {
        var i :| 0 <= i < |held| && held[i].chatId == chatId;
        assert front[i] == held[i];
      }
    }
  }

  lemma ChatsAppend(held: seq<Held>, entry: Held)
    ensures Chats(held + [entry]) == Chats(held) + {entry.chatId}
  {
    var more := held + [entry];
    assert more[|held|] == entry;
    forall x | x in Chats(held) + {entry.chatId} ensures x in Chats(more) {
      if x in Chats(held) {
        var i :| 0 <= i < |held| && held[i].chatId == x;
        assert more[i] == held[i];
      }
    }
  }

  lemma CountAppend(held: seq<Held>, entry: Held, chatId: string)
    ensures CountFor(held + [entry], chatId) == CountFor(held, chatId) + (if entry.chatId == chatId then 1 else 0)
  {
    assert (held + [entry])[..|held|] == held;
  }

  /** With an id that fits its buffer, deferring keeps every cap and never holds an entry twice. */
  lemma DeferKeepsBounds(held: seq<Held>, chatId: string, frame: seq<byte>)
    requires Bounded(held) && |chatId| < CHAT_ID_SIZE
    ensures Bounded(Deferred(held, chatId, frame))
  {
    if Accepts(held, chatId, frame) {
      var entry := Entry(chatId, frame);
      ChatsAppend(held, entry);
      CountPositive(held, chatId);
      forall x ensures CountFor(held + [entry], x) <= MAX_PER_CHAT {
        CountAppend(held, entry, x);
      }
    }
  }

  /** With a longer id the cut copy is never recognised: the same frame is held twice. */
  lemma LongIdHeldTwice(chatId: string, frame: seq<byte>)
    requires |chatId| >= CHAT_ID_SIZE && frame != []
    ensures Bounded(Deferred([], chatId, frame))
    ensures !Bounded(Deferred(Deferred([], chatId, frame), chatId, frame))
  {
    var entry := Entry(chatId, frame);
    FirstHeld(chatId, frame);
    CountAppend([], entry, chatId);
    assert [] + [entry] == [entry];
    ChatsAppend([], entry);
    assert |{entry.chatId}| == 1;
    var twice := Deferred([entry], chatId, frame);
    assert Held(chatId, frame) != entry;
    assert twice == [entry, entry];
    assert twice[0] == twice[1];
  }

  lemma FirstHeld(chatId: string, frame: seq<byte>)
    requires frame != []
    ensures Deferred([], chatId, frame) == [Entry(chatId, frame)] && Bounded([Entry(chatId, frame)])
  {
    var entry := Entry(chatId, frame);
    assert Chats([]) == {} && [] + [entry] == [entry];
    ChatsAppend([], entry);
    assert |{entry.chatId}| == 1;
    forall x ensures CountFor([entry], x) <= 1 {
      CountAppend([], entry, x);
    }
  }

  /** So deferring keeps the bounds of every bounded mailbox exactly when the id fits its buffer. */
  lemma BoundsExact(chatId: string, frame: seq<byte>)
    requires frame != []
    ensures (forall held | Bounded(held) :: Bounded(Deferred(held, chatId, frame))) <==> |chatId| < CHAT_ID_SIZE
  {
    if |chatId| < CHAT_ID_SIZE {
      forall held | Bounded(held) ensures Bounded(Deferred(held, chatId, frame)) {
        DeferKeepsBounds(held, chatId, frame);
      }
    } else {
      LongIdHeldTwice(chatId, frame);
      var once := Deferred([], chatId, frame);
      assert Bounded(once) && !Bounded(Deferred(once, chatId, frame));
    }
  }

  // ---- what is kept, counted out -----------------------------------------------------------------------------

  /** The places that hold a frame of the chat, and the ids held. */
  function Places(held: seq<Held>, chatId: string): set<nat> {
    set i: nat | i < |held| && held[i].chatId == chatId
  }

  function Named(held: seq<Held>): set<string> {
    set i: nat | i < |held| :: held[i].chatId
  }

  lemma {:induction false} CountIsPlaces(held: seq<Held>, chatId: string)
    ensures CountFor(held, chatId) == |Places(held, chatId)|
  {
    if held == [] {
      assert Places(held, chatId) == {};
    } else {
      var last := |held| - 1;
      CountIsPlaces(held[..last], chatId);
      var before, more := Places(held[..last], chatId), if held[last].chatId == chatId then {last as nat} else {};
      forall i: nat ensures i in Places(held, chatId) <==> i in before + more {
        if i < last {
          assert held[..last][i] == held[i];
        }
      }
      assert Places(held, chatId) == before + more;
    }
  }

  /** How a chat's id is stored: its first 127 characters. */
  function Stored(chatId: string): string {
    if |chatId| < 128 then chatId else chatId[..127]
  }

  /**
   * Deferring in plain numbers: a non-empty frame not yet held becomes the last entry exactly when
   * fewer than 4000 entries are held, fewer than 500 of them for its chat, and the chat is among those
   * held or they are fewer than 200. Otherwise nothing changes.
   */
  lemma DeferExact(held: seq<Held>, chatId: string, frame: seq<byte>)
    ensures
      var kept :=
        && frame != [] && (forall i :: 0 <= i < |held| ==> !(held[i].chatId == chatId && held[i].frame == frame))
        && |held| < 4000 && |Places(held, chatId)| < 500
        && ((exists i :: 0 <= i < |held| && held[i].chatId == chatId) || |Named(held)| < 200);
      Deferred(held, chatId, frame) == if kept then held + [Held(Stored(chatId), frame)] else held
  {
    CountIsPlaces(held, chatId);
    CountPositive(held, chatId);
    assert Named(held) == Chats(held);
    if Held(chatId, frame) in held {
      var i :| 0 <= i < |held| && held[i] == Held(chatId, frame);
    }
  }

  // ---- draining ------------------------------------------------------------------------------------------------

  datatype Deferral = Deferral(chatId: string, frame: seq<byte>)

  /** What dispatching a frame may do to the mailbox: change the known keys, defer frames. */
  datatype Effect = Effect(keys: set<string>, deferrals: seq<Deferral>)

  /** What is held afterwards, what was handed over in order, what was accepted on the way. */
  datatype Outcome = Outcome(held: seq<Held>, dispatched: seq<Held>, accepted: seq<Held>)

  function NewlyAccepted(held: seq<Held>, ds: seq<Deferral>): seq<Held>
    decreases |ds|
  {
    if ds == [] then []
    else if Accepts(held, ds[0].chatId, ds[0].frame) then
      var entry := Entry(ds[0].chatId, ds[0].frame);
      [entry] + NewlyAccepted(held + [entry], ds[1..])
    else NewlyAccepted(held, ds[1..])
  }

  function Detached(held: seq<Held>, i: nat): seq<Held>
    requires i < |held|
  {
    held[..i] + held[i + 1..]
  }

  /** The frame at `i` leaves before it is dispatched; the scan goes on at the same place. */
  function Drain(held: seq<Held>, i: nat, keys: set<string>, env: seq<Effect>): (r: Outcome)
    decreases |env|, |held| - i
  {
    if i >= |held| then Outcome(held, [], [])
    else if held[i].chatId !in keys then Drain(held, i + 1, keys, env)
    else if env == [] then
      var r := Drain(Detached(held, i), i, keys, env);
      r.(dispatched := [held[i]] + r.dispatched)
    else
      var added := NewlyAccepted(Detached(held, i), env[0].deferrals);
      var r := Drain(Detached(held, i) + added, i, env[0].keys, env[1..]);
      Outcome(r.held, [held[i]] + r.dispatched, added + r.accepted)
  }

  predicate ShortIds(ds: seq<Deferral>) {
    forall k :: 0 <= k < |ds| ==> |ds[k].chatId| < CHAT_ID_SIZE
  }

  lemma {:induction false} AcceptingKeepsBounds(held: seq<Held>, ds: seq<Deferral>)
    requires Bounded(held) && ShortIds(ds)
    ensures Bounded(held + NewlyAccepted(held, ds))
    decreases |ds|
  {
    if ds == [] {
      assert held + [] == held;
    } else {
      DeferKeepsBounds(held, ds[0].chatId, ds[0].frame);
      var after := Deferred(held, ds[0].chatId, ds[0].frame);
      AcceptingKeepsBounds(after, ds[1..]);
      assert held + NewlyAccepted(held, ds) == after + NewlyAccepted(after, ds[1..]);
    }
  }

  lemma {:induction false} CountDetached(held: seq<Held>, i: nat, chatId: string)
    requires i < |held|
    ensures CountFor(Detached(held, i), chatId) <= CountFor(held, chatId)
    decreases |held|
  {
    var front := held[..|held| - 1];
    if i == |held| - 1 {
      assert Detached(held, i) == front;
    } else {
      CountDetached(front, i, chatId);
      var cut := Detached(held, i);
      assert cut[..|cut| - 1] == Detached(front, i) && cut[|cut| - 1] == held[|held| - 1];
    }
  }

  lemma DetachKeepsBounds(held: seq<Held>, i: nat)
    requires Bounded(held) && i < |held|
    ensures Bounded(Detached(held, i))
  {
    var cut := Detached(held, i);
    forall x ensures CountFor(cut, x) <= MAX_PER_CHAT {
      CountDetached(held, i, x);
    }
    forall x | x in Chats(cut) ensures x in Chats(held) {
      var k :| 0 <= k < |cut| && cut[k].chatId == x;
      assert held[if k < i then k else k + 1].chatId == x;
    }
    Subset(Chats(cut), Chats(held));
    forall j, k | 0 <= j < k < |cut| ensures cut[j] != cut[k] {
      assert cut[j] == held[if j < i then j else j + 1] && cut[k] == held[if k < i then k else k + 1];
    }
  }

  lemma {:induction false} Subset<T>(a: set<T>, b: set<T>)
    requires a <= b
    ensures |a| <= |b|
    decreases a
  {
    if a != {} {
      var x :| x in a;
      Subset(a - {x}, b - {x});
    }
  }

  /** A drain keeps the bounds, whatever the dispatched frames cause to be deferred. */
  lemma {:induction false} DrainKeepsBounds(held: seq<Held>, i: nat, keys: set<string>, env: seq<Effect>)
    requires Bounded(held) && forall k :: 0 <= k < |env| ==> ShortIds(env[k].deferrals)
    ensures Bounded(Drain(held, i, keys, env).held)
    decreases |env|, |held| - i
  {
    if i >= |held| {
    } else if held[i].chatId !in keys {
      DrainKeepsBounds(held, i + 1, keys, env);
    } else {
      DetachKeepsBounds(held, i);
      if env == [] {
        DrainKeepsBounds(Detached(held, i), i, keys, env);
      } else {
        AcceptingKeepsBounds(Detached(held, i), env[0].deferrals);
        DrainKeepsBounds(Detached(held, i) + NewlyAccepted(Detached(held, i), env[0].deferrals), i, env[0].keys, env[1..]);
      }
    }
  }

  /** What the first effect adds to the frames left, and how the drain goes on from there. */
  function Added(held: seq<Held>, env: seq<Effect>): seq<Held> {
    if env == [] then [] else NewlyAccepted(held, env[0].deferrals)
  }

  function KeysAfter(keys: set<string>, env: seq<Effect>): set<string> {
    if env == [] then keys else env[0].keys
  }

  function Later(env: seq<Effect>): seq<Effect> {
    if env == [] then [] else env[1..]
  }

  /** One dispatch of a drain. */
  lemma DrainStep(held: seq<Held>, i: nat, keys: set<string>, env: seq<Effect>)
    requires i < |held| && held[i].chatId in keys
    ensures
      var rest := Detached(held, i);
      var added := Added(rest, env);
      var r := Drain(rest + added, i, KeysAfter(keys, env), Later(env));
      Drain(held, i, keys, env) == Outcome(r.held, [held[i]] + r.dispatched, added + r.accepted)
  {
    var rest := Detached(held, i);
    if env == [] {
      assert rest + [] == rest;
      var r := Drain(rest, i, keys, env);
      assert [] + r.accepted == r.accepted;
    }
  }

  lemma Balanced(before: seq<Held>, x: seq<Held>, after: seq<Held>, added: seq<Held>, left: seq<Held>,
                 dispatched: seq<Held>, accepted: seq<Held>)
    requires multiset(left) + multiset(dispatched) == multiset(before + after + added) + multiset(accepted)
    ensures multiset(left) + multiset(x + dispatched) == multiset(before + x + after) + multiset(added + accepted)
  {
    Merge(multiset(before), multiset(x), multiset(after), multiset(added), multiset(left), multiset(dispatched),
          multiset(accepted));
  }

  lemma Merge(before: multiset<Held>, x: multiset<Held>, after: multiset<Held>, added: multiset<Held>, left: multiset<Held>,
              dispatched: multiset<Held>, accepted: multiset<Held>)
    requires left + dispatched == before + after + added + accepted
    ensures left + (x + dispatched) == (before + x + after) + (added + accepted)
  {
    assert left + (x + dispatched) == (left + dispatched) + x;
    assert (before + x + after) + (added + accepted) == (before + after + added + accepted) + x;
  }

  lemma Whole(held: seq<Held>, i: nat)
    requires i < |held|
    ensures held == held[..i] + [held[i]] + held[i + 1..]
  {
  }

  /** Nothing is lost and nothing is handed over twice. */
  lemma {:induction false} DrainConserves(held: seq<Held>, i: nat, keys: set<string>, env: seq<Effect>)
    ensures
      var r := Drain(held, i, keys, env);
      multiset(r.held) + multiset(r.dispatched) == multiset(held) + multiset(r.accepted)
    decreases |env|, |held| - i
  {
    if i >= |held| {
    } else if held[i].chatId !in keys {
      DrainConserves(held, i + 1, keys, env);
    } else {
      var rest := Detached(held, i);
      var added := Added(rest, env);
      DrainStep(held, i, keys, env);
      assert env == [] ==> rest + added == rest;
      DrainConserves(rest + added, i, KeysAfter(keys, env), Later(env));
      var r := Drain(rest + added, i, KeysAfter(keys, env), Later(env));
      Balanced(held[..i], [held[i]], held[i + 1..], added, r.held, r.dispatched, r.accepted);
      Whole(held, i);
    }
  }

  function Known(held: seq<Held>, keys: set<string>): seq<Held> {
    if held == [] then []
    else (if held[0].chatId in keys then [held[0]] else []) + Known(held[1..], keys)
  }

  function Unknown(held: seq<Held>, keys: set<string>): seq<Held> {
    if held == [] then []
    else (if held[0].chatId in keys then [] else [held[0]]) + Unknown(held[1..], keys)
  }

  lemma {:induction false} KnownAppend(a: seq<Held>, b: seq<Held>, keys: set<string>)
    ensures Known(a + b, keys) == Known(a, keys) + Known(b, keys)
  {
    if a == [] {
      assert a + b == b;
    } else {
      assert (a + b)[1..] == a[1..] + b;
      KnownAppend(a[1..], b, keys);
      Associate(if a[0].chatId in keys then [a[0]] else [], Known(a[1..], keys), Known(b, keys));
    }
  }

  lemma {:induction false} UnknownAppend(a: seq<Held>, b: seq<Held>, keys: set<string>)
    ensures Unknown(a + b, keys) == Unknown(a, keys) + Unknown(b, keys)
  {
    if a == [] {
      assert a + b == b;
    } else {
      assert (a + b)[1..] == a[1..] + b;
      UnknownAppend(a[1..], b, keys);
      Associate(if a[0].chatId in keys then [] else [a[0]], Unknown(a[1..], keys), Unknown(b, keys));
    }
  }

  /**
   * Under keys that do not change, whatever the dispatched frames defer: exactly the frames with a
   * key leave, first the held ones and then those accepted meanwhile, in order; the rest stays in order.
   */
  lemma {:induction false} DrainUnderFixedKeys(held: seq<Held>, i: nat, keys: set<string>, env: seq<Effect>)
    requires i <= |held| && forall k :: 0 <= k < |env| ==> env[k].keys == keys
    ensures FixedDrain(held, i, keys, Drain(held, i, keys, env))
    decreases |env|, |held| - i
  {
    if i < |held| {
      if held[i].chatId !in keys {
        DrainUnderFixedKeys(held, i + 1, keys, env);
        FixedSkip(held, i, keys, Drain(held, i, keys, env));
      } else {
        var rest := Detached(held, i);
        var next := rest + Added(rest, env);
        DrainStep(held, i, keys, env);
        assert env == [] ==> next == rest;
        DrainUnderFixedKeys(next, i, keys, Later(env));
        FixedDispatch(held, i, keys, Added(rest, env), Drain(next, i, keys, Later(env)));
      }
    } else {
      assert held[..i] + [] == held && held[i..] == [];
    }
  }

  /** What a drain from place `i` under fixed keys makes of a mailbox. */
  predicate FixedDrain(held: seq<Held>, i: nat, keys: set<string>, r: Outcome)
    requires i <= |held|
  {
    && r.dispatched == Known(held[i..], keys) + Known(r.accepted, keys)
    && r.held == held[..i] + Unknown(held[i..], keys) + Unknown(r.accepted, keys)
  }

  lemma FixedSkip(held: seq<Held>, i: nat, keys: set<string>, r: Outcome)
    requires i < |held| && held[i].chatId !in keys && FixedDrain(held, i + 1, keys, r)
    ensures FixedDrain(held, i, keys, r)
  {
    assert held[i..][1..] == held[i + 1..];
    assert held[..i + 1] == held[..i] + [held[i]];
    Associate(held[..i], [held[i]], Unknown(held[i + 1..], keys));
  }

  lemma FixedDispatch(held: seq<Held>, i: nat, keys: set<string>, added: seq<Held>, r: Outcome)
    requires i < |held| && held[i].chatId in keys && FixedDrain(Detached(held, i) + added, i, keys, r)
    ensures FixedDrain(held, i, keys, Outcome(r.held, [held[i]] + r.dispatched, added + r.accepted))
  {
    var next, after := Detached(held, i) + added, held[i + 1..];
    assert next[..i] == held[..i] && next[i..] == after + added && held[i..][1..] == after;
    assert [held[i]] + r.dispatched == Known(held[i..], keys) + Known(added + r.accepted, keys) by {
      KnownAppend(after, added, keys);
      KnownAppend(added, r.accepted, keys);
      FixedStep(held[i], Known(after, keys), Known(added, keys), Known(r.accepted, keys));
    }
    assert r.held == held[..i] + Unknown(held[i..], keys) + Unknown(added + r.accepted, keys) by {
      UnknownAppend(after, added, keys);
      UnknownAppend(added, r.accepted, keys);
      FixedRest(held[..i], Unknown(after, keys), Unknown(added, keys), Unknown(r.accepted, keys));
    }
  }

  lemma FixedStep(x: Held, after: seq<Held>, added: seq<Held>, accepted: seq<Held>)
    ensures [x] + ((after + added) + accepted) == ([x] + after) + (added + accepted)
  {
  }

  lemma FixedRest(before: seq<Held>, after: seq<Held>, added: seq<Held>, accepted: seq<Held>)
    ensures before + (after + added) + accepted == before + after + (added + accepted)
  {
  }

  // ---- the order within a chat ----------------------------------------------------------------------------------

  function OfChat(held: seq<Held>, chatId: string): seq<Held> {
    if held == [] then []
    else (if held[0].chatId == chatId then [held[0]] else []) + OfChat(held[1..], chatId)
  }

  lemma {:induction false} OfChatAppend(a: seq<Held>, b: seq<Held>, chatId: string)
    ensures OfChat(a + b, chatId) == OfChat(a, chatId) + OfChat(b, chatId)
  {
    if a == [] {
      assert a + b == b;
    } else {
      var first := if a[0].chatId == chatId then [a[0]] else [];
      var others, more := OfChat(a[1..], chatId), OfChat(b, chatId);
      assert (a + b)[1..] == a[1..] + b;
      OfChatAppend(a[1..], b, chatId);
      Associate(first, others, more);
    }
  }

  /** The chat's frames leave in the order they came: those dispatched, then those left. */
  ghost predicate InOrder(held: seq<Held>, i: nat, keys: set<string>, env: seq<Effect>, chatId: string) {
    var r := Drain(held, i, keys, env);
    OfChat(r.dispatched, chatId) + OfChat(r.held, chatId) == OfChat(held, chatId) + OfChat(r.accepted, chatId)
  }

  /**
   * Some effect a drain can reach makes the chat known when it was not. An effect is reached by
   * dispatching a frame, which takes a known chat.
   */
  predicate LearnsMidway(chatId: string, keys: set<string>, env: seq<Effect>)
    decreases |env|
  {
    env != [] && keys != {}
    && ((chatId !in keys && chatId in env[0].keys) || LearnsMidway(chatId, env[0].keys, env[1..]))
  }

  /** While the chat is not learned in the middle, its frames leave in the order they came. */
  lemma {:induction false} ChatOrder(held: seq<Held>, i: nat, keys: set<string>, env: seq<Effect>, chatId: string)
    requires !LearnsMidway(chatId, keys, env) && i <= |held| && (chatId in keys ==> OfChat(held[..i], chatId) == [])
    ensures InOrder(held, i, keys, env, chatId)
    ensures chatId !in keys ==> OfChat(Drain(held, i, keys, env).dispatched, chatId) == []
    decreases |env|, |held| - i
  {
    if i < |held| {
      if held[i].chatId !in keys {
        OfChatAppend(held[..i], [held[i]], chatId);
        assert held[..i + 1] == held[..i] + [held[i]];
        ChatOrder(held, i + 1, keys, env, chatId);
      } else {
        ChatStep(held, i, keys, env, chatId);
      }
    }
  }

  lemma {:induction false} ChatStep(held: seq<Held>, i: nat, keys: set<string>, env: seq<Effect>, chatId: string)
    requires !LearnsMidway(chatId, keys, env) && i < |held| && held[i].chatId in keys
    requires chatId in keys ==> OfChat(held[..i], chatId) == []
    ensures InOrder(held, i, keys, env, chatId)
    ensures chatId !in keys ==> OfChat(Drain(held, i, keys, env).dispatched, chatId) == []
    decreases |env|, |held| - i, 0
  {
    var rest := Detached(held, i);
    var added := Added(rest, env);
    var next, keys1, env1 := rest + added, KeysAfter(keys, env), Later(env);
    assert env == [] ==> next == rest;
    assert next[..i] == held[..i];
    ChatOrder(next, i, keys1, env1, chatId);
    var r := Drain(next, i, keys1, env1);
    DrainStep(held, i, keys, env);
    var before, x, after := held[..i], [held[i]], held[i + 1..];
    assert held == before + x + after;
    OfChatAppend(before + x, after, chatId);
    OfChatAppend(before, x, chatId);
    OfChatAppend(rest, added, chatId);
    OfChatAppend(before, after, chatId);
    OfChatAppend(x, r.dispatched, chatId);
    OfChatAppend(added, r.accepted, chatId);
    Ordered(OfChat(before, chatId), OfChat(x, chatId), OfChat(after, chatId), OfChat(added, chatId),
            OfChat(r.accepted, chatId), OfChat(r.dispatched, chatId), OfChat(r.held, chatId));
  }

  lemma Ordered(before: seq<Held>, x: seq<Held>, after: seq<Held>, added: seq<Held>, accepted: seq<Held>,
                dispatched: seq<Held>, left: seq<Held>)
    requires before == [] || x == []
    requires dispatched + left == before + after + added + accepted
    ensures (x + dispatched) + left == (before + x + after) + (added + accepted)
  {
    if before == [] {
      assert (x + dispatched) + left == x + (dispatched + left);
    } else {
      assert x + dispatched == dispatched && before + x == before;
    }
  }

  /** A key learned in the middle of a drain lets a later frame of its chat overtake an earlier one. */
  lemma Overtaking(first: Held, teacher: Held, second: Held)
    requires first.chatId == second.chatId != teacher.chatId
    ensures Drain([first, teacher, second], 0, {teacher.chatId}, [Effect({teacher.chatId, first.chatId}, [])])
         == Outcome([first], [teacher, second], [])
  {
    var held, keys := [first, teacher, second], {teacher.chatId, first.chatId};
    var left := [first, second];
    assert Detached(held, 1) == left && left + [] == left && Detached(left, 1) == [first];
    assert Drain([first], 1, keys, []) == Outcome([first], [], []);
    assert Drain(left, 1, keys, []) == Outcome([first], [second], []);
    var env := [Effect(keys, [])];
    assert env[1..] == [] && NewlyAccepted(left, []) == [];
    assert Drain(held, 1, {teacher.chatId}, env) == Outcome([first], [teacher, second], []);
  }

  /** Dispatching the first frame changes nothing in the question of order. */
  lemma FirstDispatched(x: Held, others: seq<Held>, keys: set<string>, env: seq<Effect>, chatId: string)
    requires x.chatId in keys && env != []
    ensures InOrder([x] + others, 0, keys, env, chatId)
       <==> InOrder(others + NewlyAccepted(others, env[0].deferrals), 0, env[0].keys, env[1..], chatId)
  {
    var held, added := [x] + others, NewlyAccepted(others, env[0].deferrals);
    assert Detached(held, 0) == others;
    var r := Drain(others + added, 0, env[0].keys, env[1..]);
    assert Drain(held, 0, keys, env) == Outcome(r.held, [x] + r.dispatched, added + r.accepted);
    OfChatAppend([x], r.dispatched, chatId);
    OfChatAppend([x], others, chatId);
    OfChatAppend(others, added, chatId);
    OfChatAppend(added, r.accepted, chatId);
    Cancel(OfChat([x], chatId), OfChat(r.dispatched, chatId), OfChat(r.held, chatId),
           OfChat(others, chatId), OfChat(added, chatId), OfChat(r.accepted, chatId));
  }

  lemma Cancel<T>(x: seq<T>, dispatched: seq<T>, left: seq<T>, others: seq<T>, added: seq<T>, accepted: seq<T>)
    ensures (x + dispatched) + left == (x + others) + (added + accepted)
       <==> dispatched + left == (others + added) + accepted
  {
    var a, b := dispatched + left, (others + added) + accepted;
    assert (x + dispatched) + left == x + a && (x + others) + (added + accepted) == x + b;
    if x + a == x + b {
      assert a == (x + a)[|x|..] && b == (x + b)[|x|..];
    }
  }

  /** A frame of a chat not yet known, one that teaches it, another of that chat: the last one leaves first. */
  lemma Overtaken(chatId: string, teacher: string, keys: set<string>, env: seq<Effect>, tail: seq<Held>)
    requires env != [] && teacher in keys && chatId !in keys && chatId in env[0].keys
    ensures !InOrder([Held(chatId, [1]), Held(teacher, [0]), Held(chatId, [2])] + tail, 0, keys, env, chatId)
  {
    var first, second := Held(chatId, [1]), Held(chatId, [2]);
    var held := [first, Held(teacher, [0]), second] + tail;
    var rest := Detached(held, 1);
    assert rest == [first, second] + tail;
    var added := NewlyAccepted(rest, env[0].deferrals);
    var next := rest + added;
    var r := Drain(next, 1, env[0].keys, env[1..]);
    assert Drain(held, 0, keys, env) == Drain(held, 1, keys, env);
    assert Drain(held, 1, keys, env) == Outcome(r.held, [held[1]] + r.dispatched, added + r.accepted);
    DrainStep(next, 1, env[0].keys, env[1..]);
    assert next[1] == second && r.dispatched[0] == second;
    var dispatched := [held[1]] + r.dispatched;
    assert dispatched[1..] == r.dispatched && OfChat(dispatched, chatId) == OfChat(r.dispatched, chatId);
    assert (OfChat(dispatched, chatId) + OfChat(r.held, chatId))[0] == second;
    assert (OfChat(held, chatId) + OfChat(added + r.accepted, chatId))[0] == first;
  }

  /** Frames of known chats up to the effect that teaches this one, then the three of the overtaking. */
  lemma {:induction false} OvertakingMailbox(chatId: string, keys: set<string>, env: seq<Effect>) returns (held: seq<Held>)
    requires LearnsMidway(chatId, keys, env)
    ensures forall tail :: !InOrder(held + tail, 0, keys, env, chatId)
    decreases |env|
  {
    var known :| known in keys;
    if chatId !in keys && chatId in env[0].keys {
      held := [Held(chatId, [1]), Held(known, [0]), Held(chatId, [2])];
      forall tail ensures !InOrder(held + tail, 0, keys, env, chatId) {
        Overtaken(chatId, known, keys, env, tail);
      }
    } else {
      var others := OvertakingMailbox(chatId, env[0].keys, env[1..]);
      held := [Held(known, [0])] + others;
      forall tail ensures !InOrder(held + tail, 0, keys, env, chatId) {
        var behind := others + tail;
        var added := NewlyAccepted(behind, env[0].deferrals);
        FirstDispatched(Held(known, [0]), behind, keys, env, chatId);
        assert held + tail == [Held(known, [0])] + behind;
        assert behind + added == others + (tail + added);
      }
    }
  }

  /** Every mailbox keeps a chat's order through a drain exactly when the chat is not learned in the middle of it. */
  lemma ChatOrderExact(chatId: string, keys: set<string>, env: seq<Effect>)
    ensures (forall held :: InOrder(held, 0, keys, env, chatId)) <==> !LearnsMidway(chatId, keys, env)
  {
    if LearnsMidway(chatId, keys, env) {
      var held := OvertakingMailbox(chatId, keys, env);
      assert !InOrder(held + [], 0, keys, env, chatId);
    } else {
      forall held ensures InOrder(held, 0, keys, env, chatId) {
        assert held[..0] == [];
        ChatOrder(held, 0, keys, env, chatId);
      }
    }
  }

  // ---- the code -------------------------------------------------------------------------------------------------

  class Box {
    var pending: seq<Held>

    constructor ()
      ensures pending == []
    {
      pending := [];
    }

    method PendingForChat(chatId: string) returns (count: nat)
      ensures count == CountFor(pending, chatId)
    {
      count := 0;
      for i := 0 to |pending|
        invariant count == CountFor(pending[..i], chatId)
      {
        assert pending[..i + 1][..i] == pending[..i];
        if pending[i].chatId == chatId {
          count := count + 1;
        }
      }
      assert pending[..|pending|] == pending;
    }

    /** Counts each chat at its first entry. */
    method PendingChats() returns (chats: nat)
      ensures chats == |Chats(pending)|
    {
      chats := 0;
      for i := 0 to |pending|
        invariant chats == |Chats(pending[..i])|
      {
        var seen := SeenBefore(i);
        assert pending[..i + 1] == pending[..i] + [pending[i]];
        ChatsAppend(pending[..i], pending[i]);
        if !seen {
          chats := chats + 1;
        } else {
          assert Chats(pending[..i]) + {pending[i].chatId} == Chats(pending[..i]);
        }
      }
      assert pending[..|pending|] == pending;
    }

    method SeenBefore(i: nat) returns (seen: bool)
      requires i < |pending|
      ensures seen <==> pending[i].chatId in Chats(pending[..i])
    {
      seen := false;
      var j := 0;
      while j < i && !seen
        invariant j <= i && (seen <==> exists k :: 0 <= k < j && pending[k].chatId == pending[i].chatId)
      {
        seen := pending[j].chatId == pending[i].chatId;
        j := j + 1;
      }
      assert forall k :: 0 <= k < i ==> pending[..i][k].chatId == pending[k].chatId;
    }

    method PendingContains(chatId: string, frame: seq<byte>) returns (found: bool)
      ensures found <==> Held(chatId, frame) in pending
    {
      for i := 0 to |pending|
        invariant forall k :: 0 <= k < i ==> pending[k] != Held(chatId, frame)
      {
        if |pending[i].frame| == |frame| && pending[i].chatId == chatId && pending[i].frame == frame {
          return true;
        }
      }
      return false;
    }

    /** The defer hook. */
    method Defer(chatId: string, frame: seq<byte>)
      modifies this
      ensures pending == Deferred(old(pending), chatId, frame)
      ensures
        var held := old(pending);
        var kept :=
          && frame != [] && (forall i :: 0 <= i < |held| ==> !(held[i].chatId == chatId && held[i].frame == frame))
          && |held| < 4000 && |Places(held, chatId)| < 500
          && ((exists i :: 0 <= i < |held| && held[i].chatId == chatId) || |Named(held)| < 200);
        pending == if kept then held + [Held(Stored(chatId), frame)] else held
    {
      DeferExact(pending, chatId, frame);
      if frame == [] || |pending| >= MAX_TOTAL {
        return;
      }
      var forChat := PendingForChat(chatId);
      if forChat >= MAX_PER_CHAT {
        return;
      }
      var chats := PendingChats();
      if chats >= MAX_CHATS && forChat == 0 {
        return;
      }
      var known := PendingContains(chatId, frame);
      if known {
        return;
      }
      pending := pending + [Held(CopyBounded(CHAT_ID_SIZE, chatId), frame)];
    }

    /** Everything one dispatched frame causes to be deferred. */
    method DeferAll(ds: seq<Deferral>)
      modifies this
      ensures pending == old(pending) + NewlyAccepted(old(pending), ds)
    {
      ghost var before := pending;
      for k := 0 to |ds|
        invariant pending + NewlyAccepted(pending, ds[k..]) == before + NewlyAccepted(before, ds)
      {
        ghost var was := pending;
        assert ds[k..][1..] == ds[k + 1..];
        Defer(ds[k].chatId, ds[k].frame);
        assert was + NewlyAccepted(was, ds[k..]) == pending + NewlyAccepted(pending, ds[k + 1..]);
      }
      assert pending + [] == pending;
    }

    /**
     * Re-dispatches the frames whose key is known, each at most once per pass of its place; `env`
     * says what the dispatched frames do, in turn. Answers what was dispatched.
     */
    method DrainMailbox(keys: set<string>, env: seq<Effect>) returns (dispatched: seq<Held>)
      modifies this
      ensures pending == Drain(old(pending), 0, keys, env).held
      ensures dispatched == Drain(old(pending), 0, keys, env).dispatched
    {
      dispatched := [];
      var known, later, i := keys, env, 0;
      ghost var all := Drain(pending, 0, keys, env);
      while i < |pending|
        invariant 0 <= i <= |pending|
        invariant Drain(pending, i, known, later).held == all.held
        invariant dispatched + Drain(pending, i, known, later).dispatched == all.dispatched
        decreases |later|, |pending| - i
      {
        if pending[i].chatId !in known {
          i := i + 1;
          continue;
        }
        DrainStep(pending, i, known, later);
        ghost var before := dispatched;
        var held := pending[i];
        pending := pending[..i] + pending[i + 1..];
        dispatched := dispatched + [held];
        if later == [] {
          assert pending + [] == pending;
        } else {
          DeferAll(later[0].deferrals);
          known, later := later[0].keys, later[1..];
        }
        Associate(before, [held], Drain(pending, i, known, later).dispatched);
      }
      assert dispatched + [] == dispatched;
    }
  }

  // ---- whole runs -------------------------------------------------------------------------------------------------

  datatype Step = Defers(deferral: Deferral) | Drains(keys: set<string>, env: seq<Effect>)

  /** The mailbox after a run, and everything it accepted and handed over. */
  function Run(steps: seq<Step>): (r: Outcome) {
    if steps == [] then Outcome([], [], [])
    else
      var before := Run(steps[..|steps| - 1]);
      match steps[|steps| - 1]
      case Defers(d) =>
        var entries := NewlyAccepted(before.held, [d]);
        Outcome(before.held + entries, before.dispatched, before.accepted + entries)
      case Drains(keys, env) =>
        var r := Drain(before.held, 0, keys, env);
        Outcome(r.held, before.dispatched + r.dispatched, before.accepted + r.accepted)
  }

  predicate ShortStep(step: Step) {
    match step
    case Defers(d) => |d.chatId| < CHAT_ID_SIZE
    case Drains(_, env) => forall k :: 0 <= k < |env| ==> ShortIds(env[k].deferrals)
  }

  /** Over every run of deferrals and drains, what was accepted is held or was handed over, exactly once. */
  lemma {:induction false} RunConserves(steps: seq<Step>)
    ensures multiset(Run(steps).held) + multiset(Run(steps).dispatched) == multiset(Run(steps).accepted)
  {
    if steps != [] {
      var before := Run(steps[..|steps| - 1]);
      RunConserves(steps[..|steps| - 1]);
      match steps[|steps| - 1] {
        case Defers(d) =>
          Accumulate(before, NewlyAccepted(before.held, [d]), [], before.held + NewlyAccepted(before.held, [d]));
          assert before.dispatched + [] == before.dispatched;
        case Drains(keys, env) =>
          DrainConserves(before.held, 0, keys, env);
          var r := Drain(before.held, 0, keys, env);
          Accumulate(before, r.accepted, r.dispatched, r.held);
      }
    }
  }

  lemma Accumulate(before: Outcome, accepted: seq<Held>, dispatched: seq<Held>, held: seq<Held>)
    requires multiset(before.held) + multiset(before.dispatched) == multiset(before.accepted)
    requires multiset(held) + multiset(dispatched) == multiset(before.held) + multiset(accepted)
    ensures multiset(held) + multiset(before.dispatched + dispatched) == multiset(before.accepted + accepted)
  {
    Sums(multiset(before.held), multiset(before.dispatched), multiset(accepted), multiset(dispatched), multiset(held));
  }

  lemma Sums(held0: multiset<Held>, dispatched0: multiset<Held>, accepted: multiset<Held>, dispatched: multiset<Held>,
             held: multiset<Held>)
    requires held + dispatched == held0 + accepted
    ensures held + (dispatched0 + dispatched) == (held0 + dispatched0) + accepted
  {
    assert held + (dispatched0 + dispatched) == (held + dispatched) + dispatched0;
    assert (held0 + dispatched0) + accepted == (held0 + accepted) + dispatched0;
  }

  /** Over every run in which ids fit their buffers, the caps hold and no entry is held twice. */
  lemma {:induction false} RunBounded(steps: seq<Step>)
    requires forall k :: 0 <= k < |steps| ==> ShortStep(steps[k])
    ensures Bounded(Run(steps).held)
  {
    if steps == [] {
      assert Chats([]) == {};
    } else {
      var before, last := Run(steps[..|steps| - 1]), steps[|steps| - 1];
      RunBounded(steps[..|steps| - 1]);
      assert ShortStep(last);
      match last {
        case Defers(d) => AcceptingKeepsBounds(before.held, [d]);
        case Drains(keys, env) => DrainKeepsBounds(before.held, 0, keys, env);
      }
    }
  }
}
