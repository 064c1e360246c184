/** The trivia bot's score table: awarding points, and selecting a chat's top ten. */
module Scoreboard {
  import opened Common

  const TOP := 10

  datatype Score = Score(used: bool, chat: string, identity: string, points: int)

  // ---- specification ------------------------------------------------------------------------------

  predicate Scored(scores: seq<Score>, chat: string, i: nat) {
    i < |scores| && scores[i].used && scores[i].chat == chat
  }

  function Entries(scores: seq<Score>, chat: string): set<nat> {
    set i | 0 <= i < |scores| && Scored(scores, chat, i)
  }

  ghost predicate Distinct(top: seq<nat>) {
    forall x :: multiset(top)[x] <= 1
  }

  /** Different entries of the chat, none of which is outscored by one left out. */
  ghost predicate Best(scores: seq<Score>, entries: set<nat>, top: seq<nat>) {
    && (forall p :: 0 <= p < |top| ==> top[p] < |scores| && top[p] in entries)
    && Distinct(top)
    && (forall i, p :: i in entries && i < |scores| && i !in top && 0 <= p < |top| ==>
          scores[i].points <= scores[top[p]].points)
  }

  ghost predicate Sorted(scores: seq<Score>, top: seq<nat>) {
    forall p, q :: 0 <= p < q < |top| && top[p] < |scores| && top[q] < |scores| ==>
      scores[top[p]].points >= scores[top[q]].points
  }

  /** What the scoreboard shows: at most ten best entries of the chat, highest first. */
  ghost predicate TopTen(scores: seq<Score>, chat: string, top: seq<nat>) {
    && Best(scores, Entries(scores, chat), top)
    && Sorted(scores, top)
    && |top| == (if |Entries(scores, chat)| < 10 then |Entries(scores, chat)| else 10)
  }

  // ---- the top ten shows the same points whichever way ties fall -----------------------------------

  function Elements(s: seq<nat>): set<nat> {
    set x | x in s
  }

  lemma PrefixDistinct(s: seq<nat>, n: nat)
    requires n <= |s| && Distinct(s)
    ensures Distinct(s[..n])
  {
    assert s == s[..n] + s[n..];
    forall x ensures multiset(s[..n])[x] <= 1 {
      assert multiset(s)[x] == multiset(s[..n])[x] + multiset(s[n..])[x] <= 1;
    }
  }

  lemma {:induction false} ElementCount(s: seq<nat>)
    ensures |Elements(s)| <= |s|
    ensures Distinct(s) ==> |Elements(s)| == |s|
  {
    if s != [] {
      var last := |s| - 1;
      assert s == s[..last] + [s[last]];
      if Distinct(s) {
        PrefixDistinct(s, last);
        assert multiset(s)[s[last]] == multiset(s[..last])[s[last]] + 1 <= 1;
      }
      ElementCount(s[..last]);
      assert Elements(s) == Elements(s[..last]) + {s[last]};
    }
  }

  lemma SubsetCount(a: set<nat>, b: set<nat>)
    requires a <= b
    ensures |a| <= |b|
  {
    assert b == a + (b - a);
  }

  /** One of k + 1 different entries is not among the first k of any other list. */
  lemma OneMissing(a: seq<nat>, b: seq<nat>, k: nat) returns (i: nat)
    requires k < |a| && k <= |b| && Distinct(a)
    ensures i <= k && a[i] !in b[..k]
  {
    var first, few := a[..k + 1], b[..k];
    PrefixDistinct(a, k + 1);
    ElementCount(first);
    ElementCount(few);
    if Elements(first) <= Elements(few) {
      SubsetCount(Elements(first), Elements(few));
      assert false;
    }
    var x :| x in Elements(first) && x !in Elements(few);
    i :| 0 <= i < |first| && first[i] == x;
  }

  lemma TopTenPoints(scores: seq<Score>, chat: string, a: seq<nat>, b: seq<nat>, k: nat)
    requires TopTen(scores, chat, a) && TopTen(scores, chat, b)
    requires k < |a|
    ensures |a| == |b| && scores[a[k]].points <= scores[b[k]].points
  {
    var i := OneMissing(a, b, k);
    assert scores[a[i]].points >= scores[a[k]].points;
    assert forall q :: 0 <= q < k ==> b[..k][q] == b[q];
    if a[i] in b {
      var j :| 0 <= j < |b| && b[j] == a[i];
      assert scores[b[j]].points <= scores[b[k]].points;
    }
  }

  /** Two top tens of one table list the same points in the same places. */
  lemma TopTenUnique(scores: seq<Score>, chat: string, a: seq<nat>, b: seq<nat>)
    requires TopTen(scores, chat, a) && TopTen(scores, chat, b)
    ensures |a| == |b| && forall k :: 0 <= k < |a| ==> scores[a[k]].points == scores[b[k]].points
  {
    forall k | 0 <= k < |a| ensures scores[a[k]].points == scores[b[k]].points {
      TopTenPoints(scores, chat, a, b, k);
      TopTenPoints(scores, chat, b, a, k);
    }
  }

  // ---- the code -------------------------------------------------------------------------------------

  /** Entries of the chat among the first `n` of the table. */
  function EntriesBelow(scores: seq<Score>, chat: string, n: nat): set<nat> {
    set i | 0 <= i < n && Scored(scores, chat, i)
  }

  ghost predicate Held(scores: seq<Score>, chat: string, n: nat, top: seq<nat>) {
    && Best(scores, EntriesBelow(scores, chat, n), top)
    && |top| <= TOP
    && (|top| < TOP ==> forall i :: i in EntriesBelow(scores, chat, n) ==> i in top)
  }

  lemma HeldAppend(scores: seq<Score>, chat: string, n: nat, top: seq<nat>)
    requires Held(scores, chat, n, top) && Scored(scores, chat, n) && |top| < TOP
    ensures Held(scores, chat, n + 1, top + [n])
  {
    forall p | 0 <= p < |top| ensures top[p] != n {
      assert top[p] in EntriesBelow(scores, chat, n);
    }
    forall i | i in EntriesBelow(scores, chat, n + 1) ensures i in top + [n] {
      assert i == n || i in EntriesBelow(scores, chat, n);
    }
  }

  lemma ReplacedDistinct(top: seq<nat>, worst: nat, n: nat)
    requires worst < |top| && Distinct(top) && n !in top
    ensures Distinct(top[worst := n])
  {
    var counts := multiset(top[worst := n]);
    forall x ensures counts[x] <= 1 {
      assert multiset(top)[x] <= 1 && multiset(top)[n] == 0;
    }
  }

  /** An entry that outscores the worst of ten takes its place. */
  lemma HeldReplace(scores: seq<Score>, chat: string, n: nat, top: seq<nat>, worst: nat)
    requires Held(scores, chat, n, top) && Scored(scores, chat, n) && |top| == TOP && worst < TOP
    requires forall p :: 0 <= p < TOP ==> scores[top[worst]].points <= scores[top[p]].points
    requires scores[n].points > scores[top[worst]].points
    ensures Held(scores, chat, n + 1, top[worst := n])
  {
    var before, after := EntriesBelow(scores, chat, n), EntriesBelow(scores, chat, n + 1);
    forall i | i in after ensures i == n || i in before {
    }
    forall p | 0 <= p < TOP ensures top[p] in before && top[p] in after && top[p] != n {
    }
    var next := top[worst := n];
    ReplacedDistinct(top, worst, n);
    assert forall q :: 0 <= q < |top| && q != worst ==> next[q] == top[q];
    forall i, p | i in after && i < |scores| && i !in next && 0 <= p < |next|
      ensures scores[i].points <= scores[next[p]].points {
      assert next[worst] == n;
      if i in top {
        var q :| 0 <= q < |top| && top[q] == i;
      } else {
        assert scores[i].points <= scores[top[worst]].points;
      }
    }
  }

  /** One that does not is left out. */
  lemma HeldKeep(scores: seq<Score>, chat: string, n: nat, top: seq<nat>, worst: nat)
    requires Held(scores, chat, n, top) && Scored(scores, chat, n) && |top| == TOP && worst < TOP
    requires forall p :: 0 <= p < TOP ==> scores[top[worst]].points <= scores[top[p]].points
    requires scores[n].points <= scores[top[worst]].points
    ensures Held(scores, chat, n + 1, top)
  {
    var before, after := EntriesBelow(scores, chat, n), EntriesBelow(scores, chat, n + 1);
    assert forall i :: i in after ==> i == n || i in before;
    assert forall p :: 0 <= p < TOP ==> top[p] in before && top[p] in after;
  }

  lemma HeldSkip(scores: seq<Score>, chat: string, n: nat, top: seq<nat>)
    requires Held(scores, chat, n, top) && n < |scores| && !Scored(scores, chat, n)
    ensures Held(scores, chat, n + 1, top)
  {
    assert EntriesBelow(scores, chat, n + 1) == EntriesBelow(scores, chat, n);
  }

  /** The table indices of the scoreboard's lines, in order. */
  method SelectTop(scores: array<Score>, chat: string) returns (top: array<nat>, count: nat)
    ensures fresh(top) && top.Length == TOP && count <= TOP
    ensures TopTen(scores[..], chat, top[..count])
  {
    top := new nat[TOP](_ => 0);
    count := CollectTop(scores, chat, top);
    ghost var chosen := top[..count];
    EnoughHeld(scores[..], chat, chosen);
    SortTop(scores, top, count);
    Rearranged(scores[..], chat, chosen, top[..count]);
    PlacedSorted(scores[..], top[..count]);
  }

  /** The selection loop, before sorting. */
  method CollectTop(scores: array<Score>, chat: string, top: array<nat>) returns (count: nat)
    requires top.Length == TOP
    modifies top
    ensures count <= TOP && Held(scores[..], chat, scores.Length, top[..count])
  {
    count := 0;
    ghost var table := scores[..];
    for i := 0 to scores.Length
      invariant table == scores[..] && count <= TOP && Held(table, chat, i, top[..count])
    {
      assert table[i] == scores[i];
      if !scores[i].used || scores[i].chat != chat {
        HeldSkip(table, chat, i, top[..count]);
        continue;
      }
      count := Offer(scores, chat, i, top, count);
    }
  }

  /** One more entry of the chat: kept while there is room, else in place of a worse one. */
  method Offer(scores: array<Score>, ghost chat: string, i: nat, top: array<nat>, held: nat) returns (count: nat)
    requires top.Length == TOP && held <= TOP && Scored(scores[..], chat, i)
    requires Held(scores[..], chat, i, top[..held])
    modifies top
    ensures count <= TOP && Held(scores[..], chat, i + 1, top[..count])
  {
    ghost var table, was := scores[..], top[..held];
    if held < TOP {
      HeldAppend(table, chat, i, was);
      top[held] := i;
      assert top[..held + 1] == was + [i];
      return held + 1;
    }
    var worst := WorstOf(scores, top);
    if scores[i].points > scores[top[worst]].points {
      HeldReplace(table, chat, i, was, worst);
      top[worst] := i;
      assert top[..held] == was[worst := i];
    } else {
      HeldKeep(table, chat, i, was, worst);
    }
    return held;
  }

  method WorstOf(scores: array<Score>, top: array<nat>) returns (worst: nat)
    requires top.Length == TOP && forall p :: 0 <= p < TOP ==> top[p] < scores.Length
    ensures worst < TOP && forall p :: 0 <= p < TOP ==> scores[top[worst]].points <= scores[top[p]].points
  {
    worst := 0;
    for j := 1 to TOP
      invariant worst < TOP
      invariant forall p :: 0 <= p < j ==> scores[top[worst]].points <= scores[top[p]].points
    {
      if scores[top[j]].points < scores[top[worst]].points {
        worst := j;
      }
    }
  }

  lemma EnoughHeld(scores: seq<Score>, chat: string, top: seq<nat>)
    requires Held(scores, chat, |scores|, top)
    ensures Best(scores, Entries(scores, chat), top)
    ensures |top| == (if |Entries(scores, chat)| < TOP then |Entries(scores, chat)| else TOP)
  {
    var entries := Entries(scores, chat);
    assert entries == EntriesBelow(scores, chat, |scores|);
    ElementCount(top);
    SubsetCount(Elements(top), entries);
    if |top| < TOP {
      SubsetCount(entries, Elements(top));
    }
  }

  function Swap<T>(s: seq<T>, i: nat, j: nat): seq<T>
    requires i < |s| && j < |s|
  {
    s[i := s[j]][j := s[i]]
  }

  /** The points of each place. */
  function Keys(scores: seq<Score>, top: seq<nat>): (keys: seq<int>)
    requires forall p :: 0 <= p < |top| ==> top[p] < |scores|
    ensures |keys| == |top|
  {
    seq(|top|, p requires 0 <= p < |top| => scores[top[p]].points)
  }

  /** The first `n` places are not outscored by any later place. */
  predicate Placed(keys: seq<int>, n: nat) {
    forall p, q :: 0 <= p < n && p < q < |keys| ==> keys[p] >= keys[q]
  }

  /** Place `i` is not outscored by the places between it and `j`. */
  predicate Leads(keys: seq<int>, i: nat, j: nat) {
    forall q :: i < q < j && j <= |keys| ==> keys[i] >= keys[q]
  }

  lemma SwapStep(keys: seq<int>, i: nat, j: nat)
    requires i < j < |keys| && Placed(keys, i) && Leads(keys, i, j)
    ensures
      var next := if keys[j] > keys[i] then Swap(keys, i, j) else keys;
      Placed(next, i) && Leads(next, i, j + 1)
  {
  }

  lemma LeadPlaced(keys: seq<int>, i: nat)
    requires i < |keys| && Placed(keys, i) && Leads(keys, i, |keys|)
    ensures Placed(keys, i + 1)
  {
  }

  /** The exchange sort. */
  method SortTop(scores: array<Score>, top: array<nat>, count: nat)
    requires count <= top.Length && forall p :: 0 <= p < count ==> top[p] < scores.Length
    modifies top
    ensures multiset(top[..count]) == multiset(old(top[..count]))
    ensures forall p :: 0 <= p < count ==> top[p] < scores.Length
    ensures Placed(Keys(scores[..], top[..count]), count)
  {
    ghost var t := top[..count];
    for i := 0 to count
      invariant t == top[..count] && multiset(t) == multiset(old(top[..count]))
      invariant Indices(t, scores.Length) && Placed(Keys(scores[..], t), i)
    {
      t := PlaceOne(scores, top, count, i, t);
    }
  }

  predicate Indices(t: seq<nat>, n: nat) {
    forall p :: 0 <= p < |t| ==> t[p] < n
  }

  /** The inner loop: brings the best of the remaining entries to place `i`. */
  method PlaceOne(scores: array<Score>, top: array<nat>, count: nat, i: nat, ghost before: seq<nat>)
    returns (ghost t: seq<nat>)
    requires i < count <= top.Length && before == top[..count] && Indices(before, scores.Length)
    requires Placed(Keys(scores[..], before), i)
    modifies top
    ensures t == top[..count] && multiset(t) == multiset(before) && Indices(t, scores.Length)
    ensures Placed(Keys(scores[..], t), i + 1)
  {
    t := before;
    ghost var keys := Keys(scores[..], t);
    for j := i + 1 to count
      invariant |t| == count && t == top[..count] && multiset(t) == multiset(before) && Indices(t, scores.Length)
      invariant keys == Keys(scores[..], t) && Placed(keys, i) && Leads(keys, i, j)
    {
      SwapStep(keys, i, j);
      t := CompareSwap(scores, top, count, i, j, t);
      keys := Keys(scores[..], t);
    }
    LeadPlaced(keys, i);
  }

  method CompareSwap(scores: array<Score>, top: array<nat>, count: nat, i: nat, j: nat, ghost before: seq<nat>)
    returns (ghost t: seq<nat>)
    requires i < j < count <= top.Length && before == top[..count] && Indices(before, scores.Length)
    modifies top
    ensures t == top[..count] && multiset(t) == multiset(before) && Indices(t, scores.Length)
    ensures
      var keys := Keys(scores[..], before);
      Keys(scores[..], t) == if keys[j] > keys[i] then Swap(keys, i, j) else keys
  {
    t := before;
    assert before[i] == top[i] && before[j] == top[j];
    if scores[top[j]].points > scores[top[i]].points {
      top[i], top[j] := top[j], top[i];
      t := Swap(before, i, j);
      assert top[..count] == t;
    }
  }

  lemma PlacedSorted(scores: seq<Score>, top: seq<nat>)
    requires forall p :: 0 <= p < |top| ==> top[p] < |scores|
    requires Placed(Keys(scores, top), |top|)
    ensures Sorted(scores, top)
  {
    var keys := Keys(scores, top);
    forall p, q | 0 <= p < q < |top| ensures scores[top[p]].points >= scores[top[q]].points {
      assert keys[p] >= keys[q];
    }
  }

  /** Rearranging a best selection gives a best selection. */
  lemma Rearranged(scores: seq<Score>, chat: string, before: seq<nat>, after: seq<nat>)
    requires Best(scores, Entries(scores, chat), before) && multiset(before) == multiset(after)
    ensures Best(scores, Entries(scores, chat), after) && |before| == |after|
  {
    assert |multiset(before)| == |multiset(after)|;
    forall p | 0 <= p < |after| ensures after[p] in before {
      assert after[p] in multiset(after);
    }
    forall x | x in before ensures x in after {
      assert x in multiset(before);
    }
    forall i, p | i in Entries(scores, chat) && i < |scores| && i !in after && 0 <= p < |after|
      ensures scores[i].points <= scores[after[p]].points {
      var q :| 0 <= q < |before| && before[q] == after[p];
    }
  }

  // ---- awarding points ----------------------------------------------------------------------------------

  predicate Is(s: Score, chat: string, identity: string) {
    s.used && s.chat == chat && s.identity == identity
  }

  /** Points of a player; 0 when the table has no entry for them. */
  function PointsOf(scores: seq<Score>, chat: string, identity: string): int {
    if scores == [] then 0
    else if Is(scores[0], chat, identity) then scores[0].points
    else PointsOf(scores[1..], chat, identity)
  }

  predicate Listed(scores: seq<Score>, chat: string, identity: string) {
    exists i :: 0 <= i < |scores| && Is(scores[i], chat, identity)
  }

  /** At most one entry a player. */
  ghost predicate OneEach(scores: seq<Score>) {
    forall i, j :: 0 <= i < j < |scores| && scores[i].used && scores[j].used ==>
      scores[i].chat != scores[j].chat || scores[i].identity != scores[j].identity
  }

  lemma {:induction false} PointsAt(scores: seq<Score>, chat: string, identity: string, i: nat)
    requires i < |scores| && Is(scores[i], chat, identity) && OneEach(scores)
    ensures PointsOf(scores, chat, identity) == scores[i].points
  {
    if i > 0 {
      assert !Is(scores[0], chat, identity);
      PointsAt(scores[1..], chat, identity, i - 1);
    }
  }

  lemma {:induction false} PointsNone(scores: seq<Score>, chat: string, identity: string)
    requires !Listed(scores, chat, identity)
    ensures PointsOf(scores, chat, identity) == 0
  {
    if scores != [] {
      assert !Listed(scores[1..], chat, identity) by {
        forall i | 0 <= i < |scores[1..]| ensures !Is(scores[1..][i], chat, identity) {
          assert scores[1..][i] == scores[i + 1];
        }
      }
      PointsNone(scores[1..], chat, identity);
    }
  }

  /** Writing one slot changes the points of the player it is for, and of nobody else. */
  lemma SlotPoints(before: seq<Score>, after: seq<Score>, i: nat, chat: string, identity: string)
    requires i < |before| == |after| && OneEach(before) && OneEach(after)
    requires after == before[i := after[i]] && (!before[i].used || !Is(before[i], chat, identity))
    requires !Is(after[i], chat, identity)
    ensures PointsOf(after, chat, identity) == PointsOf(before, chat, identity)
  {
    if Listed(before, chat, identity) {
      var j :| 0 <= j < |before| && Is(before[j], chat, identity);
      assert j != i;
      PointsAt(before, chat, identity, j);
      PointsAt(after, chat, identity, j);
    } else {
      forall j | 0 <= j < |after| ensures !Is(after[j], chat, identity) {
        assert j != i ==> after[j] == before[j];
      }
      PointsNone(before, chat, identity);
      PointsNone(after, chat, identity);
    }
  }

  /** A player's first point takes the first free slot; a full table refuses new players. */
  method AwardPoint(scores: array<Score>, chat: string, identity: string) returns (points: int)
    requires OneEach(scores[..])
    modifies scores
    ensures OneEach(scores[..])
    ensures
      var refused := !old(Listed(scores[..], chat, identity)) && forall i :: 0 <= i < scores.Length ==> old(scores[i].used);
      && points == (if refused then 0 else old(PointsOf(scores[..], chat, identity)) + 1)
      && PointsOf(scores[..], chat, identity) == points
    ensures forall c, n :: (c != chat || n != identity) ==>
      PointsOf(scores[..], c, n) == old(PointsOf(scores[..], c, n))
  {
    ghost var table := scores[..];
    for i := 0 to scores.Length
      invariant scores[..] == table
      invariant forall k :: 0 <= k < i ==> !Is(table[k], chat, identity)
    {
      assert scores[i] == table[i];
      if scores[i].used && scores[i].chat == chat && scores[i].identity == identity {
        PointsAt(table, chat, identity, i);
        scores[i] := scores[i].(points := scores[i].points + 1);
        Written(table, scores[..], i, chat, identity);
        PointsAt(scores[..], chat, identity, i);
        return scores[i].points;
      }
    }
    PointsNone(table, chat, identity);
    for i := 0 to scores.Length
      invariant scores[..] == table
      invariant forall k :: 0 <= k < i ==> table[k].used
    {
      assert scores[i] == table[i];
      if scores[i].used {
        continue;
      }
      scores[i] := Score(true, chat, identity, 1);
      Written(table, scores[..], i, chat, identity);
      PointsAt(scores[..], chat, identity, i);
      return 1;
    }
    return 0;
  }

  lemma Written(before: seq<Score>, after: seq<Score>, i: nat, chat: string, identity: string)
    requires i < |before| && |after| == |before| && OneEach(before)
    requires after == before[i := after[i]] && Is(after[i], chat, identity)
    requires Is(before[i], chat, identity) || (!before[i].used && !Listed(before, chat, identity))
    ensures OneEach(after)
    ensures forall c, n :: (c != chat || n != identity) ==> PointsOf(after, c, n) == PointsOf(before, c, n)
  {
    forall j, k | 0 <= j < k < |after| && after[j].used && after[k].used
      ensures after[j].chat != after[k].chat || after[j].identity != after[k].identity {
      assert j != i ==> after[j] == before[j];
      assert k != i ==> after[k] == before[k];
    }
    forall c, n | c != chat || n != identity ensures PointsOf(after, c, n) == PointsOf(before, c, n) {
      SlotPoints(before, after, i, c, n);
    }
  }
}
