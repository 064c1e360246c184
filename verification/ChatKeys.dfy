/**
 * The key store: an array of entries in the order their chats were first seen, used for chat keys
 * and, with a tag per entry, for the keys of visitor rooms.
 */
module ChatKeys {
  import opened Common

  const ID_SIZE := 128
  const INITIAL_CAPACITY := 8

  type Key = seq<byte>

  datatype Entry = Entry(id: string, key: Key, tag: nat)

  // ---- the simple view ------------------------------------------------------------------------------------

  predicate Acceptable(id: string) {
    0 < |id| < 128
  }

  /** The entry with that id. */
  function Lookup(es: seq<Entry>, id: string): (r: Option<Entry>)
    ensures r.Some? ==> r.value.id == id
  {
    if es == [] then None
    else if es[0].id == id then Some(es[0])
    else Lookup(es[1..], id)
  }

  /** A known id keeps its place; a new one goes to the end. */
  function Set(es: seq<Entry>, id: string, key: Key, tag: nat): seq<Entry> {
    if es == [] then [Entry(id, key, tag)]
    else if es[0].id == id then [Entry(id, key, tag)] + es[1..]
    else [es[0]] + Set(es[1..], id, key, tag)
  }

  function Remove(es: seq<Entry>, id: string): seq<Entry> {
    if es == [] then []
    else if es[0].id == id then es[1..]
    else [es[0]] + Remove(es[1..], id)
  }

  /** No id twice, and only ids the store accepts. */
  predicate Proper(es: seq<Entry>) {
    es == [] || (Acceptable(es[0].id) && Lookup(es[1..], es[0].id) == None && Proper(es[1..]))
  }

  function Ids(es: seq<Entry>): (r: seq<string>)
    ensures |r| == |es|
  {
    if es == [] then [] else [es[0].id] + Ids(es[1..])
  }

  lemma {:induction false} IdsAt(es: seq<Entry>)
    ensures forall i :: 0 <= i < |es| ==> Ids(es)[i] == es[i].id
  {
    if es != [] {
      IdsAt(es[1..]);
      forall i | 0 <= i < |es| ensures Ids(es)[i] == es[i].id {
        assert i > 0 ==> Ids(es)[i] == Ids(es[1..])[i - 1];
      }
    }
  }

  function Without(ids: seq<string>, id: string): seq<string> {
    if ids == [] then [] else (if ids[0] == id then [] else [ids[0]]) + Without(ids[1..], id)
  }

  /** Setting changes what is found under that id and nothing else. */
  lemma {:induction false} SetLookup(es: seq<Entry>, id: string, key: Key, tag: nat, x: string)
    ensures Lookup(Set(es, id, key, tag), x) == if x == id then Some(Entry(id, key, tag)) else Lookup(es, x)
  {
    if es == [] {
      assert Set(es, id, key, tag)[1..] == [];
    } else {
      SetLookup(es[1..], id, key, tag, x);
    }
  }

  lemma {:induction false} SetProper(es: seq<Entry>, id: string, key: Key, tag: nat)
    requires Proper(es) && Acceptable(id)
    ensures Proper(Set(es, id, key, tag))
  {
    if es == [] {
      assert Set(es, id, key, tag)[1..] == [];
    } else {
      SetProper(es[1..], id, key, tag);
      SetLookup(es[1..], id, key, tag, es[0].id);
    }
  }

  /** Everyone keeps their place; a newcomer is last. */
  lemma {:induction false} SetOrder(es: seq<Entry>, id: string, key: Key, tag: nat)
    ensures Ids(Set(es, id, key, tag)) == if Lookup(es, id) == None then Ids(es) + [id] else Ids(es)
  {
    if es == [] {
      assert Set(es, id, key, tag)[1..] == [];
    } else {
      SetOrder(es[1..], id, key, tag);
    }
  }

  /** Removing hides that id and changes nothing else. */
  lemma {:induction false} RemoveLookup(es: seq<Entry>, id: string, x: string)
    requires Proper(es)
    ensures Lookup(Remove(es, id), x) == if x == id then None else Lookup(es, x)
  {
    if es != [] {
      RemoveLookup(es[1..], id, x);
    }
  }

  lemma {:induction false} RemoveProper(es: seq<Entry>, id: string)
    requires Proper(es)
    ensures Proper(Remove(es, id))
  {
    if es != [] {
      RemoveProper(es[1..], id);
      RemoveLookup(es[1..], id, es[0].id);
    }
  }

  lemma {:induction false} ProperAcceptable(es: seq<Entry>, id: string)
    requires Proper(es) && Lookup(es, id).Some?
    ensures Acceptable(id)
  {
    if es[0].id != id {
      ProperAcceptable(es[1..], id);
    }
  }

  /** The others close the gap in their order. */
  lemma {:induction false} RemoveOrder(es: seq<Entry>, id: string)
    requires Proper(es)
    ensures Ids(Remove(es, id)) == Without(Ids(es), id)
  {
    if es != [] {
      assert Ids(es)[1..] == Ids(es[1..]);
      if es[0].id == id {
        NothingWithout(es[1..], id);
      } else {
        RemoveOrder(es[1..], id);
      }
    }
  }

  lemma {:induction false} NothingWithout(es: seq<Entry>, id: string)
    requires Lookup(es, id) == None
    ensures Without(Ids(es), id) == Ids(es)
  {
    if es != [] {
      NothingWithout(es[1..], id);
      assert Ids(es)[1..] == Ids(es[1..]);
    }
  }

  // ---- whole runs -----------------------------------------------------------------------------------------------

  datatype Change = Learn(id: string, key: Key, tag: nat) | Forget(id: string)

  function Apply(es: seq<Entry>, c: Change): seq<Entry> {
    match c
    case Learn(id, key, tag) => if Acceptable(id) then Set(es, id, key, tag) else es
    case Forget(id) => Remove(es, id)
  }

  function Run(changes: seq<Change>): seq<Entry> {
    if changes == [] then [] else Apply(Run(changes[..|changes| - 1]), changes[|changes| - 1])
  }

  /** What the latest change that concerns an id made of it. */
  function Latest(changes: seq<Change>, id: string): Option<Entry> {
    if changes == [] then None
    else
      match changes[|changes| - 1]
      case Learn(x, key, tag) =>
        if x == id && Acceptable(x) then Some(Entry(x, key, tag)) else Latest(changes[..|changes| - 1], id)
      case Forget(x) => if x == id then None else Latest(changes[..|changes| - 1], id)
  }

  /** After any run the store holds, for each id, what it was last told, and no id twice. */
  lemma {:induction false} RunHoldsLatest(changes: seq<Change>, id: string)
    ensures Proper(Run(changes)) && Lookup(Run(changes), id) == Latest(changes, id)
  {
    if changes != [] {
      var before, last := changes[..|changes| - 1], changes[|changes| - 1];
      RunHoldsLatest(before, id);
      match last {
        case Learn(x, key, tag) =>
          if Acceptable(x) {
            SetLookup(Run(before), x, key, tag, id);
            SetProper(Run(before), x, key, tag);
          }
        case Forget(x) =>
          RemoveLookup(Run(before), x, id);
          RemoveProper(Run(before), x);
      }
    }
  }

  // ---- places in the array ------------------------------------------------------------------------------------

  /** Place of the entry with that id, or the number of entries. */
  function Find(es: seq<Entry>, id: string): (i: nat)
    ensures i <= |es|
    ensures Lookup(es, id) == if i < |es| then Some(es[i]) else None
  {
    if es == [] || es[0].id == id then 0 else 1 + Find(es[1..], id)
  }

  lemma {:induction false} Places(es: seq<Entry>, id: string, key: Key, tag: nat)
    ensures
      var i, e := Find(es, id), Entry(id, key, tag);
      && Set(es, id, key, tag) == (if i < |es| then es[i := e] else es + [e])
      && Remove(es, id) == (if i < |es| then es[..i] + es[i + 1..] else es)
  {
    if es != [] && es[0].id != id {
      Places(es[1..], id, key, tag);
    }
  }

  // ---- the code ---------------------------------------------------------------------------------------------

  class Store {
    var entries: array<Entry>
    var count: nat

    ghost predicate Valid()
      reads this, entries
    {
      0 < entries.Length && count <= entries.Length && Proper(View())
    }

    function View(): (es: seq<Entry>)
      reads this, entries
      requires count <= entries.Length
      ensures |es| == count
    {
      entries[..count]
    }

    constructor ()
      ensures Valid() && fresh(entries) && View() == []
    {
      entries := new Entry[INITIAL_CAPACITY](_ => Entry("", [], 0));
      count := 0;
    }

    method FindEntry(id: string) returns (i: nat)
      requires Valid()
      ensures i == Find(View(), id)
    {
      i := 0;
      while i < count
        invariant i <= count && Find(View(), id) == i + Find(View()[i..], id)
      {
        assert View()[i..][0] == entries[i] && View()[i..][1..] == View()[i + 1..];
        if entries[i].id == id {
          break;
        }
        i := i + 1;
      }
    }

    /** Doubles the array when it is full. */
    method Reserve()
      requires Valid()
      modifies this`entries
      ensures Valid() && View() == old(View()) && count < entries.Length
      ensures entries == old(entries) || fresh(entries)
    {
      if count == entries.Length {
        var grown := new Entry[entries.Length * 2](_ => Entry("", [], 0));
        forall i | 0 <= i < count {
          grown[i] := entries[i];
        }
        entries := grown;
        assert View() == old(View());
      }
    }

    /** `chatkeys_set_tagged`. */
    method SetTagged(id: string, key: Key, tag: nat) returns (status: Status)
      requires Valid()
      modifies this, entries
      ensures Valid() && (entries == old(entries) || fresh(entries))
      ensures status == if Acceptable(id) then Ok else InvalidArg
      ensures View() == if Acceptable(id) then Set(old(View()), id, key, tag) else old(View())
    {
      if id == "" || |id| >= ID_SIZE {
        return InvalidArg;
      }
      ghost var before := View();
      SetProper(before, id, key, tag);
      Places(before, id, key, tag);
      var i := FindEntry(id);
      if i == count {
        Reserve();
        count := count + 1;
      }
      entries[i] := Entry(id, key, tag);
      assert View() == Set(before, id, key, tag);
      return Ok;
    }

    /** `chatkeys_remove`. */
    method Delete(id: string)
      requires Valid()
      modifies this`count, entries
      ensures Valid() && View() == Remove(old(View()), id)
    {
      ghost var before := View();
      RemoveProper(before, id);
      Places(before, id, [], 0);
      var i := FindEntry(id);
      if i < count {
        CloseGap(i);
      }
    }

    /** Closes the gap from the left, as memmove does. */
    method CloseGap(i: nat)
      requires i < count <= entries.Length
      modifies this`count, entries
      ensures count == old(count) - 1
      ensures View() == old(View())[..i] + old(View())[i + 1..]
    {
      ghost var before := View();
      count := count - 1;
      var k := i;
      while k < count
        invariant i <= k <= count && count + 1 == |before|
        invariant forall j :: 0 <= j < i ==> entries[j] == before[j]
        invariant forall j :: i < j <= k ==> entries[j - 1] == before[j]
        invariant forall j :: k < j <= count ==> entries[j] == before[j]
      {
        entries[k] := entries[k + 1];
        k := k + 1;
      }
    }

    /** `chatkeys_get`. */
    method Get(id: string) returns (key: Option<Key>)
      requires Valid()
      ensures key == match Lookup(View(), id) case None => None case Some(e) => Some(e.key)
    {
      var i := FindEntry(id);
      return if i < count then Some(entries[i].key) else None;
    }

    /** `chatkeys_tag`: zero for an unknown id. */
    method Tag(id: string) returns (tag: nat)
      requires Valid()
      ensures tag == match Lookup(View(), id) case None => 0 case Some(e) => e.tag
    {
      var i := FindEntry(id);
      return if i < count then entries[i].tag else 0;
    }

    /** `chatkeys_at`. */
    method At(index: nat) returns (id: Option<string>)
      requires Valid()
      ensures id == if index < |View()| then Some(Ids(View())[index]) else None
    {
      IdsAt(View());
      return if index < count then Some(entries[index].id) else None;
    }
  }
}
