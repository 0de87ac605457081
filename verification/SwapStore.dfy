/** The key-value store of swap data and swap lists (lwk_boltz/src/store.rs, lib.rs). */
module SwapStore {
  import opened Prelude
  import opened Swap

  /** A stored value: a list of swap ids or the data of one swap, as their JSON texts decode. */
  datatype Value = Ids(ids: seq<string>) | Data(record: Record)

  type Entries = map<string, Value>

  const PENDING_SWAPS_KEY: string := "boltz:pending_swaps"
  const COMPLETED_SWAPS_KEY: string := "boltz:completed_swaps"

  function SwapDataKey(id: string): string
  {
    "boltz:swap:" + id
  }

  /** No two of the keys in use collide. */
  lemma KeysApart(id: string, other: string)
    ensures PENDING_SWAPS_KEY != COMPLETED_SWAPS_KEY
    ensures SwapDataKey(id) != PENDING_SWAPS_KEY && SwapDataKey(id) != COMPLETED_SWAPS_KEY
    ensures SwapDataKey(id) == SwapDataKey(other) ==> id == other
  {
    assert PENDING_SWAPS_KEY[6] == 'p' && COMPLETED_SWAPS_KEY[6] == 'c' && SwapDataKey(id)[6] == 's';
    assert SwapDataKey(id)[11..] == id && SwapDataKey(other)[11..] == other;
  }

  // ------------------------------------------------------------------ what can be read

  /** A list key holds a list, or nothing at all, which reads as the empty list. */
  function ReadIds(e: Entries, key: string): seq<string>
  {
    if key in e && e[key].Ids? then e[key].ids else []
  }

  function Pending(e: Entries): seq<string> { ReadIds(e, PENDING_SWAPS_KEY) }

  function Completed(e: Entries): seq<string> { ReadIds(e, COMPLETED_SWAPS_KEY) }

  function RecordOf(e: Entries, id: string): Option<Record>
  {
    var key := SwapDataKey(id);
    if key in e && e[key].Data? then Some(e[key].record) else None
  }

  /** The data of all other swaps is untouched. */
  ghost predicate SameButFor(e: Entries, e': Entries, id: string)
  {
    forall other :: other != id ==> RecordOf(e', other) == RecordOf(e, other)
  }

  function Without(ids: seq<string>, id: string): seq<string>
  {
    if ids == [] then []
    else if ids[|ids| - 1] == id then Without(ids[..|ids| - 1], id)
    else Without(ids[..|ids| - 1], id) + [ids[|ids| - 1]]
  }

  function WithLast(ids: seq<string>, id: string): seq<string>
  {
    if id in ids then ids else ids + [id]
  }

  lemma {:induction false} WithoutMembers(ids: seq<string>, id: string, x: string)
    ensures x in Without(ids, id) <==> x in ids && x != id
  {
    if ids == [] {
    } else {
      WithoutMembers(ids[..|ids| - 1], id, x);
      assert ids == ids[..|ids| - 1] + [ids[|ids| - 1]];
    }
  }

  lemma {:induction false} WithoutAppend(ids: seq<string>, x: string, id: string)
    ensures Without(ids + [x], id) == if x == id then Without(ids, id) else Without(ids, id) + [x]
  {
    assert (ids + [x])[..|ids|] == ids;
  }

  lemma {:induction false} WithoutAbsent(ids: seq<string>, id: string)
    requires id !in ids
    ensures Without(ids, id) == ids
  {
    if ids == [] {
    } else {
      WithoutAbsent(ids[..|ids| - 1], id);
      assert ids == ids[..|ids| - 1] + [ids[|ids| - 1]];
    }
  }

  lemma {:induction false} WithoutSplit(a: seq<string>, b: seq<string>, id: string)
    ensures Without(a + b, id) == Without(a, id) + Without(b, id)
  {
    if b == [] {
      assert a + b == a;
    } else {
      WithoutSplit(a, b[..|b| - 1], id);
      assert a + b == a + b[..|b| - 1] + [b[|b| - 1]] && b == b[..|b| - 1] + [b[|b| - 1]];
      WithoutAppend(a + b[..|b| - 1], b[|b| - 1], id);
      WithoutAppend(b[..|b| - 1], b[|b| - 1], id);
    }
  }

  // ------------------------------------------------------------------ single writes

  function PutRecord(e: Entries, id: string, r: Record): (e': Entries)
    ensures Pending(e') == Pending(e) && Completed(e') == Completed(e)
    ensures RecordOf(e', id) == Some(r) && SameButFor(e, e', id)
  {
    KeysApart(id, id);
    assert forall other :: SwapDataKey(other) == SwapDataKey(id) ==> other == id by {
      forall other ensures SwapDataKey(other) == SwapDataKey(id) ==> other == id { KeysApart(id, other); }
    }
    e[SwapDataKey(id) := Data(r)]
  }

  function DropRecord(e: Entries, id: string): (e': Entries)
    ensures Pending(e') == Pending(e) && Completed(e') == Completed(e)
    ensures RecordOf(e', id) == None && SameButFor(e, e', id)
  {
    KeysApart(id, id);
    assert forall other :: SwapDataKey(other) == SwapDataKey(id) ==> other == id by {
      forall other ensures SwapDataKey(other) == SwapDataKey(id) ==> other == id { KeysApart(id, other); }
    }
    e - {SwapDataKey(id)}
  }

  function PutPending(e: Entries, ids: seq<string>): (e': Entries)
    ensures Pending(e') == ids && Completed(e') == Completed(e)
    ensures forall id :: RecordOf(e', id) == RecordOf(e, id)
  {
    assert forall id :: SwapDataKey(id) != PENDING_SWAPS_KEY by {
      forall id ensures SwapDataKey(id) != PENDING_SWAPS_KEY { KeysApart(id, id); }
    }
    KeysApart("", "");
    e[PENDING_SWAPS_KEY := Ids(ids)]
  }

  function PutCompleted(e: Entries, ids: seq<string>): (e': Entries)
    ensures Pending(e') == Pending(e) && Completed(e') == ids
    ensures forall id :: RecordOf(e', id) == RecordOf(e, id)
  {
    assert forall id :: SwapDataKey(id) != COMPLETED_SWAPS_KEY by {
      forall id ensures SwapDataKey(id) != COMPLETED_SWAPS_KEY { KeysApart(id, id); }
    }
    KeysApart("", "");
    e[COMPLETED_SWAPS_KEY := Ids(ids)]
  }

  // ------------------------------------------------------------------ operations

  datatype Op =
    | Persist(id: string, record: Record)
    | AddToPending(id: string)
    | MoveToCompleted(id: string)
    | RemoveSwap(id: string)

  function Apply(e: Entries, op: Op): (e': Entries)
    ensures Pending(e') == (match op
      case Persist(_, _) => Pending(e)
      case AddToPending(id) => WithLast(Pending(e), id)
      case MoveToCompleted(id) => Without(Pending(e), id)
      case RemoveSwap(id) => Without(Pending(e), id))
    ensures Completed(e') == (match op
      case Persist(_, _) => Completed(e)
      case AddToPending(_) => Completed(e)
      case MoveToCompleted(id) => WithLast(Completed(e), id)
      case RemoveSwap(id) => Without(Completed(e), id))
    ensures RecordOf(e', op.id) == (match op
      case Persist(_, r) => Some(r)
      case AddToPending(id) => RecordOf(e, id)
      case MoveToCompleted(id) => RecordOf(e, id)
      case RemoveSwap(_) => None)
    ensures SameButFor(e, e', op.id)
  {
    match op
    case Persist(id, r) => PutRecord(e, id, r)
    case AddToPending(id) =>
      if id in Pending(e) then e else PutPending(e, Pending(e) + [id])
    case MoveToCompleted(id) =>
      var e1 := PutPending(e, Without(Pending(e), id));
      if id in Completed(e1) then e1 else PutCompleted(e1, Completed(e1) + [id])
    case RemoveSwap(id) =>
      var e1 := DropRecord(e, id);
      WithoutAbsentIf(Pending(e1), id);
      WithoutAbsentIf(Completed(e1), id);
      var e2 := if id in Pending(e1) then PutPending(e1, Without(Pending(e1), id)) else e1;
      if id in Completed(e2) then PutCompleted(e2, Without(Completed(e2), id)) else e2
  }

  lemma WithoutAbsentIf(ids: seq<string>, id: string)
    ensures id !in ids ==> Without(ids, id) == ids
  {
    if id !in ids { WithoutAbsent(ids, id); }
  }

  function ApplyAll(e: Entries, ops: seq<Op>): Entries
  {
    if ops == [] then e else Apply(ApplyAll(e, ops[..|ops| - 1]), ops[|ops| - 1])
  }

  lemma {:induction false} ApplyAllSplit(e: Entries, ops: seq<Op>, more: seq<Op>)
    ensures ApplyAll(e, ops + more) == ApplyAll(ApplyAll(e, ops), more)
  {
    if more == [] {
      assert ops + more == ops;
    } else {
      var n := |more| - 1;
      ApplyAllSplit(e, ops, more[..n]);
      assert (ops + more)[..|ops + more| - 1] == ops + more[..n];
    }
  }

  // ------------------------------------------------------------------ the store object

  /** The store as the swap responses share it. Every operation is atomic here. */
  class DynStore {
    var entries: Entries

    constructor ()
      ensures entries == map[]
    {
      entries := map[];
    }

    /** `Vec::retain` with a test for one id. */
    static method Retain(ids: seq<string>, id: string) returns (kept: seq<string>)
      ensures kept == Without(ids, id)
    {
      kept := [];
      var i := 0;
      while i < |ids|
        invariant 0 <= i <= |ids|
        invariant kept == Without(ids[..i], id)
      {
        assert ids[..i + 1] == ids[..i] + [ids[i]];
        WithoutAppend(ids[..i], ids[i], id);
        if ids[i] != id {
          kept := kept + [ids[i]];
        }
        i := i + 1;
      }
      assert ids[..|ids|] == ids;
    }

    method PersistData(id: string, record: Record)
      modifies this
      ensures entries == Apply(old(entries), Persist(id, record))
    {
      entries := PutRecord(entries, id, record);
    }

    method PersistAndAddToPending(id: string, record: Record)
      modifies this
      ensures entries == Apply(Apply(old(entries), Persist(id, record)), AddToPending(id))
    {
      PersistData(id, record);
      var pending := Pending(entries);
      if id !in pending {
        pending := pending + [id];
        entries := PutPending(entries, pending);
      }
    }

    method Complete(id: string)
      modifies this
      ensures entries == Apply(old(entries), MoveToCompleted(id))
    {
      var pending := Pending(entries);
      pending := Retain(pending, id);
      entries := PutPending(entries, pending);
      var completed := Completed(entries);
      if id !in completed {
        completed := completed + [id];
        entries := PutCompleted(entries, completed);
      }
    }

    /** `BoltzSession::remove_swap`. */
    method Remove(id: string)
      modifies this
      ensures entries == Apply(old(entries), RemoveSwap(id))
    {
      entries := DropRecord(entries, id);
      var pending := Pending(entries);
      var wasPending := id in pending;
      pending := Retain(pending, id);
      if wasPending {
        entries := PutPending(entries, pending);
      }
      var completed := Completed(entries);
      var wasCompleted := id in completed;
      completed := Retain(completed, id);
      if wasCompleted {
        entries := PutCompleted(entries, completed);
      }
    }
  }
}
