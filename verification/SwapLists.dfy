/**
 The pending and completed lists over whole histories, and across a crash
 (lwk_boltz/src/store.rs, lib.rs).
 */
module SwapLists {
  import opened Prelude
  import opened SwapTypes
  import opened Swap
  import opened SwapStore

  // ------------------------------------------------------------------ a list under edits

  datatype Edit = Add(id: string) | Drop(id: string) | Skip

  function Edited(edits: seq<Edit>): seq<string>
  {
    if edits == [] then []
    else
      var before := Edited(edits[..|edits| - 1]);
      match edits[|edits| - 1]
      case Add(id) => WithLast(before, id)
      case Drop(id) => Without(before, id)
      case Skip => before
  }

  /** No drop of `id` at or after position `from`. */
  predicate Stays(edits: seq<Edit>, from: nat, id: string)
  {
    forall j :: from <= j < |edits| ==> edits[j] != Drop(id)
  }

  /** Position `i` adds an id that is on the list from then on and was not on it just before. */
  predicate Opens(edits: seq<Edit>, i: nat)
    requires i < |edits|
  {
    && edits[i].Add?
    && Stays(edits, i, edits[i].id)
    && (forall k :: 0 <= k < i && edits[k] == edits[i] ==> exists j :: k < j < i && edits[j] == Drop(edits[i].id))
  }

  /** The id that a position of the history opens, if it does. */
  function OpenedAt(edits: seq<Edit>, i: nat): seq<string>
    requires i < |edits|
  {
    if Opens(edits, i) then [edits[i].id] else []
  }

  /** The reference: the ids of the opening positions, in the order of those positions. */
  function OpenIds(edits: seq<Edit>, n: nat): seq<string>
    requires n <= |edits|
  {
    if n == 0 then [] else OpenIds(edits, n - 1) + OpenedAt(edits, n - 1)
  }

  lemma StaysLast(edits: seq<Edit>, i: nat, id: string)
    requires i < |edits|
    ensures var n := |edits| - 1;
      Stays(edits, i, id) <==> Stays(edits[..n], i, id) && edits[n] != Drop(id)
  {
    var n := |edits| - 1;
    if Stays(edits[..n], i, id) && edits[n] != Drop(id) {
      forall j | i <= j < |edits| ensures edits[j] != Drop(id) {
        if j < n { assert edits[..n][j] == edits[j]; }
      }
    }
  }

  lemma EditedNext(before: seq<Edit>, e: Edit)
    ensures Edited(before + [e])
      == if e.Add? then WithLast(Edited(before), e.id)
         else if e.Drop? then Without(Edited(before), e.id)
         else Edited(before)
  {
    assert (before + [e])[..|before|] == before;
  }

  /** The id was added at position `i` and never dropped since. */
  predicate AddedAt(edits: seq<Edit>, id: string, i: nat)
  {
    i < |edits| && edits[i] == Add(id) && Stays(edits, i, id)
  }

  lemma AddedAtLast(before: seq<Edit>, e: Edit, id: string, i: nat)
    ensures AddedAt(before + [e], id, i) <==>
      if i < |before| then AddedAt(before, id, i) && e != Drop(id) else i == |before| && e == Add(id)
  {
    var edits := before + [e];
    assert edits[..|edits| - 1] == before;
    if i < |before| {
      StaysLast(edits, i, id);
      hide Stays;
    }
  }

  /** An id is on the list exactly if it was added and never dropped since. */
  lemma {:induction false} EditedMembers(edits: seq<Edit>, id: string)
    ensures id in Edited(edits) <==> exists i: nat :: AddedAt(edits, id, i)
  {
    if edits == [] {
    } else {
      hide AddedAt, Edited, Without;
      var n := |edits| - 1;
      var before, e := edits[..n], edits[n];
      assert edits == before + [e];
      EditedMembers(before, id);
      EditedNext(before, e);
      if e.Drop? {
        WithoutMembers(Edited(before), e.id, id);
      }
      if i: nat :| AddedAt(edits, id, i) {
        AddedAtLast(before, e, id, i);
      }
      if i: nat :| AddedAt(before, id, i) {
        AddedAtLast(before, e, id, i);
        WithinEdits(before, id, i);
      }
      AddedAtLast(before, e, id, n);
    }
  }

  lemma WithinEdits(edits: seq<Edit>, id: string, i: nat)
    ensures AddedAt(edits, id, i) ==> i < |edits|
  {}

  lemma OpensLast(edits: seq<Edit>, i: nat)
    requires i < |edits| - 1
    ensures var n := |edits| - 1;
      Opens(edits, i) <==> Opens(edits[..n], i) && edits[n] != Drop(edits[i].id)
  {
    var n := |edits| - 1;
    if edits[i].Add? {
      StaysLast(edits, i, edits[i].id);
      forall k | 0 <= k < i && edits[k] == edits[i]
        ensures (exists j :: k < j < i && edits[j] == Drop(edits[i].id)) <==>
                (exists j :: k < j < i && edits[..n][j] == Drop(edits[i].id))
      {
        if j :| k < j < i && edits[j] == Drop(edits[i].id) { assert edits[..n][j] == edits[j]; }
      }
      assert forall k :: 0 <= k < i ==> edits[..n][k] == edits[k];
    }
  }

  lemma OpenedAtLast(before: seq<Edit>, e: Edit, i: nat)
    requires i < |before|
    ensures OpenedAt(before + [e], i) == if e.Drop? then Without(OpenedAt(before, i), e.id) else OpenedAt(before, i)
  {
    var edits := before + [e];
    assert edits[..|edits| - 1] == before && edits[i] == before[i];
    OpensLast(edits, i);
    assert Opens(before, i) ==> before[i].Add?;
    hide Opens;
    if Opens(before, i) && e.Drop? {
      WithoutAppend([], before[i].id, e.id);
      assert [] + [before[i].id] == [before[i].id];
    }
  }

  lemma {:induction false} OpenIdsLast(before: seq<Edit>, e: Edit, m: nat)
    requires m <= |before|
    ensures OpenIds(before + [e], m) == if e.Drop? then Without(OpenIds(before, m), e.id) else OpenIds(before, m)
  {
    hide OpenedAt;
    if m == 0 {
    } else {
      OpenIdsLast(before, e, m - 1);
      OpenedAtLast(before, e, m - 1);
      if e.Drop? {
        WithoutSplit(OpenIds(before, m - 1), OpenedAt(before, m - 1), e.id);
      }
    }
  }

  lemma OpensNow(edits: seq<Edit>)
    requires edits != [] && edits[|edits| - 1].Add?
    ensures var n := |edits| - 1;
      Opens(edits, n) <==> edits[n].id !in Edited(edits[..n])
  {
    var n := |edits| - 1;
    var before, id := edits[..n], edits[n].id;
    EditedMembers(before, id);
    if id !in Edited(before) {
      forall k | 0 <= k < n && edits[k] == edits[n]
        ensures exists j :: k < j < n && edits[j] == Drop(id)
      {
        assert before[k] == Add(id) && !AddedAt(before, id, k);
        var j :| k <= j < n && before[j] == Drop(id);
        assert edits[j] == Drop(id);
      }
    } else {
      var k: nat :| AddedAt(before, id, k);
      assert edits[k] == edits[n];
      assert forall j :: k < j < n ==> before[j] == edits[j];
    }
  }

  lemma LastOpened(before: seq<Edit>, e: Edit)
    ensures OpenedAt(before + [e], |before|) == if e.Add? && e.id !in Edited(before) then [e.id] else []
  {
    var edits := before + [e];
    assert edits[..|edits| - 1] == before;
    if e.Add? {
      OpensNow(edits);
    }
    assert Opens(edits, |before|) ==> e.Add?;
    hide Opens, Edited;
  }

  /** Editing step by step keeps exactly the reference list, in its order and without repeats. */
  lemma {:induction false} EditedIsOpenIds(edits: seq<Edit>)
    ensures Edited(edits) == OpenIds(edits, |edits|)
    ensures Distinct(Edited(edits))
  {
    if edits == [] {
    } else {
      hide Edited, OpenedAt, Without;
      var n := |edits| - 1;
      var before, e := edits[..n], edits[n];
      assert edits == before + [e];
      EditedIsOpenIds(before);
      OpenIdsLast(before, e, n);
      LastOpened(before, e);
      EditedNext(before, e);
      assert OpenIds(edits, n + 1) == OpenIds(edits, n) + OpenedAt(edits, n);
      if e.Drop? {
        WithoutDistinct(Edited(before), e.id);
      }
    }
  }

  lemma {:induction false} WithoutDistinct(ids: seq<string>, id: string)
    requires Distinct(ids)
    ensures Distinct(Without(ids, id))
  {
    if ids == [] {
    } else {
      var n := |ids| - 1;
      WithoutDistinct(ids[..n], id);
      WithoutMembers(ids[..n], id, ids[n]);
    }
  }

  // ------------------------------------------------------------------ the two lists

  function PendingEdit(op: Op): Edit
  {
    match op
    case Persist(_, _) => Skip
    case AddToPending(id) => Add(id)
    case MoveToCompleted(id) => Drop(id)
    case RemoveSwap(id) => Drop(id)
  }

  function CompletedEdit(op: Op): Edit
  {
    match op
    case Persist(_, _) => Skip
    case AddToPending(_) => Skip
    case MoveToCompleted(id) => Add(id)
    case RemoveSwap(id) => Drop(id)
  }

  function PendingEdits(ops: seq<Op>): seq<Edit> { seq(|ops|, i requires 0 <= i < |ops| => PendingEdit(ops[i])) }

  function CompletedEdits(ops: seq<Op>): seq<Edit> { seq(|ops|, i requires 0 <= i < |ops| => CompletedEdit(ops[i])) }

  lemma {:induction false} ListsAreEdited(ops: seq<Op>)
    ensures Pending(ApplyAll(map[], ops)) == Edited(PendingEdits(ops))
    ensures Completed(ApplyAll(map[], ops)) == Edited(CompletedEdits(ops))
  {
    if ops == [] {
    } else {
      var n := |ops| - 1;
      ListsAreEdited(ops[..n]);
      assert PendingEdits(ops)[..n] == PendingEdits(ops[..n]);
      assert CompletedEdits(ops)[..n] == CompletedEdits(ops[..n]);
    }
  }

  /**
   After any history of store operations the pending list is the creation order filtered to
   the ids neither completed nor removed since, the completed list is the completion order
   filtered to the ids not removed since, and neither repeats an id.
   */
  lemma ListsAfterAnyHistory(ops: seq<Op>)
    ensures var e := ApplyAll(map[], ops);
      && Pending(e) == OpenIds(PendingEdits(ops), |ops|)
      && Completed(e) == OpenIds(CompletedEdits(ops), |ops|)
      && Distinct(Pending(e)) && Distinct(Completed(e))
  {
    ListsAreEdited(ops);
    EditedIsOpenIds(PendingEdits(ops));
    EditedIsOpenIds(CompletedEdits(ops));
  }

  /** Operation `j` put `id` on the pending list, and nothing took it off since. */
  predicate PendingSince(ops: seq<Op>, j: nat, id: string)
  {
    && j < |ops| && ops[j] == AddToPending(id)
    && (forall k :: j <= k < |ops| ==> ops[k] != RemoveSwap(id) && ops[k] != MoveToCompleted(id))
  }

  /** Operation `i` put `id` on the completed list, and nothing took it off since. */
  predicate CompletedSince(ops: seq<Op>, i: nat, id: string)
  {
    && i < |ops| && ops[i] == MoveToCompleted(id)
    && (forall k :: i <= k < |ops| ==> ops[k] != RemoveSwap(id))
  }

  lemma PendingMembers(ops: seq<Op>, id: string)
    ensures id in Pending(ApplyAll(map[], ops)) <==> exists j: nat :: PendingSince(ops, j, id)
  {
    var p := PendingEdits(ops);
    ListsAreEdited(ops);
    EditedMembers(p, id);
    if j: nat :| AddedAt(p, id, j) {
      forall k | j <= k < |ops| ensures ops[k] != RemoveSwap(id) && ops[k] != MoveToCompleted(id) {
        assert p[k] != Drop(id);
      }
      assert PendingSince(ops, j, id);
    }
    if j: nat :| PendingSince(ops, j, id) {
      assert AddedAt(p, id, j);
    }
  }

  lemma CompletedMembers(ops: seq<Op>, id: string)
    ensures id in Completed(ApplyAll(map[], ops)) <==> exists i: nat :: CompletedSince(ops, i, id)
  {
    var c := CompletedEdits(ops);
    ListsAreEdited(ops);
    EditedMembers(c, id);
    if i: nat :| AddedAt(c, id, i) {
      forall k | i <= k < |ops| ensures ops[k] != RemoveSwap(id) { assert c[k] != Drop(id); }
      assert CompletedSince(ops, i, id);
    }
    if i: nat :| CompletedSince(ops, i, id) {
      assert AddedAt(c, id, i);
    }
  }

  /** An id is on both lists exactly if it was added to pending again after it had completed. */
  lemma OnBothListsIffRevived(ops: seq<Op>, id: string)
    ensures var e := ApplyAll(map[], ops);
      id in Pending(e) && id in Completed(e) <==>
      exists i: nat, j: nat :: i < j && CompletedSince(ops, i, id) && PendingSince(ops, j, id)
  {
    PendingMembers(ops, id);
    CompletedMembers(ops, id);
    var e := ApplyAll(map[], ops);
    if id in Pending(e) && id in Completed(e) {
      var i: nat, j: nat :| CompletedSince(ops, i, id) && PendingSince(ops, j, id);
      assert i < j;
    }
  }

  // ------------------------------------------------------------------ a crash while completing

  /** The store after the first `k` of the three writes that end a swap. */
  function CompletionWrites(e: Entries, id: string, r: Record, k: nat): (e': Entries)
    requires k <= 3
    ensures Pending(e') == if k < 2 then Pending(e) else Without(Pending(e), id)
    ensures Completed(e') == if k < 3 then Completed(e) else WithLast(Completed(e), id)
    ensures k > 0 ==> RecordOf(e', id) == Some(r)
  {
    if k == 0 then e
    else
      var e1 := PutRecord(e, id, r);
      if k == 1 then e1
      else
        var e2 := PutPending(e1, Without(Pending(e1), id));
        if k == 2 || id in Completed(e2) then e2 else PutCompleted(e2, Completed(e2) + [id])
  }

  /** What restoring the swap does to the store: only a terminal state completes it again. */
  function RestoreWrites(e: Entries, id: string, state: SwapState): Entries
  {
    if state.IsTerminal() then Apply(e, MoveToCompleted(id)) else e
  }

  /**
   A crash once the data is written, followed by restoring the swap, leaves the lists as if
   there had been no crash, exactly if the last state is terminal or the writes still missing
   had nothing left to change.
   */
  lemma CrashRecovery(e: Entries, id: string, r: Record, state: SwapState, k: nat)
    requires 1 <= k <= 3
    ensures var crashed := RestoreWrites(CompletionWrites(e, id, r, k), id, state);
      var whole := CompletionWrites(e, id, r, 3);
      && whole == Apply(Apply(e, Persist(id, r)), MoveToCompleted(id))
      && RecordOf(crashed, id) == RecordOf(whole, id)
      && (Pending(crashed) == Pending(whole) && Completed(crashed) == Completed(whole) <==>
            || state.IsTerminal()
            || k == 3
            || (id in Completed(e) && (k == 2 || id !in Pending(e))))
  {
    WithoutTwice(Pending(e), id);
  }

  lemma WithoutTwice(ids: seq<string>, id: string)
    ensures Without(Without(ids, id), id) == Without(ids, id)
    ensures Without(ids, id) == ids <==> id !in ids
  {
    WithoutMembers(ids, id, id);
    WithoutAbsentIf(ids, id);
    WithoutAbsent(Without(ids, id), id);
  }

  /**
   For a swap ending now, such a crash is harmless whatever the moment if the swap is a
   reverse swap; submarine and chain swaps that end in a state which is not terminal stay
   on the pending list.
   */
  lemma CrashRecoveryOfSwap(session: Session, e: Entries, s: Swap, u: Update, a: Answers, k: nat)
    requires 1 <= k < 3
    requires s.Advance(u, a).result.Completed()
    requires s.Id() in Pending(e) && s.Id() !in Completed(e)
    ensures var s' := s.Advance(u, a).data;
      var crashed := RestoreWrites(CompletionWrites(e, s.Id(), s'.Encode(session), k), s.Id(), s'.LastState());
      var whole := CompletionWrites(e, s.Id(), s'.Encode(session), 3);
      Pending(crashed) == Pending(whole) && Completed(crashed) == Completed(whole) <==>
        match s
        case Reverse(_) => true
        case Submarine(_) => u.status in {Some(TransactionClaimed), Some(SwapExpired)}
        case Chain(_) => u.status in {Some(TransactionClaimed), Some(TransactionFailed), Some(SwapExpired)}
  {
    var s' := s.Advance(u, a).data;
    StepStatus(s, u, a);
    var r, state := s'.Encode(session), s'.LastState();
    assert state.IsTerminal() <==>
      match s
      case Reverse(_) => true
      case Submarine(_) => u.status in {Some(TransactionClaimed), Some(SwapExpired)}
      case Chain(_) => u.status in {Some(TransactionClaimed), Some(TransactionFailed), Some(SwapExpired)};
    CrashRecovery(e, s.Id(), r, state, k);
  }
}
