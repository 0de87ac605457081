/**
 The list of pending swaps, told from the events of a session, and what a crash can do to it
 (lwk_boltz/src/store.rs, submarine.rs, chain_swaps.rs).
 */
module SwapHistory {
  import opened Prelude
  import opened SwapTypes
  import opened Swap
  import opened SwapStore
  import opened SwapLists
  import opened SwapSystem
  import opened SwapRuns
  import opened SwapCompletion
  import opened SwapFunds
  import opened SwapResponses

  // ------------------------------------------------------------------ pending swaps

  /** The event creates a swap that was not created before. */
  predicate Creates(session: Session, sys: Sys, ev: Event)
  {
    ev.Create? && sys.Known(Target(ev)).CanCreate(session, ev.swap)
  }

  /** The event ends its swap: a call completes it, it is restored in a terminal state, or it is removed. */
  predicate Closes(session: Session, sys: Sys, ev: Event)
  {
    var k := sys.Known(Target(ev));
    match ev
    case Advance(id, a) => k.live.Some? && Poll(id, k.live.value, a).result.Completed()
    case Restart(_, fetched) =>
      var s := Restored(session, k.record, fetched); s.Some? && s.value.LastState().IsTerminal()
    case Remove(_) => true
    case _ => false
  }

  predicate CreatesAt(session: Session, events: seq<Event>, i: nat)
  {
    i < |events| && Creates(session, Run(session, events[..i]), events[i])
  }

  predicate ClosesAt(session: Session, events: seq<Event>, id: string, i: nat)
  {
    i < |events| && Target(events[i]) == id && Closes(session, Run(session, events[..i]), events[i])
  }

  ghost predicate ClosedAfter(session: Session, events: seq<Event>, id: string, i: nat)
  {
    exists j: nat :: i < j && ClosesAt(session, events, id, j)
  }

  /** The swap that an event of the run created, unless a later event ended it. */
  ghost function OpenAt(session: Session, events: seq<Event>, i: nat): seq<string>
    requires i < |events|
  {
    var id := Target(events[i]);
    if CreatesAt(session, events, i) && !ClosedAfter(session, events, id, i) then [id] else []
  }

  /** The swaps created by the first `m` events, in order, that no later event of the run ended. */
  ghost function StillOpen(session: Session, events: seq<Event>, m: nat): seq<string>
    requires m <= |events|
  {
    if m == 0 then [] else StillOpen(session, events, m - 1) + OpenAt(session, events, m - 1)
  }

  lemma OpenAtLast(session: Session, before: seq<Event>, ev: Event, i: nat)
    requires i < |before|
    ensures OpenAt(session, before + [ev], i)
      == if ClosesAt(session, before + [ev], Target(ev), |before|) then Without(OpenAt(session, before, i), Target(ev))
         else OpenAt(session, before, i)
  {
    hide CreatesAt, ClosedAfter, ClosesAt, Target;
    var events := before + [ev];
    assert events[..|events| - 1] == before && events[|events| - 1] == ev && events[i] == before[i];
    var id := Target(before[i]);
    PrefixTells(session, events, id, i);
    OnlyItsTarget(session, events, id, |before|);
    WithoutOne(id, Target(ev));
    hide Without;
  }

  lemma WithoutOne(id: string, other: string)
    ensures Without([id], other) == (if id == other then [] else [id]) && Without([], other) == []
  {
    assert [id][..0] == [];
  }

  lemma OnlyItsTarget(session: Session, events: seq<Event>, id: string, n: nat)
    requires n < |events|
    ensures ClosesAt(session, events, id, n) ==> id == Target(events[n])
  {
    hide Closes, Run;
  }

  lemma StillOpenStep(session: Session, events: seq<Event>, m: nat)
    requires 0 < m <= |events|
    ensures StillOpen(session, events, m) == StillOpen(session, events, m - 1) + OpenAt(session, events, m - 1)
  {
    hide OpenAt;
  }

  lemma {:induction false} StillOpenLast(session: Session, before: seq<Event>, ev: Event, m: nat)
    requires m <= |before|
    ensures StillOpen(session, before + [ev], m)
      == if ClosesAt(session, before + [ev], Target(ev), |before|)
         then Without(StillOpen(session, before, m), Target(ev))
         else StillOpen(session, before, m)
  {
    hide OpenAt, ClosesAt, Target, Without, Run;
    if m == 0 {
      WithoutOne("", Target(ev));
    } else {
      hide StillOpen;
      StillOpenStep(session, before + [ev], m);
      StillOpenStep(session, before, m);
      StillOpenLast(session, before, ev, m - 1);
      OpenAtLast(session, before, ev, m - 1);
      WithoutSplit(StillOpen(session, before, m - 1), OpenAt(session, before, m - 1), Target(ev));
    }
  }

  /** What the run but for its last event tells about an earlier one. */
  lemma PrefixTells(session: Session, events: seq<Event>, id: string, i: nat)
    requires i < |events| - 1
    ensures var n := |events| - 1;
      && CreatesAt(session, events, i) == CreatesAt(session, events[..n], i)
      && ClosedAfter(session, events, id, i)
         == (ClosedAfter(session, events[..n], id, i) || ClosesAt(session, events, id, n))
  {
    hide Creates, Closes, Run, Target;
    var n := |events| - 1;
    assert forall j: nat | j < n :: events[..n][..j] == events[..j];
    assert forall j: nat | j < n :: ClosesAt(session, events[..n], id, j) == ClosesAt(session, events, id, j);
    if j: nat :| i < j && ClosesAt(session, events[..n], id, j) {
      assert ClosesAt(session, events, id, j);
    }
    if j: nat :| i < j && ClosesAt(session, events, id, j) {
      assert j == n || ClosesAt(session, events[..n], id, j);
    }
  }

  lemma PendingOfOps(e: Entries, op: Op, op': Op)
    ensures ApplyAll(e, []) == e
    ensures ApplyAll(e, [op]) == Apply(e, op)
    ensures ApplyAll(e, [op, op']) == Apply(Apply(e, op), op')
  {
    hide Apply;
    ApplyOps(e, op, op');
  }

  /** What an event does to the pending list. */
  lemma PendingNext(session: Session, sys: Sys, ev: Event)
    ensures Pending(Next(session, sys, ev).entries)
      == if Closes(session, sys, ev) then Without(Pending(sys.entries), Target(ev))
         else if Creates(session, sys, ev) then WithLast(Pending(sys.entries), Target(ev))
         else Pending(sys.entries)
  {
    hide Poll, Swap.Encode, Restored, Swap.IsNew, ApplyAll, Apply, NextLive, EventMoves, EventCreated, Pending,
      RecordOf, Swap.SetLockup;
    var id, k, e := Target(ev), sys.Known(Target(ev)), sys.entries;
    match ev
    case Create(s) => PendingOfOps(e, Persist(id, s.Encode(session)), AddToPending(id));
    case Publish(_) => PendingOfOps(e, RemoveSwap(id), RemoveSwap(id));
    case Advance(_, a) =>
      if k.live.Some? {
        PendingOfOps(e, Persist(id, Poll(id, k.live.value, a).live.swap.Encode(session)), MoveToCompleted(id));
      } else {
        PendingOfOps(e, RemoveSwap(id), RemoveSwap(id));
      }
    case Restart(_, _) => PendingOfOps(e, MoveToCompleted(id), MoveToCompleted(id));
    case SetLockup(_, txid) =>
      if k.live.Some? {
        PendingOfOps(e, Persist(id, k.live.value.swap.SetLockup(Some(txid)).Encode(session)), RemoveSwap(id));
      } else {
        PendingOfOps(e, RemoveSwap(id), RemoveSwap(id));
      }
    case Remove(_) => PendingOfOps(e, RemoveSwap(id), RemoveSwap(id));
  }

  /** What an event does to the swaps that are still open. */
  lemma StillOpenNext(session: Session, before: seq<Event>, ev: Event)
    ensures var sys, open := Run(session, before), StillOpen(session, before, |before|);
      StillOpen(session, before + [ev], |before| + 1)
        == if Closes(session, sys, ev) then Without(open, Target(ev))
           else if Creates(session, sys, ev) then open + [Target(ev)]
           else open
  {
    hide Creates, Closes, Run, Target;
    var events, n := before + [ev], |before|;
    assert events[..n] == before && events[n] == ev;
    StillOpenLast(session, before, ev, n);
    LastIsOpen(session, events);
    var open := StillOpen(session, before, n);
    assert open + [] == open && Without(open, Target(ev)) + [] == Without(open, Target(ev));
  }

  /**
   In every run the pending list is the swaps created, in the order of their creation, that no
   event since completed, restored as terminal or removed.
   */
  lemma {:induction false} PendingIsStillOpen(session: Session, events: seq<Event>)
    requires session.Lawful()
    ensures Pending(Run(session, events).entries) == StillOpen(session, events, |events|)
  {
    if events == [] {
    } else {
      hide Creates, Closes, Next, Run, StillOpen, Pending, Without;
      var n := |events| - 1;
      var before, ev := events[..n], events[n];
      assert events == before + [ev];
      PendingIsStillOpen(session, before);
      RunOneMore(session, before, ev);
      StillOpenNext(session, before, ev);
      PendingNext(session, Run(session, before), ev);
      NewIsNotPending(session, before, ev);
    }
  }

  lemma LastIsOpen(session: Session, events: seq<Event>)
    requires events != []
    ensures var n := |events| - 1; !ClosedAfter(session, events, Target(events[n]), n)
    ensures var n := |events| - 1; CreatesAt(session, events, n) ==> !ClosesAt(session, events, Target(events[n]), n)
  {}

  lemma NewIsNotPending(session: Session, before: seq<Event>, ev: Event)
    requires session.Lawful()
    ensures Creates(session, Run(session, before), ev) ==> Target(ev) !in Pending(Run(session, before).entries)
  {
    InvOfShare(session, before, Target(ev));
    hide Run, Swap.IsNew, Swap.Id;
  }

  // ------------------------------------------------------------------ a crash that is not repaired

  /** The store after a crash that left only the record of the end, and after the swap is restored from it. */
  function Crashed(session: Session, e: Entries, s: Swap): Entries
  {
    CompletionWrites(e, s.Id(), s.Encode(session), 1)
  }

  function RestoredStore(session: Session, e: Entries, id: string, fetched: Option<Txid>): Entries
  {
    ApplyAll(e, RestoreOps(id, Restored(session, RecordOf(e, id), fetched)))
  }

  lemma FailedToPay(s: Swap, u: Update, a: Answers)
    requires s.Submarine? && u.status == Some(InvoiceFailedToPay) && a.utxo == Some(false)
    ensures var o := s.Advance(u, a);
      o.result == Ok(Break(false)) && o.data == Submarine(s.pay.(lastState := InvoiceFailedToPay))
  {}

  lemma NewIsPending(session: Session, s: Swap)
    requires s.IsNew(session)
    ensures var e := Run(session, [Create(s)]).entries; Pending(e) == [s.Id()] && Completed(e) == []
  {
    hide Swap.IsNew, Swap.Encode, Swap.Id;
    assert [Create(s)][..0] == [];
    ApplyOps(map[], Persist(s.Id(), s.Encode(session)), AddToPending(s.Id()));
    assert [] + [s.Id()] == [s.Id()];
  }

  /**
   It happens: the server fails to pay the invoice of a submarine swap whose lockup never came. Had the
   call not crashed, the swap would be completed; as it crashed after writing the record, the swap is
   restored and still pending.
   */
  lemma CrashLeavesPending(session: Session, s: Swap, a: Answers, fetched: Option<Txid>)
    requires session.Lawful() && s.Submarine? && s.IsNew(session) && a.utxo == Some(false)
    ensures s.Id() in Run(session, [Create(s)] + [Publish(Update(s.Id(), Some(InvoiceFailedToPay), None))]).live
    ensures var id, u := s.Id(), Update(s.Id(), Some(InvoiceFailedToPay), None);
      var sys := Run(session, [Create(s)] + [Publish(u)]);
      var end := Poll(id, sys.live[id], a);
      var whole := Next(session, sys, Advance(id, a)).entries;
      var crashed := RestoredStore(session, Crashed(session, sys.entries, end.live.swap), id, fetched);
      && end.result.Completed()
      && id !in Pending(whole) && id in Completed(whole)
      && id in Pending(crashed) && id !in Completed(crashed)
  {
    hide Run, Next, Swap.IsNew, Swap.Encode, Apply, RecordOf, Pending, Completed;
    var id, u := s.Id(), Update(s.Id(), Some(InvoiceFailedToPay), None);
    var events := [Create(s)];
    CreateNew(session, s);
    NewIsPending(session, s);
    RunOneMore(session, events, Publish(u));
    PublishTo(session, Run(session, events), id, u);
    PublishWritesNothing(session, Run(session, events), u);
    var sys := Run(session, events + [Publish(u)]);
    assert [] + [u] == [u];
    AdvanceNext(session, sys, id, a);
    FailedToPay(s, u, a);
    var s' := Poll(id, sys.live[id], a).live.swap;
    ApplyOps(sys.entries, Persist(id, s'.Encode(session)), MoveToCompleted(id));
    WithoutMembers(Pending(sys.entries), id, id);
    NotRepaired(session, s, s', sys.entries, fetched);
  }

  lemma NotRepaired(session: Session, s: Swap, s': Swap, e: Entries, fetched: Option<Txid>)
    requires session.Lawful() && s.Submarine? && s.IsNew(session)
    requires s' == Submarine(s.pay.(lastState := InvoiceFailedToPay))
    ensures RestoredStore(session, Crashed(session, e, s'), s.Id(), fetched) == Crashed(session, e, s')
  {
    hide Swap.Encode, PutRecord;
    StoredFormReadsBack(session, s');
  }
}
