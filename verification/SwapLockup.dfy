/** When a session forgets the lockup transaction of a swap (lwk_boltz/src/reverse.rs, chain_swaps.rs). */
module SwapLockup {
  import opened Prelude
  import opened SwapTypes
  import opened Swap
  import opened SwapStore
  import opened SwapSystem
  import opened SwapRuns
  import opened SwapCompletion
  import opened SwapFunds
  import opened SwapResponses

  /** The swap is live and its lockup txid is not known. */
  predicate LockupUnknown(sys: Sys, id: string)
  {
    id in sys.live && sys.live[id].swap.LockupTxid().None?
  }

  /** A chain swap is about to be told of a lockup in the mempool without being told which. */
  predicate NamelessMempool(sys: Sys, id: string)
    requires id in sys.live
  {
    var next := NextOwn(sys.live[id].rx, id);
    && sys.live[id].swap.Chain? && next.Some?
    && next.value.0.status == Some(TransactionMempool) && next.value.0.txid.None?
  }

  /** The record of the swap has no lockup txid, as that of a swap whose last call failed may have none. */
  predicate RecordLacksLockup(session: Session, sys: Sys, id: string)
  {
    var r := RecordOf(sys.entries, id);
    r.Some? && Decode(session, r.value).Some? && Decode(session, r.value).value.LockupTxid().None?
  }

  /** The event makes the session forget the lockup txid. */
  predicate Forgets(session: Session, sys: Sys, ev: Event, id: string)
    requires id in sys.live
  {
    && Target(ev) == id
    && match ev
       case Advance(_, _) => NamelessMempool(sys, id)
       case Restart(_, fetched) => RecordLacksLockup(session, sys, id) && (sys.live[id].swap.Reverse? || fetched.None?)
       case _ => false
  }

  lemma AdvanceForgetsIff(id: string, live: Live, a: Answers)
    requires live.swap.LockupTxid().Some?
    ensures var next := NextOwn(live.rx, id);
      Poll(id, live, a).live.swap.LockupTxid().None? <==>
      live.swap.Chain? && next.Some? && next.value.0.status == Some(TransactionMempool) && next.value.0.txid.None?
  {
    var next := NextOwn(live.rx, id);
    if next.Some? {
      LockupLostIff(live.swap, next.value.0, a);
    }
    hide Swap.Advance, Swap.LockupTxid;
  }

  lemma FillForgetsIff(d: Swap, fetched: Option<Txid>)
    ensures d.FillLockup(fetched).LockupTxid().None? <==> d.LockupTxid().None? && (d.Reverse? || fetched.None?)
  {}

  /** The event creates a swap anew; no live swap of a run can be. */
  predicate Creates(session: Session, sys: Sys, ev: Event)
  {
    ev.Create? && sys.Known(Target(ev)).CanCreate(session, ev.swap) && ev.swap.LockupTxid().None?
  }

  lemma OwnForgetsIff(session: Session, sys: Sys, ev: Event, id: string)
    requires id in sys.live && sys.live[id].swap.LockupTxid().Some? && Target(ev) == id
    requires RecordLacksLockup(session, sys, id) ==>
      Decode(session, RecordOf(sys.entries, id).value).value.Reverse? == sys.live[id].swap.Reverse?
    ensures var v := EventLive(session, id, sys.Known(id), ev);
      v.Some? && v.value.swap.LockupTxid().None? <==> Forgets(session, sys, ev, id) || Creates(session, sys, ev)
  {
    hide Poll, Decode, RecordOf;
    match ev
    case Advance(_, a) => AdvanceForgetsIff(id, sys.live[id], a);
    case Restart(_, fetched) =>
      var r := RecordOf(sys.entries, id);
      if r.Some? && Decode(session, r.value).Some? {
        FillForgetsIff(Decode(session, r.value).value, fetched);
        hide Swap.FillLockup;
      }
    case _ =>
  }

  lemma LiveIsCreated(session: Session, events: seq<Event>, id: string)
    requires session.Lawful() && id in Run(session, events).live
    ensures var sys := Run(session, events);
      && id in sys.created
      && (RecordLacksLockup(session, sys, id) ==>
            Decode(session, RecordOf(sys.entries, id).value).value.Reverse? == sys.live[id].swap.Reverse?)
  {
    hide Run, Pending, Completed, Own, Decode, Accounted, Swap.MadeBy;
    InvOfShare(session, events, id);
  }

  lemma OthersLeaveLockup(session: Session, sys: Sys, ev: Event, id: string)
    requires Target(ev) != id
    ensures LockupUnknown(Next(session, sys, ev), id) <==> LockupUnknown(sys, id)
  {
    hide EventOps, EventLive, EventMoves, EventCreated, ApplyAll, RecordOf;
  }

  lemma OwnLive(session: Session, sys: Sys, ev: Event, id: string)
    requires Target(ev) == id && id in sys.live
    ensures var v := EventLive(session, id, sys.Known(id), ev);
      LockupUnknown(Next(session, sys, ev), id) <==> v.Some? && v.value.swap.LockupTxid().None?
  {
    hide EventOps, EventMoves, EventCreated, ApplyAll, RecordOf, Poll, Restored, Swap.SetLockup, Swap.IsNew;
  }

  /**
   In every run, a known lockup txid is unknown after an event if and only if the event is an `advance` of a chain swap
   that is told of a lockup in the mempool without being told which, or a restart from a record that lacks it and
   that learns none from the server.
   */
  lemma LockupForgottenIff(session: Session, events: seq<Event>, ev: Event, id: string)
    requires session.Lawful()
    requires id in Run(session, events).live && Run(session, events).live[id].swap.LockupTxid().Some?
    ensures LockupUnknown(Run(session, events + [ev]), id) <==> Forgets(session, Run(session, events), ev, id)
  {
    hide Run, Next, Forgets, RecordLacksLockup, LockupUnknown, EventLive, RecordOf, Swap.LockupTxid, Swap.IsNew;
    var sys := Run(session, events);
    RunOneMore(session, events, ev);
    LiveIsCreated(session, events, id);
    if Target(ev) == id {
      OwnForgetsIff(session, sys, ev, id);
      OwnLive(session, sys, ev, id);
    } else {
      OthersLeaveLockup(session, sys, ev, id);
      NotAboutIt(session, sys, ev, id);
    }
  }

  lemma NotAboutIt(session: Session, sys: Sys, ev: Event, id: string)
    requires id in sys.live && Target(ev) != id && sys.live[id].swap.LockupTxid().Some?
    ensures !Forgets(session, sys, ev, id) && !LockupUnknown(sys, id)
  {}

  lemma ClaimNotBuilt(s: Swap, u: Update, a: Answers)
    requires s.Reverse? && !s.invoice.claimBroadcasted && s.invoice.lockupTxid.None?
    requires u.status == Some(TransactionMempool) && u.txid.Some? && a.indexed && !a.constructed
    ensures var o := s.Advance(u, a);
      && o.result.Err? && o.data == Reverse(s.invoice.(lastState := TransactionMempool, lockupTxid := u.txid))
  {}

  /**
   It happens: a reverse swap sees its lockup and cannot build the claim; the call fails with the txid in memory and
   not in the record, and a restart forgets it.
   */
  lemma FailedClaimForgets(session: Session, s: Swap, a: Answers, txid: Txid) returns (events: seq<Event>)
    requires session.Lawful() && s.Reverse? && s.IsNew(session) && s.invoice.lockupTxid.None?
    requires a.indexed && !a.constructed
    ensures var sys := Run(session, events);
      s.Id() in sys.live && sys.live[s.Id()].swap.LockupTxid() == Some(txid)
    ensures LockupUnknown(Run(session, events + [Restart(s.Id(), None)]), s.Id())
  {
    var id, u := s.Id(), Update(s.Id(), Some(TransactionMempool), Some(txid));
    events := [Create(s)] + [Publish(u)] + [Advance(id, a)];
    CreateNew(session, s);
    Tell(session, [Create(s)], id, u, a);
    ClaimNotBuilt(s, u, a);
    RecordAfterFailure(session, s, u, a);
    hide Run, Swap.Advance, Swap.Encode, Decode, Swap.IsNew, RecordOf;
    StoredFormReadsBack(session, s);
    LockupForgottenIff(session, events, Restart(id, None), id);
  }

  lemma RecordAfterFailure(session: Session, s: Swap, u: Update, a: Answers)
    requires s.IsNew(session) && u.id == s.Id() && s.Advance(u, a).result.Err?
    ensures var sys := Run(session, [Create(s)] + [Publish(u)] + [Advance(s.Id(), a)]);
      RecordOf(sys.entries, s.Id()) == Some(s.Encode(session))
  {
    hide Run, Next, Swap.Advance, Swap.Encode, Swap.IsNew, Swap.Id, RecordOf;
    var id := s.Id();
    CreateNew(session, s);
    CreatedRecord(session, s);
    RunOneMore(session, [Create(s)], Publish(u));
    RunOneMore(session, [Create(s)] + [Publish(u)], Advance(id, a));
    PublishTo(session, Run(session, [Create(s)]), id, u);
    PublishWritesNothing(session, Run(session, [Create(s)]), u);
    AdvanceNext(session, Run(session, [Create(s)] + [Publish(u)]), id, a);
    assert [] + [u] == [u];
  }

  lemma CreatedRecord(session: Session, s: Swap)
    requires s.IsNew(session)
    ensures RecordOf(Run(session, [Create(s)]).entries, s.Id()) == Some(s.Encode(session))
  {
    hide Swap.IsNew, Swap.Encode, Swap.Id, Apply;
    assert [Create(s)][..0] == [];
    ApplyOps(map[], Persist(s.Id(), s.Encode(session)), AddToPending(s.Id()));
  }
}
