/**
 A restart is invisible in the whole session: in the store, in every other swap, and in everything
 that is reported later (lwk_boltz/src/reverse.rs, submarine.rs, chain_swaps.rs, store.rs).
 */
module SwapRestart {
  import opened Prelude
  import opened SwapTypes
  import opened Swap
  import opened SwapStore
  import opened SwapSystem
  import opened SwapRuns
  import opened SwapResponses
  import opened SwapCompletion

  // ------------------------------------------------------------------ moving to completed twice

  /** The lists are lists, and the pending one was written before anything was completed. */
  predicate ListsWritten(e: Entries)
  {
    && (PENDING_SWAPS_KEY in e ==> e[PENDING_SWAPS_KEY].Ids?)
    && (COMPLETED_SWAPS_KEY in e ==> PENDING_SWAPS_KEY in e)
  }

  lemma ApplyWritesLists(e: Entries, op: Op)
    requires ListsWritten(e)
    ensures ListsWritten(Apply(e, op))
  {
    KeysApart(op.id, op.id);
  }

  lemma {:induction false} ListsAlwaysWritten(ops: seq<Op>)
    ensures ListsWritten(ApplyAll(map[], ops))
  {
    if ops == [] {
    } else {
      hide Apply;
      ListsAlwaysWritten(ops[..|ops| - 1]);
      ApplyWritesLists(ApplyAll(map[], ops[..|ops| - 1]), ops[|ops| - 1]);
    }
  }

  /** Moving a completed swap to the completed list again writes what is there. */
  lemma MovingAgain(e: Entries, id: string)
    requires ListsWritten(e) && id in Completed(e) && id !in Pending(e)
    ensures Apply(e, MoveToCompleted(id)) == e
  {
    WithoutAbsent(Pending(e), id);
  }

  // ------------------------------------------------------------------ sessions that look alike

  /** Two states of a session that differ at most in the label and the polling flag of one swap. */
  ghost predicate Alike(sys: Sys, sys': Sys, id: string)
  {
    && sys.entries == sys'.entries && sys.created == sys'.created
    && (forall other :: sys.MovesOf(other) == sys'.MovesOf(other))
    && sys.live.Keys == sys'.live.Keys
    && (forall other | other in sys.live && other != id :: sys.live[other] == sys'.live[other])
    && (id in sys.live ==> AlikeLive(sys.live[id], sys'.live[id]))
  }

  predicate AlikeLive(live: Live, live': Live)
  {
    live.rx == live'.rx && live.swap.Unlabelled() == live'.swap.Unlabelled()
  }

  lemma AlikeReverse(live: Live, live': Live)
    requires AlikeLive(live, live')
    ensures live.swap.Reverse? ==> live'.swap == live.swap
  {}

  /** An event does the same to both, and reports the same. */
  lemma AlikeEvent(session: Session, id: string, k: Facts, k': Facts, ev: Event)
    requires Target(ev) == id && k.record == k'.record && k.created == k'.created && k.live.Some? == k'.live.Some?
    requires k.live.Some? ==> AlikeLive(k.live.value, k'.live.value)
    ensures var v, v' := EventLive(session, id, k, ev), EventLive(session, id, k', ev);
      && EventOps(session, id, k, ev) == EventOps(session, id, k', ev)
      && EventMoves(id, k, ev) == EventMoves(id, k', ev)
      && EventCreated(session, k, ev) == EventCreated(session, k', ev)
      && SameResult(EventResult(id, k, ev), EventResult(id, k', ev))
      && v.Some? == v'.Some? && (v.Some? ==> AlikeLive(v.value, v'.value))
  {
    if k.live.Some? {
      hide EventOps, EventMoves, EventCreated, EventResult, EventLive, Swap.Unlabelled;
      VisibleEvent(session, id, k, ev);
      VisibleEvent(session, id, k', ev);
      var norm := Some(Live(k.live.value.swap.Unlabelled(), k.live.value.rx, false));
      assert k.(live := norm) == k'.(live := norm);
    } else {
      assert k == k';
    }
  }

  lemma AlikeNextLive(session: Session, sys: Sys, sys': Sys, id: string, ev: Event)
    requires Alike(sys, sys', id)
    ensures var live, live' := NextLive(session, sys, ev), NextLive(session, sys', ev);
      && live.Keys == live'.Keys
      && (forall other | other in live && other != id :: live[other] == live'[other])
      && (id in live ==> AlikeLive(live[id], live'[id]))
  {
    hide EventLive, EventOps, EventMoves, EventCreated, EventResult, Target, Swap.Unlabelled, RecordOf;
    var t := Target(ev);
    if t == id {
      AlikeEvent(session, id, sys.Known(id), sys'.Known(id), ev);
    } else {
      assert sys.Known(t) == sys'.Known(t);
    }
  }

  lemma MovesOfNext(session: Session, sys: Sys, ev: Event, other: string)
    ensures Next(session, sys, ev).MovesOf(other)
      == if other == Target(ev) then sys.MovesOf(other) + EventMoves(other, sys.Known(other), ev)
         else sys.MovesOf(other)
  {
    hide NextLive, EventMoves, EventCreated, ApplyAll, Ops;
  }

  lemma AlikeNext(session: Session, sys: Sys, sys': Sys, id: string, ev: Event)
    requires Alike(sys, sys', id)
    ensures Alike(Next(session, sys, ev), Next(session, sys', ev), id)
  {
    hide EventLive, EventOps, EventMoves, EventCreated, EventResult, NextLive, AlikeLive, RecordOf, ApplyAll;
    AlikeNextLive(session, sys, sys', id, ev);
    var t := Target(ev);
    if t == id {
      AlikeEvent(session, id, sys.Known(id), sys'.Known(id), ev);
    } else {
      assert sys.Known(t) == sys'.Known(t);
    }
    forall other ensures Next(session, sys, ev).MovesOf(other) == Next(session, sys', ev).MovesOf(other) {
      MovesOfNext(session, sys, ev, other);
      MovesOfNext(session, sys', ev, other);
    }
  }

  lemma AlikeResult(session: Session, sys: Sys, sys': Sys, id: string, other: string, a: Answers)
    requires Alike(sys, sys', id)
    ensures SameResult(EventResult(other, sys.Known(other), Advance(other, a)),
                       EventResult(other, sys'.Known(other), Advance(other, a)))
  {
    hide EventResult, RecordOf;
    if other == id {
      AlikeEvent(session, id, sys.Known(id), sys'.Known(id), Advance(id, a));
    } else {
      assert sys.Known(other) == sys'.Known(other);
    }
  }

  function RunFrom(session: Session, sys: Sys, events: seq<Event>): Sys
  {
    if events == [] then sys
    else Next(session, RunFrom(session, sys, events[..|events| - 1]), events[|events| - 1])
  }

  lemma {:induction false} RunSplit(session: Session, before: seq<Event>, after: seq<Event>)
    ensures Run(session, before + after) == RunFrom(session, Run(session, before), after)
  {
    hide Next;
    if after == [] {
      assert before + after == before;
    } else {
      var n := |after| - 1;
      assert (before + after)[..|before + after| - 1] == before + after[..n];
      RunSplit(session, before, after[..n]);
    }
  }

  lemma {:induction false} AlikeRun(session: Session, sys: Sys, sys': Sys, id: string, events: seq<Event>)
    requires Alike(sys, sys', id)
    ensures Alike(RunFrom(session, sys, events), RunFrom(session, sys', events), id)
  {
    hide Next, Alike;
    if events == [] {
    } else {
      var n := |events| - 1;
      AlikeRun(session, sys, sys', id, events[..n]);
      AlikeNext(session, RunFrom(session, sys, events[..n]), RunFrom(session, sys', events[..n]), id, events[n]);
    }
  }

  // ------------------------------------------------------------------ the restart

  /** What the store would give back is what memory holds, and an end it would put down is put down. */
  predicate ReadsBack(session: Session, sys: Sys, id: string, fetched: Option<Txid>)
    requires id in sys.live
  {
    var r := Restored(session, RecordOf(sys.entries, id), fetched);
    && r.Some? && r.value.Unlabelled() == sys.live[id].swap.Unlabelled()
    && (r.value.LastState().IsTerminal() ==> id in Completed(sys.entries) && id !in Pending(sys.entries))
  }

  lemma MovingIsNothingIff(e: Entries, id: string)
    requires ListsWritten(e)
    ensures ApplyAll(e, [MoveToCompleted(id)]) == e <==> id in Completed(e) && id !in Pending(e)
  {
    hide Apply;
    ApplyOps(e, MoveToCompleted(id), MoveToCompleted(id));
    if id in Completed(e) && id !in Pending(e) {
      MovingAgain(e, id);
    } else {
      WithoutMembers(Pending(e), id, id);
      assert id in WithLast(Completed(e), id);
    }
  }

  lemma RestartMovesNothing(id: string, k: Facts, fetched: Option<Txid>)
    ensures EventMoves(id, k, Restart(id, fetched)) == []
  {}

  lemma RestartIsAlikeIff(session: Session, sys: Sys, id: string, fetched: Option<Txid>)
    requires id in sys.live && ListsWritten(sys.entries)
    ensures Alike(sys, Next(session, sys, Restart(id, fetched)), id) <==> ReadsBack(session, sys, id, fetched)
  {
    hide EventMoves, RecordOf, Pending, Completed, ApplyAll, ListsWritten, Swap.LastState,
      Swap.Unlabelled, Swap.Id, Restored;
    var ev := Restart(id, fetched);
    RestartMovesNothing(id, sys.Known(id), fetched);
    MovingIsNothingIff(sys.entries, id);
    NothingApplied(sys.entries);
    assert id in sys.created ==> sys.created + {id} == sys.created;
    forall other ensures Next(session, sys, ev).MovesOf(other) == sys.MovesOf(other) {
      MovesOfNext(session, sys, ev, other);
    }
  }

  lemma NothingApplied(e: Entries)
    ensures ApplyAll(e, []) == e
  {}

  lemma RunWritesLists(session: Session, events: seq<Event>)
    ensures ListsWritten(Run(session, events).entries)
  {
    hide Run, RunOps, ListsWritten;
    StoreOfRun(session, events);
    ListsAlwaysWritten(RunOps(session, events));
  }

  /** After these events, the run with the restart and the run without it look alike. */
  ghost predicate AlikeAfter(session: Session, before: seq<Event>, id: string, fetched: Option<Txid>, after: seq<Event>)
  {
    Alike(Run(session, before + after), Run(session, before + [Restart(id, fetched)] + after), id)
  }

  lemma AlikeEverAfter(session: Session, before: seq<Event>, id: string, fetched: Option<Txid>, after: seq<Event>)
    requires Alike(Run(session, before), Next(session, Run(session, before), Restart(id, fetched)), id)
    ensures AlikeAfter(session, before, id, fetched, after)
  {
    hide Run, Next, Alike;
    var restart := Restart(id, fetched);
    RunOneMore(session, before, restart);
    RunSplit(session, before, after);
    RunSplit(session, before + [restart], after);
    AlikeRun(session, Run(session, before), Run(session, before + [restart]), id, after);
  }

  /**
   At any point of any run, dropping a response and restoring it is invisible in the whole session, whatever
   follows, if and only if the store reads back as what memory holds.
   */
  lemma RestartIsInvisibleIff(session: Session, before: seq<Event>, id: string, fetched: Option<Txid>)
    requires id in Run(session, before).live
    ensures (forall after :: AlikeAfter(session, before, id, fetched, after)) <==>
      ReadsBack(session, Run(session, before), id, fetched)
  {
    hide Run, Next, Alike, AlikeAfter, ReadsBack;
    RunWritesLists(session, before);
    RestartIsAlikeIff(session, Run(session, before), id, fetched);
    if ReadsBack(session, Run(session, before), id, fetched) {
      forall after ensures AlikeAfter(session, before, id, fetched, after) {
        AlikeEverAfter(session, before, id, fetched, after);
      }
    } else {
      AlikeAtOnce(session, before, id, fetched);
    }
  }

  lemma AlikeAtOnce(session: Session, before: seq<Event>, id: string, fetched: Option<Txid>)
    ensures AlikeAfter(session, before, id, fetched, []) <==>
      Alike(Run(session, before), Next(session, Run(session, before), Restart(id, fetched)), id)
  {
    hide Run, Next, Alike;
    var restart := Restart(id, fetched);
    RunOneMore(session, before, restart);
    assert before + [] == before && before + [restart] + [] == before + [restart];
  }

  // ------------------------------------------------------------------ when the store reads back

  lemma SettledReadsBack(session: Session, sys: Sys, id: string, fetched: Option<Txid>)
    requires session.Lawful() && id in sys.live && Settled(session, Share(sys, id))
    requires sys.live[id].swap.MadeBy(session) && LockupKept(sys.live[id].swap, fetched)
    ensures ReadsBack(session, sys, id, fetched)
  {
    hide Swap.Encode, Decode, RecordOf, Pending, Completed, Own, Swap.MadeBy;
    var s := sys.live[id].swap;
    StoredFormReadsBack(session, s);
    FillKeepsState(s, fetched);
    FillKeepsLook(s, fetched);
  }

  lemma FillKeepsLook(s: Swap, fetched: Option<Txid>)
    requires LockupKept(s, fetched)
    ensures s.Unlabelled().FillLockup(fetched).Unlabelled() == s.Unlabelled()
  {}

  /** The event leaves memory and store in agreement about its swap. */
  predicate Settles(session: Session, sys: Sys, ev: Event)
  {
    var id := Target(ev);
    match ev
    case Advance(_, a) => id in sys.live && Poll(id, sys.live[id], a).result.Ok?
    case Create(s) => sys.Known(id).CanCreate(session, s) && !s.LastState().IsTerminal()
    case SetLockup(_, _) =>
      && sys.Known(id).CanSetLockup()
      && (sys.live[id].swap.LastState().IsTerminal() ==> id in Completed(sys.entries) && id !in Pending(sys.entries))
    case _ => false
  }

  lemma SettlesNext(session: Session, before: seq<Event>, ev: Event)
    requires session.Lawful() && Settles(session, Run(session, before), ev)
    ensures Settled(session, Share(Next(session, Run(session, before), ev), Target(ev)))
  {
    hide Run, Next, LocalNext, Settled, Poll, RecordOf, Pending, Completed, Own, Swap.LastState, Swap.IsNew;
    var sys, id := Run(session, before), Target(ev);
    OwnEvent(session, sys, ev, id);
    match ev
    case Advance(_, a) => AdvanceSettles(session, id, Share(sys, id), a);
    case Create(s) =>
      InvOfShare(session, before, id);
      CreationSettles(session, id, Share(sys, id), s);
    case SetLockup(_, txid) => SetLockupSettles(session, id, Share(sys, id), txid);
    case _ =>
  }

  /** Publications, and events of other swaps, leave it so. */
  lemma QuietKeepsSettled(session: Session, sys: Sys, ev: Event, id: string)
    requires Settled(session, Share(sys, id)) && (Target(ev) != id || ev.Publish?)
    ensures Settled(session, Share(Next(session, sys, ev), id))
  {
    hide Next, RecordOf, Pending, Completed, Own, Swap.Encode, Swap.LastState;
    if Target(ev) != id {
      OtherEvent(session, sys, ev, id);
    } else {
      OwnEvent(session, sys, ev, id);
      NoLocalOps(Share(sys, id));
    }
  }

  /** An event of the run settled the swap, and since then there were only publications and other swaps' events. */
  predicate SettledSince(session: Session, events: seq<Event>, id: string, n: nat)
  {
    && n < |events| && Target(events[n]) == id && Settles(session, Run(session, events[..n]), events[n])
    && forall i | n < i < |events| :: Target(events[i]) != id || events[i].Publish?
  }

  lemma {:induction false} SettledInRun(session: Session, events: seq<Event>, id: string, n: nat)
    requires session.Lawful() && SettledSince(session, events, id, n)
    ensures id in Run(session, events).live && Settled(session, Share(Run(session, events), id))
  {
    hide Next, Settles, Share;
    var m := |events| - 1;
    var before := events[..m];
    assert events == before + [events[m]];
    if n == m {
      SettlesNext(session, before, events[m]);
    } else {
      assert before[..n] == events[..n];
      SettledInRun(session, before, id, n);
      QuietKeepsSettled(session, Run(session, before), events[m], id);
    }
    SettledIsLive(session, Run(session, events), id);
  }

  lemma SettledIsLive(session: Session, sys: Sys, id: string)
    requires Settled(session, Share(sys, id))
    ensures id in sys.live
  {}

  /**
   Dropping a response and restoring it changes nothing in the whole session if the last thing done to the swap was a
   call of `advance` that returned without error, its creation in a state that is not terminal, or
   `set_lockup_txid`, however many updates came in since: whatever follows, the store is the same to
   the last list, so is every other swap, and every later call reports the same.
   */
  lemma SessionRestartIsInvisible(session: Session, id: string, before: seq<Event>, n: nat, fetched: Option<Txid>,
                                  after: seq<Event>, other: string, a: Answers)
    requires session.Lawful() && SettledSince(session, before, id, n)
    requires id in Run(session, before).live ==> LockupKept(Run(session, before).live[id].swap, fetched)
    ensures var sys, sys' := Run(session, before + after), Run(session, before + [Restart(id, fetched)] + after);
      && sys.entries == sys'.entries
      && Alike(sys, sys', id)
      && (id in sys.live && sys.live[id].swap.Reverse? ==> sys'.live[id].swap == sys.live[id].swap)
      && SameResult(EventResult(other, sys.Known(other), Advance(other, a)),
                    EventResult(other, sys'.Known(other), Advance(other, a)))
  {
    hide AlikeLive, Settled, SettledSince, LockupKept, EventResult, Next, Run, ReadsBack, Inv, RecordOf;
    SettledInRun(session, before, id, n);
    LiveSwapsReadBack(session, before, id);
    SettledReadsBack(session, Run(session, before), id, fetched);
    RestartIsInvisibleIff(session, before, id, fetched);
    assert AlikeAfter(session, before, id, fetched, after);
    var sys, sys' := Run(session, before + after), Run(session, before + [Restart(id, fetched)] + after);
    if id in sys.live {
      AlikeReverse(sys.live[id], sys'.live[id]);
    }
    AlikeResult(session, sys, sys', id, other, a);
  }

  /** Every live swap of a run is the session's own, and reads back from its stored form. */
  lemma LiveSwapsReadBack(session: Session, events: seq<Event>, id: string)
    requires session.Lawful() && id in Run(session, events).live
    ensures var s := Run(session, events).live[id].swap;
      && s.MadeBy(session) && Decode(session, s.Encode(session)) == Some(s.Unlabelled())
  {
    hide Run, RecordOk, Accounted, Swap.MadeBy, Swap.Encode, Decode, RecordOf, Pending, Completed, Own;
    InvOfShare(session, events, id);
    StoredFormReadsBack(session, Run(session, events).live[id].swap);
  }
}
