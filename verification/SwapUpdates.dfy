/**
 Which updates a swap gets to handle, how it hears of none, and how long it stays live
 (lwk_boltz/src/lib.rs, reverse.rs, submarine.rs, chain_swaps.rs).
 */
module SwapUpdates {
  import opened Prelude
  import opened SwapTypes
  import opened Swap
  import opened SwapStore
  import opened SwapSystem
  import opened SwapRuns
  import opened SwapCompletion

  // ------------------------------------------------------------------ live and created swaps

  predicate Creates(session: Session, sys: Sys, ev: Event, id: string)
  {
    ev.Create? && ev.swap.Id() == id && id !in sys.created && ev.swap.IsNew(session)
  }

  /** A restart that finds no record. */
  predicate Loses(sys: Sys, ev: Event, id: string)
  {
    ev.Restart? && ev.id == id && RecordOf(sys.entries, id).None?
  }

  lemma InvFacts(session: Session, events: seq<Event>, id: string)
    requires session.Lawful()
    ensures var sys := Run(session, events);
      && (id in sys.live ==> id in sys.created)
      && (RecordOf(sys.entries, id).Some? ==>
            id in sys.live && Decode(session, RecordOf(sys.entries, id).value).Some?)
  {
    hide Run, Pending, Completed, Own, Decode, LiveOk;
    InvOfShare(session, events, id);
  }

  lemma LiveNext(session: Session, sys: Sys, ev: Event, id: string)
    requires id in sys.live ==> id in sys.created
    requires RecordOf(sys.entries, id).Some? ==>
      id in sys.live && Decode(session, RecordOf(sys.entries, id).value).Some?
    ensures id in Next(session, sys, ev).live <==>
      (id in sys.live && !Loses(sys, ev, id)) || Creates(session, sys, ev, id)
    ensures id in Next(session, sys, ev).created <==> id in sys.created || Creates(session, sys, ev, id)
  {
    hide EventOps, EventMoves, ApplyAll, RecordOf, Poll, Swap.SetLockup, Swap.FillLockup, Swap.IsNew, Swap.Id, Decode;
  }

  /**
   In every run, a swap is live from its creation until a restart finds no record of it: neither an end nor a removal
   takes the response from whoever holds it, and once gone it does not come back.
   */
  lemma LiveIff(session: Session, events: seq<Event>, ev: Event, id: string)
    requires session.Lawful()
    ensures var sys := Run(session, events);
      id in Run(session, events + [ev]).live <==>
      (id in sys.live && !Loses(sys, ev, id)) || Creates(session, sys, ev, id)
  {
    hide Run, Next, Loses, Creates, RecordOf, Decode;
    RunOneMore(session, events, ev);
    InvFacts(session, events, id);
    LiveNext(session, Run(session, events), ev, id);
  }

  /** The event writes the record of the swap. */
  predicate WritesRecord(session: Session, sys: Sys, ev: Event, id: string)
  {
    || Creates(session, sys, ev, id)
    || (ev.Advance? && ev.id == id && id in sys.live && Poll(id, sys.live[id], ev.answers).result.Ok?)
    || (ev.SetLockup? && ev.id == id && id in sys.live && !sys.live[id].swap.Reverse?)
  }

  lemma OpsOfRecord(e: Entries, ops: seq<Op>, id: string)
    requires |ops| <= 2
    ensures RecordOf(ApplyAll(e, ops), id).Some? <==>
      if |ops| == 2 && ops[1].Persist? && ops[1].id == id then true
      else if |ops| == 2 && ops[1].RemoveSwap? && ops[1].id == id then false
      else if |ops| > 0 && ops[0].Persist? && ops[0].id == id then true
      else if |ops| > 0 && ops[0].RemoveSwap? && ops[0].id == id then false
      else RecordOf(e, id).Some?
  {
    hide RecordOf, Pending, Completed;
    if |ops| == 1 {
      assert ops[..0] == [];
    } else if |ops| == 2 {
      assert ops[..1][..0] == [];
    }
  }

  lemma RecordNext(session: Session, sys: Sys, ev: Event, id: string)
    ensures RecordOf(Next(session, sys, ev).entries, id).Some? <==>
      WritesRecord(session, sys, ev, id) || (RecordOf(sys.entries, id).Some? && ev != Remove(id))
  {
    hide RecordOf, Poll, Restored, Swap.SetLockup, Swap.IsNew, Swap.Id, Swap.Encode, Apply, ApplyAll, EventLive;
    OpsOfRecord(sys.entries, Ops(session, sys, ev), id);
  }

  /**
   In every run, a swap has a record after an event exactly if the event wrote it or it had one and was not removed: a
   call without error writes it again after a removal.
   */
  lemma RecordThereIff(session: Session, events: seq<Event>, ev: Event, id: string)
    ensures var sys := Run(session, events);
      RecordOf(Run(session, events + [ev]).entries, id).Some? <==>
      WritesRecord(session, sys, ev, id) || (RecordOf(sys.entries, id).Some? && ev != Remove(id))
  {
    hide Run, Next, WritesRecord, RecordOf;
    RunOneMore(session, events, ev);
    RecordNext(session, Run(session, events), ev, id);
  }

  // ------------------------------------------------------------------ each update once, in order

  /** The update that an event handles for a swap. */
  function HandledBy(sys: Sys, ev: Event, id: string): seq<Update>
  {
    if ev.Advance? && ev.id == id && id in sys.live && Own(sys.live[id].rx, id) != []
    then [Own(sys.live[id].rx, id)[0]] else []
  }

  /** The update that an event publishes to a live swap. */
  function PublishedBy(sys: Sys, ev: Event, id: string): seq<Update>
  {
    if ev.Publish? && ev.update.id == id && id in sys.live then [ev.update] else []
  }

  function Handled(session: Session, events: seq<Event>, id: string): seq<Update>
  {
    if events == [] then []
    else
      var before := events[..|events| - 1];
      Handled(session, before, id) + HandledBy(Run(session, before), events[|events| - 1], id)
  }

  function Published(session: Session, events: seq<Event>, id: string): seq<Update>
  {
    if events == [] then []
    else
      var before := events[..|events| - 1];
      Published(session, before, id) + PublishedBy(Run(session, before), events[|events| - 1], id)
  }

  lemma OwnAppend(rx: seq<Update>, u: Update, id: string)
    ensures Own(rx + [u], id) == Own(rx, id) + if u.id == id then [u] else []
  {
    assert (rx + [u])[..|rx|] == rx;
  }

  lemma PollTakesFirst(id: string, live: Live, a: Answers)
    ensures var own, left := Own(live.rx, id), Own(Poll(id, live, a).live.rx, id);
      (if own != [] then [own[0]] else []) + left == own
  {
    hide Swap.Advance, Own;
    NextOwnIsHead(live.rx, id);
    if NextOwn(live.rx, id).None? {
      assert Own([], id) == [] by { OwnNothing(id); }
    }
  }

  lemma OwnNothing(id: string)
    ensures Own([], id) == []
  {}

  lemma ReceiverNext(session: Session, sys: Sys, ev: Event, id: string)
    requires id in sys.live && id in sys.created && id in Next(session, sys, ev).live
    ensures HandledBy(sys, ev, id) + Own(Next(session, sys, ev).live[id].rx, id)
         == Own(sys.live[id].rx, id) + PublishedBy(sys, ev, id)
  {
    hide EventOps, EventMoves, EventCreated, ApplyAll, RecordOf, Poll, Restored, Swap.SetLockup, Swap.IsNew, Swap.Id,
      Own;
    match ev
    case Publish(u) => OwnAppend(sys.live[id].rx, u, id);
    case Advance(i, a) => PollTakesFirst(id, sys.live[id], a);
    case _ =>
  }

  lemma {:induction false} UncreatedHeardNothing(session: Session, events: seq<Event>, id: string)
    requires session.Lawful() && id !in Run(session, events).created
    ensures Handled(session, events, id) == [] && Published(session, events, id) == []
  {
    hide Run, Next, Own, Creates, RecordOf, Decode, Loses;
    if events == [] {
    } else {
      var before, ev := events[..|events| - 1], events[|events| - 1];
      assert events == before + [ev];
      RunOneMore(session, before, ev);
      InvFacts(session, before, id);
      LiveNext(session, Run(session, before), ev, id);
      UncreatedHeardNothing(session, before, id);
    }
  }

  lemma CreatedHearsNothingYet(session: Session, sys: Sys, ev: Event, id: string)
    requires Creates(session, sys, ev, id) && id in Next(session, sys, ev).live
    ensures Next(session, sys, ev).live[id].rx == [] && Next(session, sys, ev).live[id].polling == session.polling
  {
    hide EventOps, EventMoves, EventCreated, ApplyAll, RecordOf, Poll, Restored, Swap.SetLockup, Swap.IsNew, Swap.Id;
  }

  /**
   In every run, what was published to a live swap since its creation is what its calls handled, in that order, each
   update once, followed by what is still to be read; restarts lose nothing and repeat nothing.
   */
  lemma {:induction false} EachUpdateOnce(session: Session, events: seq<Event>, id: string)
    requires session.Lawful() && id in Run(session, events).live
    ensures Handled(session, events, id) + Own(Run(session, events).live[id].rx, id) == Published(session, events, id)
  {
    hide Run, Next, Own, Creates, RecordOf, Decode, Loses, HandledBy, PublishedBy;
    if events == [] {
      assert Run(session, events) == START by { NothingYet(session); }
    } else {
      var before, ev := events[..|events| - 1], events[|events| - 1];
      assert events == before + [ev];
      var sys := Run(session, before);
      RunOneMore(session, before, ev);
      InvFacts(session, before, id);
      LiveNext(session, sys, ev, id);
      if id in sys.live {
        EachUpdateOnce(session, before, id);
        ReceiverNext(session, sys, ev, id);
        var handled, left := Handled(session, before, id), Own(Next(session, sys, ev).live[id].rx, id);
        assert handled + HandledBy(sys, ev, id) + left == handled + (HandledBy(sys, ev, id) + left);
        assert handled + (Own(sys.live[id].rx, id) + PublishedBy(sys, ev, id))
            == handled + Own(sys.live[id].rx, id) + PublishedBy(sys, ev, id);
      } else {
        FirstHeard(session, before, ev, id);
      }
    }
  }

  lemma NothingYet(session: Session)
    ensures Run(session, []) == START
  {}

  lemma FirstHeard(session: Session, before: seq<Event>, ev: Event, id: string)
    requires session.Lawful() && Creates(session, Run(session, before), ev, id)
    requires id in Next(session, Run(session, before), ev).live
    ensures Handled(session, before, id) == [] && Published(session, before, id) == []
    ensures HandledBy(Run(session, before), ev, id) == [] && PublishedBy(Run(session, before), ev, id) == []
    ensures Own(Next(session, Run(session, before), ev).live[id].rx, id) == []
  {
    hide Run, Next, Handled, Published;
    UncreatedHeardNothing(session, before, id);
    CreatedHearsNothingYet(session, Run(session, before), ev, id);
  }

  // ------------------------------------------------------------------ silence

  /** Event `k` ended the swap, which was not restarted since. */
  ghost predicate EndedAt(session: Session, events: seq<Event>, id: string, k: nat)
  {
    && k < |events| && EndsIt(Run(session, events[..k]), events[k], id)
    && forall j | k < j < |events| :: !RestartOf(events[j], id)
  }

  predicate EndsIt(sys: Sys, ev: Event, id: string)
  {
    ev.Advance? && ev.id == id && id in sys.live && Poll(id, sys.live[id], ev.answers).result.Completed()
  }

  predicate RestartOf(ev: Event, id: string)
  {
    ev.Restart? && ev.id == id
  }

  ghost predicate EndedSince(session: Session, events: seq<Event>, id: string)
  {
    exists k: nat :: EndedAt(session, events, id, k)
  }

  lemma EndedSinceNext(session: Session, before: seq<Event>, ev: Event, id: string)
    ensures EndedSince(session, before + [ev], id) <==>
      EndsIt(Run(session, before), ev, id) || (EndedSince(session, before, id) && !RestartOf(ev, id))
  {
    hide Run, EndsIt, RestartOf;
    var events, n := before + [ev], |before|;
    assert events[..n] == before && events[n] == ev;
    if EndedSince(session, events, id) {
      var k: nat :| EndedAt(session, events, id, k);
      if k < n {
        assert events[..k] == before[..k];
        assert forall j | k < j < n :: before[j] == events[j];
        assert EndedAt(session, before, id, k);
        assert !RestartOf(events[n], id);
      }
    }
    if EndsIt(Run(session, before), ev, id) {
      assert EndedAt(session, events, id, n);
    } else if EndedSince(session, before, id) && !RestartOf(ev, id) {
      var k: nat :| EndedAt(session, before, id, k);
      assert events[..k] == before[..k];
      assert EndedAt(session, events, id, k);
    }
  }

  lemma PollRaisesFlag(id: string, live: Live, a: Answers)
    ensures Poll(id, live, a).live.polling <==> live.polling || Poll(id, live, a).result.Completed()
  {
    hide Swap.Advance;
  }

  lemma PollingNext(session: Session, sys: Sys, ev: Event, id: string)
    requires id in sys.live && id in sys.created && id in Next(session, sys, ev).live
    ensures Next(session, sys, ev).live[id].polling <==>
      if RestartOf(ev, id) then session.polling else sys.live[id].polling || EndsIt(sys, ev, id)
  {
    hide EventOps, EventMoves, EventCreated, ApplyAll, RecordOf, Poll, Restored, Swap.SetLockup, Swap.IsNew, Swap.Id;
    match ev
    case Advance(i, a) => PollRaisesFlag(id, sys.live[id], a);
    case _ =>
  }

  lemma NothingEnded(session: Session, id: string)
    ensures !EndedSince(session, [], id)
  {}

  lemma EndsOnlyLive(sys: Sys, ev: Event, id: string)
    ensures EndsIt(sys, ev, id) ==> id in sys.live
  {}

  lemma {:induction false} UncreatedNeverEnded(session: Session, events: seq<Event>, id: string)
    requires session.Lawful() && id !in Run(session, events).created
    ensures !EndedSince(session, events, id)
  {
    hide Run, Next, EndedSince, EndsIt, RestartOf, Creates, RecordOf, Decode, Loses;
    if events == [] {
      NothingEnded(session, id);
    } else {
      var before, ev := events[..|events| - 1], events[|events| - 1];
      assert events == before + [ev];
      RunOneMore(session, before, ev);
      InvFacts(session, before, id);
      LiveNext(session, Run(session, before), ev, id);
      UncreatedNeverEnded(session, before, id);
      EndedSinceNext(session, before, ev, id);
      EndsOnlyLive(Run(session, before), ev, id);
    }
  }

  lemma {:induction false} PollingIff(session: Session, events: seq<Event>, id: string)
    requires session.Lawful() && id in Run(session, events).live
    ensures Run(session, events).live[id].polling <==> session.polling || EndedSince(session, events, id)
  {
    hide Run, Next, Creates, RecordOf, Decode, Loses, EndsIt, RestartOf, EndedSince;
    if events == [] {
      NothingYet(session);
    } else {
      var before, ev := events[..|events| - 1], events[|events| - 1];
      assert events == before + [ev];
      var sys := Run(session, before);
      RunOneMore(session, before, ev);
      InvFacts(session, before, id);
      LiveNext(session, sys, ev, id);
      EndedSinceNext(session, before, ev, id);
      if id in sys.live {
        PollingIff(session, before, id);
        PollingNext(session, sys, ev, id);
        RestartEndsNothing(sys, ev, id);
      } else {
        CreationEndsNothing(session, sys, ev, id);
        UncreatedNeverEnded(session, before, id);
        CreatedHearsNothingYet(session, sys, ev, id);
      }
    }
  }

  lemma RestartEndsNothing(sys: Sys, ev: Event, id: string)
    ensures RestartOf(ev, id) ==> !EndsIt(sys, ev, id)
  {}

  lemma CreationEndsNothing(session: Session, sys: Sys, ev: Event, id: string)
    requires Creates(session, sys, ev, id)
    ensures !EndsIt(sys, ev, id) && !RestartOf(ev, id) && id !in sys.created
  {}

  /**
   In every run, a call without an update for its swap changes no data, writes nothing and moves nothing. It says that
   there is no update yet if the session polls or the swap ended since its last restart, and times out otherwise.
   */
  lemma SilentCall(session: Session, events: seq<Event>, id: string, a: Answers)
    requires session.Lawful() && id in Run(session, events).live && Own(Run(session, events).live[id].rx, id) == []
    ensures var sys := Run(session, events);
      var p := Poll(id, sys.live[id], a);
      && p.result == Err(if session.polling || EndedSince(session, events, id) then NoBoltzUpdate else Timeout)
      && p.moves == [] && PollOps(session, id, p) == [] && p.live == sys.live[id].(rx := [])
  {
    hide Run, EndedSince, Own, Swap.Advance;
    PollingIff(session, events, id);
    NextOwnIsHead(Run(session, events).live[id].rx, id);
  }
}
