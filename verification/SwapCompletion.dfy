/** Running a swap to completion is a run of the session (lwk_boltz/src/reverse.rs, submarine.rs, chain_swaps.rs). */
module SwapCompletion {
  import opened Prelude
  import opened SwapTypes
  import opened Swap
  import opened SwapStore
  import opened SwapSystem
  import opened SwapRuns
  import opened SwapResponses

  /** A claim with the txid in the data went out, to the address given for it. */
  ghost predicate OurClaimWentOut(s: Swap, moves: seq<Move>)
  {
    exists m :: m in moves && m.Claim? && s.ClaimTxid() == Some(m.txid) && s.Pays(m)
  }

  /** A refund with the txid in the data went out, to the address given for it. */
  ghost predicate OurRefundWentOut(s: Swap, moves: seq<Move>)
  {
    exists m :: m in moves && m.Refund? && s.RefundTxid() == Some(m.txid) && s.Pays(m)
  }

  /** The events are calls of `advance` on one swap, and the last of them returned this. */
  predicate Calls(session: Session, id: string, before: seq<Event>, calls: seq<Event>, result: Result)
  {
    && calls != []
    && (forall i :: 0 <= i < |calls| ==> calls[i].Advance? && calls[i].id == id)
    && EventResult(id, Run(session, before + calls[..|calls| - 1]).Known(id), calls[|calls| - 1]) == Some(result)
  }

  lemma AdvanceNext(session: Session, sys: Sys, id: string, a: Answers)
    requires id in sys.live
    ensures var sys', p := Next(session, sys, Advance(id, a)), Poll(id, sys.live[id], a);
      && id in sys'.live && sys'.live[id] == p.live
      && sys'.entries == ApplyAll(sys.entries, PollOps(session, id, p))
      && sys'.MovesOf(id) == sys.MovesOf(id) + p.moves
      && EventResult(id, sys.Known(id), Advance(id, a)) == Some(p.result)
  {
    hide Poll, PollOps;
  }

  lemma RunOneMore(session: Session, before: seq<Event>, ev: Event)
    ensures Run(session, before + [ev]) == Next(session, Run(session, before), ev)
  {
    assert (before + [ev])[..|before|] == before;
    hide Next;
  }

  lemma PollShortens(id: string, live: Live, a: Answers)
    requires Poll(id, live, a).result.Ok?
    ensures |Poll(id, live, a).live.rx| < |live.rx|
  {
    NextOwnShorter(live.rx, id);
    hide Swap.Advance;
  }

  lemma CompletionUnfolds(session: Session, id: string, live: Live, e: Entries, answers: nat -> Answers, i: nat)
    ensures var p := Poll(id, live, answers(i));
      var e' := ApplyAll(e, PollOps(session, id, p));
      ToCompletion(session, id, live, e, answers, i)
      == if p.result != Ok(Continue) then Completion(p.live, e', p.moves, p.result)
         else var c := ToCompletion(session, id, p.live, e', answers, i + 1); c.(moves := p.moves + c.moves)
  {
    hide Poll, PollOps, ApplyAll;
  }

  /** Calling a response until it ends is a row of `advance` events in the session, to the same effect. */
  lemma {:induction false} CompletionIsRun(session: Session, before: seq<Event>, id: string,
                          answers: nat -> Answers, i: nat)
    returns (calls: seq<Event>)
    requires id in Run(session, before).live
    ensures var sys := Run(session, before);
      var c, sys' := ToCompletion(session, id, sys.live[id], sys.entries, answers, i), Run(session, before + calls);
      && Calls(session, id, before, calls, c.result)
      && id in sys'.live && sys'.live[id] == c.live && sys'.entries == c.entries
      && sys'.MovesOf(id) == sys.MovesOf(id) + c.moves
    decreases |Run(session, before).live[id].rx|
  {
    hide Poll, PollOps, Next, EventResult, ToCompletion;
    var sys := Run(session, before);
    var p := Poll(id, sys.live[id], answers(i));
    var ev := Advance(id, answers(i));
    AdvanceNext(session, sys, id, answers(i));
    RunOneMore(session, before, ev);
    CompletionUnfolds(session, id, sys.live[id], sys.entries, answers, i);
    if p.result == Ok(Continue) {
      PollShortens(id, sys.live[id], answers(i));
      var rest := CompletionIsRun(session, before + [ev], id, answers, i + 1);
      calls := [ev] + rest;
      assert before + calls == before + [ev] + rest;
      assert before + calls[..|calls| - 1] == before + [ev] + rest[..|rest| - 1];
    } else {
      calls := [ev];
      assert before + calls[..|calls| - 1] == before;
    }
  }

  /**
   `complete` returns true only if funds moved: our own claim when the server has claimed its part, our
   own refund otherwise. It does not matter what the swap, or any other, went through before.
   */
  lemma ChainCompleteMovedFunds(session: Session, before: seq<Event>, id: string, answers: nat -> Answers)
    requires session.Lawful() && id in Run(session, before).live
    requires var sys := Run(session, before);
      var c := ToCompletion(session, id, sys.live[id], sys.entries, answers, 0);
      c.live.swap.Chain? && c.result == Ok(Break(true))
    ensures var sys := Run(session, before);
      var c := ToCompletion(session, id, sys.live[id], sys.entries, answers, 0);
      var moves := sys.MovesOf(id) + c.moves;
      if c.live.swap.LastState() == TransactionClaimed
      then OurClaimWentOut(c.live.swap, moves)
      else OurRefundWentOut(c.live.swap, moves)
  {
    hide Poll, PollOps, Next, ToCompletion, Swap.Advance, Accounted, Inv;
    var calls := CompletionIsRun(session, before, id, answers, 0);
    var last := calls[|calls| - 1];
    var earlier := before + calls[..|calls| - 1];
    assert earlier + [last] == before + calls;
    RunOneMore(session, earlier, last);
    SuccessInRun(session, earlier, id, last.answers);
  }

  /** The same of a single call at the end of any run. */
  lemma SuccessInRun(session: Session, events: seq<Event>, id: string, a: Answers)
    requires session.Lawful()
    requires EventResult(id, Run(session, events).Known(id), Advance(id, a)) == Some(Ok(Break(true)))
    requires var sys := Next(session, Run(session, events), Advance(id, a)); id in sys.live && sys.live[id].swap.Chain?
    ensures var sys := Next(session, Run(session, events), Advance(id, a));
      if sys.live[id].swap.LastState() == TransactionClaimed
      then OurClaimWentOut(sys.live[id].swap, sys.MovesOf(id))
      else OurRefundWentOut(sys.live[id].swap, sys.MovesOf(id))
  {
    var sys, sys' := Run(session, events), Next(session, Run(session, events), Advance(id, a));
    AdvanceNext(session, sys, id, a);
    PollSucceeds(id, sys.live[id], a);
    RunOneMore(session, events, Advance(id, a));
    InvOfShare(session, events + [Advance(id, a)], id);
    assert LiveOk(session, id, sys'.live[id].swap, sys'.MovesOf(id));
    LastMovesHappened(sys'.MovesOf(id));
    hide Poll, Next, Swap.Advance, Run;
  }

  lemma PollSucceeds(id: string, live: Live, a: Answers)
    requires Poll(id, live, a).result == Ok(Break(true)) && Poll(id, live, a).live.swap.Chain?
    ensures var s := Poll(id, live, a).live.swap;
      if s.LastState() == TransactionClaimed then s.ClaimTxid().Some? else s.RefundTxid().Some?
  {
    var u := NextOwn(live.rx, id).value.0;
    SuccessMeans(live.swap, u, a);
    StepKeepsKind(live.swap, u, a);
    hide Swap.Advance;
  }

  lemma StepKeepsKind(s: Swap, u: Update, a: Answers)
    ensures s.Chain? <==> s.Advance(u, a).data.Chain?
  {}
}
