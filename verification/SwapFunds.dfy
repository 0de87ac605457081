/**
 Funds over every run of a session, with restarts between any two calls: which transactions go out,
 how often, and what a reported success says about them (lwk_boltz/src/reverse.rs, submarine.rs,
 chain_swaps.rs).
 */
module SwapFunds {
  import opened Prelude
  import opened SwapTypes
  import opened Swap
  import opened SwapStore
  import opened SwapSystem
  import opened SwapRuns
  import opened SwapRestart
  import opened SwapCompletion
  import R = ReverseSwap
  import S = SubmarineSwap
  import C = ChainSwap

  // ------------------------------------------------------------------ counting

  function Claims(moves: seq<Move>): nat
  {
    if moves == [] then 0
    else Claims(moves[..|moves| - 1]) + if moves[|moves| - 1].Claim? then 1 else 0
  }

  function Refunds(moves: seq<Move>): nat
  {
    if moves == [] then 0
    else Refunds(moves[..|moves| - 1]) + if moves[|moves| - 1].Refund? then 1 else 0
  }

  lemma {:induction false} CountsAdd(a: seq<Move>, b: seq<Move>)
    ensures Claims(a + b) == Claims(a) + Claims(b) && Refunds(a + b) == Refunds(a) + Refunds(b)
  {
    if b == [] {
      assert a + b == a;
    } else {
      CountsAdd(a, b[..|b| - 1]);
      assert (a + b)[..|a + b| - 1] == a + b[..|b| - 1];
    }
  }

  /** A broadcast succeeds within the retries. */
  predicate Broadcast(a: Answers)
  {
    FirstSuccess(a.broadcasts, BROADCAST_ATTEMPTS).Some?
  }

  /** A submarine refund can be built and broadcast within the retries. */
  predicate CanRefund(a: Answers)
  {
    FirstSuccess(a.refundTries, REFUND_ATTEMPTS).Some? && Broadcast(a)
  }

  /** A broadcast gets through exactly if one of its first thirty attempts does, and a refund also needs one of five. */
  lemma RetriesIff(a: Answers)
    ensures Broadcast(a) <==> exists i :: 0 <= i < 30 && i < |a.broadcasts| && a.broadcasts[i].Some?
    ensures CanRefund(a) <==>
      Broadcast(a) && exists i :: 0 <= i < 5 && i < |a.refundTries| && a.refundTries[i].Some?
  {
    FirstSuccessIsFirst(a.broadcasts, BROADCAST_ATTEMPTS);
    FirstSuccessIsFirst(a.refundTries, REFUND_ATTEMPTS);
    hide FirstSuccess;
  }

  /** The update asks the swap for a claim, and the world lets it go out. */
  predicate ClaimGoesOut(s: Swap, u: Update, a: Answers)
  {
    match s
    case Reverse(d) =>
      && u.status in {Some(TransactionMempool), Some(TransactionConfirmed)} && !d.claimBroadcasted
      && (u.txid.Some? ==> a.indexed) && a.constructed && Broadcast(a)
    case Submarine(_) => false
    case Chain(d) =>
      && a.constructed && Broadcast(a)
      && (|| (u.status == Some(ServerTransactionConfirmed) && (u.txid.Some? ==> a.lockupParses && a.indexed))
          || (u.status == Some(TransactionClaimed) && d.claimTxid.None?
              && (d.lockupTxid.None? && a.fetched.Some? ==> a.indexed)))
  }

  /** The update asks the swap for a refund, and the world lets it go out. */
  predicate RefundGoesOut(s: Swap, u: Update, a: Answers)
  {
    match s
    case Reverse(_) => false
    case Submarine(_) =>
      || (u.status == Some(InvoiceFailedToPay) && a.utxo == Some(true) && CanRefund(a))
      || (u.status == Some(TransactionLockupFailed) && CanRefund(a))
    case Chain(_) =>
      && u.status in {Some(TransactionLockupFailed), Some(TransactionFailed), Some(TransactionRefunded)}
      && a.constructed && Broadcast(a)
  }

  /** A step claims, or refunds, exactly if the update asks for it and the world lets it go out. */
  lemma StepMovesIff(s: Swap, u: Update, a: Answers)
    ensures var o := s.Advance(u, a);
      && Claims(o.moves) == (if ClaimGoesOut(s, u, a) then 1 else 0)
      && Refunds(o.moves) == (if RefundGoesOut(s, u, a) then 1 else 0)
  {
    match s
    case Reverse(d) => ReverseMovesIff(d, u, a);
    case Submarine(d) => SubmarineMovesIff(d, u, a);
    case Chain(d) => ChainMovesIff(d, u, a);
    hide R.Advance, S.Advance, C.Advance, Claims, Refunds, Broadcast, CanRefund;
  }

  lemma SingleMove(moves: seq<Move>)
    requires |moves| <= 1
    ensures Claims(moves) == (if moves != [] && moves[0].Claim? then 1 else 0)
    ensures Refunds(moves) == (if moves != [] && moves[0].Refund? then 1 else 0)
  {
    assert |moves| == 1 ==> moves[..0] == [];
  }

  lemma ReverseMovesIff(d: R.InvoiceData, u: Update, a: Answers)
    ensures var moves := R.Advance(d, u, a).moves;
      Claims(moves) == (if ClaimGoesOut(Reverse(d), u, a) then 1 else 0) && Refunds(moves) == 0
  {
    hide Claims, Refunds;
    SingleMove(R.Advance(d, u, a).moves);
  }

  lemma SubmarineMovesIff(d: S.PreparePayData, u: Update, a: Answers)
    ensures var moves := S.Advance(d, u, a).moves;
      Claims(moves) == 0 && Refunds(moves) == (if RefundGoesOut(Submarine(d), u, a) then 1 else 0)
  {
    hide Claims, Refunds;
    SingleMove(S.Advance(d, u, a).moves);
  }

  lemma ChainMovesIff(d: C.ChainSwapData, u: Update, a: Answers)
    ensures var moves := C.Advance(d, u, a).moves;
      && Claims(moves) == (if ClaimGoesOut(Chain(d), u, a) then 1 else 0)
      && Refunds(moves) == (if RefundGoesOut(Chain(d), u, a) then 1 else 0)
  {
    hide Claims, Refunds;
    SingleMove(C.Advance(d, u, a).moves);
  }

  /** The event calls `advance` on this swap while the next of its updates asks for a claim that can go out. */
  predicate ClaimCall(id: string, k: Facts, ev: Event)
  {
    && ev.Advance? && ev.id == id && k.live.Some? && NextOwn(k.live.value.rx, id).Some?
    && ClaimGoesOut(k.live.value.swap, NextOwn(k.live.value.rx, id).value.0, ev.answers)
  }

  predicate RefundCall(id: string, k: Facts, ev: Event)
  {
    && ev.Advance? && ev.id == id && k.live.Some? && NextOwn(k.live.value.rx, id).Some?
    && RefundGoesOut(k.live.value.swap, NextOwn(k.live.value.rx, id).value.0, ev.answers)
  }

  predicate ClaimCallAt(session: Session, events: seq<Event>, id: string, i: nat)
  {
    i < |events| && ClaimCall(id, Run(session, events[..i]).Known(id), events[i])
  }

  predicate RefundCallAt(session: Session, events: seq<Event>, id: string, i: nat)
  {
    i < |events| && RefundCall(id, Run(session, events[..i]).Known(id), events[i])
  }

  function ClaimCalls(session: Session, events: seq<Event>, id: string, n: nat): nat
  {
    if n == 0 then 0
    else ClaimCalls(session, events, id, n - 1) + if ClaimCallAt(session, events, id, n - 1) then 1 else 0
  }

  function RefundCalls(session: Session, events: seq<Event>, id: string, n: nat): nat
  {
    if n == 0 then 0
    else RefundCalls(session, events, id, n - 1) + if RefundCallAt(session, events, id, n - 1) then 1 else 0
  }

  lemma EventMovesIff(id: string, k: Facts, ev: Event)
    requires Target(ev) == id
    ensures var moves := EventMoves(id, k, ev);
      && Claims(moves) == (if ClaimCall(id, k, ev) then 1 else 0)
      && Refunds(moves) == (if RefundCall(id, k, ev) then 1 else 0)
  {
    if ev.Advance? && k.live.Some? && NextOwn(k.live.value.rx, id).Some? {
      hide Swap.Advance, ClaimGoesOut, RefundGoesOut, Claims, Refunds;
      StepMovesIff(k.live.value.swap, NextOwn(k.live.value.rx, id).value.0, ev.answers);
    }
  }

  lemma NextMoves(session: Session, sys: Sys, ev: Event, id: string)
    ensures var sys' := Next(session, sys, ev);
      && Claims(sys'.MovesOf(id)) == Claims(sys.MovesOf(id)) + (if ClaimCall(id, sys.Known(id), ev) then 1 else 0)
      && Refunds(sys'.MovesOf(id)) == Refunds(sys.MovesOf(id)) + (if RefundCall(id, sys.Known(id), ev) then 1 else 0)
  {
    hide Next, EventMoves, Claims, Refunds, Poll, ClaimGoesOut, RefundGoesOut;
    MovesOfNext(session, sys, ev, id);
    if Target(ev) == id {
      EventMovesIff(id, sys.Known(id), ev);
      CountsAdd(sys.MovesOf(id), EventMoves(id, sys.Known(id), ev));
    }
  }

  /**
   Over every run, the claims of a swap that went out are as many as the calls made while the next of its updates
   asked for a claim and the world let it go out; and so its refunds. Nothing but the flag of a
   reverse swap, and a claim txid when the server has claimed, keeps these from being many.
   */
  lemma {:induction false} MovesAreCounted(session: Session, events: seq<Event>, id: string, n: nat)
    requires n <= |events|
    ensures var moves := Run(session, events[..n]).MovesOf(id);
      Claims(moves) == ClaimCalls(session, events, id, n) && Refunds(moves) == RefundCalls(session, events, id, n)
  {
    hide Next, ClaimCall, RefundCall;
    if n == 0 {
    } else {
      MovesAreCounted(session, events, id, n - 1);
      assert events[..n][..n - 1] == events[..n - 1];
      NextMoves(session, Run(session, events[..n - 1]), events[n - 1], id);
    }
  }

  lemma {:induction false} ClaimCallsTell(session: Session, events: seq<Event>, id: string, n: nat)
    ensures ClaimCalls(session, events, id, n) >= 1 <==> exists i: nat :: i < n && ClaimCallAt(session, events, id, i)
    ensures ClaimCalls(session, events, id, n) >= 2 <==>
      exists i: nat, j: nat :: i < j < n && ClaimCallAt(session, events, id, i) && ClaimCallAt(session, events, id, j)
  {
    hide ClaimCallAt;
    if n == 0 {
    } else {
      ClaimCallsTell(session, events, id, n - 1);
    }
  }

  lemma {:induction false} RefundCallsTell(session: Session, events: seq<Event>, id: string, n: nat)
    ensures RefundCalls(session, events, id, n) >= 1 <==> exists i: nat :: i < n && RefundCallAt(session, events, id, i)
    ensures RefundCalls(session, events, id, n) >= 2 <==>
      exists i: nat, j: nat :: i < j < n && RefundCallAt(session, events, id, i) && RefundCallAt(session, events, id, j)
  {
    hide RefundCallAt;
    if n == 0 {
    } else {
      RefundCallsTell(session, events, id, n - 1);
    }
  }

  /** At most one claim, or refund, of a swap goes out exactly if at most one such call is made. */
  lemma AtMostOnceIff(session: Session, events: seq<Event>, id: string)
    ensures var moves := Run(session, events).MovesOf(id);
      && (Claims(moves) <= 1 <==> forall i: nat, j: nat ::
            i < j < |events| && ClaimCallAt(session, events, id, i) ==> !ClaimCallAt(session, events, id, j))
      && (Refunds(moves) <= 1 <==> forall i: nat, j: nat ::
            i < j < |events| && RefundCallAt(session, events, id, i) ==> !RefundCallAt(session, events, id, j))
  {
    hide ClaimCallAt, RefundCallAt, Run;
    assert events[..|events|] == events;
    MovesAreCounted(session, events, id, |events|);
    ClaimCallsTell(session, events, id, |events|);
    RefundCallsTell(session, events, id, |events|);
  }

  // ------------------------------------------------------------------ more than once

  /** Publishing one update to a swap that has none waiting, and calling `advance`. */
  lemma Tell(session: Session, events: seq<Event>, id: string, u: Update, a: Answers)
    requires id in Run(session, events).live && Run(session, events).live[id].rx == [] && u.id == id
    ensures var sys, sys' := Run(session, events), Run(session, events + [Publish(u)] + [Advance(id, a)]);
      var o := sys.live[id].swap.Advance(u, a);
      && id in sys'.live && sys'.live[id].rx == [] && sys'.live[id].swap == o.data
      && sys'.MovesOf(id) == sys.MovesOf(id) + o.moves
  {
    hide Next, Swap.Advance;
    var sys := Run(session, events);
    RunOneMore(session, events, Publish(u));
    RunOneMore(session, events + [Publish(u)], Advance(id, a));
    PublishTo(session, sys, id, u);
    AdvanceNext(session, Next(session, sys, Publish(u)), id, a);
  }

  lemma PublishTo(session: Session, sys: Sys, id: string, u: Update)
    requires id in sys.live && u.id == id
    ensures var sys' := Next(session, sys, Publish(u));
      && id in sys'.live && sys'.live[id] == sys.live[id].(rx := sys.live[id].rx + [u])
      && sys'.MovesOf(id) == sys.MovesOf(id)
  {
    assert sys.MovesOf(id) + [] == sys.MovesOf(id);
  }

  lemma PublishWritesNothing(session: Session, sys: Sys, u: Update)
    ensures Next(session, sys, Publish(u)).entries == sys.entries
  {}

  lemma CreateNew(session: Session, s: Swap)
    requires s.IsNew(session)
    ensures var sys := Run(session, [Create(s)]);
      s.Id() in sys.live && sys.live[s.Id()] == Live(s, [], session.polling) && sys.MovesOf(s.Id()) == []
  {
    assert [Create(s)][..0] == [];
  }

  lemma ChainStep(s: Swap, u: Update, a: Answers)
    requires s.Chain? && u.txid.None? && a.constructed && Broadcast(a)
    ensures var o, txid := s.Advance(u, a), FirstSuccess(a.broadcasts, BROADCAST_ATTEMPTS).value;
      && o.data.Chain?
      && o.data.chain.claimAddress == s.chain.claimAddress && o.data.chain.refundAddress == s.chain.refundAddress
      && (u.status == Some(ServerTransactionConfirmed) ==> o.moves == [Claim(txid, s.chain.claimAddress)])
      && (u.status in {Some(TransactionFailed), Some(TransactionRefunded)} ==>
            o.moves == [Refund(txid, s.chain.refundAddress)])
  {}

  /** What a chain swap broadcasts when it is told these four statuses, and the nodes accept these transactions. */
  const PILE: seq<SwapState> :=
    [ServerTransactionConfirmed, ServerTransactionConfirmed, TransactionFailed, TransactionRefunded]

  function PileMove(i: nat, txid: Txid, d: C.ChainSwapData): Move
  {
    if i < 2 then Claim(txid, d.claimAddress) else Refund(txid, d.refundAddress)
  }

  /**
   It happens: a chain swap told twice that the server's lockup is confirmed claims twice, and told after that of a
   failure and of the server's refund, it refunds twice; each time with a transaction of its own.
   */
  lemma ChainMovesPileUp(session: Session, s: Swap, a: seq<Answers>, txids: seq<Txid>) returns (events: seq<Event>)
    requires s.Chain? && s.IsNew(session) && |a| == |txids| == 4
    requires forall i | 0 <= i < 4 ::
      a[i].constructed && FirstSuccess(a[i].broadcasts, BROADCAST_ATTEMPTS) == Some(txids[i])
    ensures var claim, refund := s.chain.claimAddress, s.chain.refundAddress;
      Run(session, events).MovesOf(s.Id())
        == [Claim(txids[0], claim), Claim(txids[1], claim), Refund(txids[2], refund), Refund(txids[3], refund)]
  {
    hide Run, Swap.Advance, Swap.IsNew, Swap.Id;
    var id := s.Id();
    events := [Create(s)];
    CreateNew(session, s);
    for i := 0 to 4
      invariant id in Run(session, events).live && Run(session, events).live[id].rx == []
      invariant Run(session, events).live[id].swap.Chain? && |Run(session, events).MovesOf(id)| == i
      invariant var d := Run(session, events).live[id].swap.chain;
        d.claimAddress == s.chain.claimAddress && d.refundAddress == s.chain.refundAddress
      invariant forall j | 0 <= j < i :: Run(session, events).MovesOf(id)[j] == PileMove(j, txids[j], s.chain)
    {
      var u := Update(id, Some(PILE[i]), None);
      ChainStep(Run(session, events).live[id].swap, u, a[i]);
      Tell(session, events, id, u, a[i]);
      events := events + [Publish(u)] + [Advance(id, a[i])];
    }
  }

  // ------------------------------------------------------------------ what success says

  lemma MinePrefix(events: seq<Event>, id: string, n: nat)
    requires n <= |events|
    ensures var mine, before := Mine(events, id), Mine(events[..n], id);
      |before| <= |mine| && mine[..|before|] == before
  {
    MineSplit(events[..n], events[n..], id);
    assert events[..n] + events[n..] == events;
  }

  /**
   A reverse swap makes at most one successful claim broadcast over any run, whatever else goes on
   in the session; and its data says so exactly: the flag is set if and only if the claim txid
   is, if and only if that claim went out.
   */
  lemma ReverseClaimsAtMostOnce(session: Session, events: seq<Event>, id: string, n: nat)
    requires session.Lawful() && n <= |events|
    requires id in Run(session, events[..n]).live && Run(session, events[..n]).live[id].swap.Reverse?
    ensures var sys := Run(session, events);
      && |sys.MovesOf(id)| <= 1
      && (id in sys.live ==> sys.live[id].swap.Reverse?)
      && (id in sys.live ==>
            var d := sys.live[id].swap.invoice;
            && (d.claimBroadcasted <==> d.claimTxid.Some?)
            && sys.MovesOf(id) == if d.claimTxid.Some? then [Claim(d.claimTxid.value, d.claimAddress)] else [])
  {
    hide Run, LocalRun, RecordOf, Pending, Completed, Own;
    SwapsDoNotInterfere(session, events[..n], id);
    SwapsDoNotInterfere(session, events, id);
    MinePrefix(events, id, n);
    MineTargets(events, id);
    ReverseClaimsAlone(session, id, Mine(events, id), |Mine(events[..n], id)|);
  }

  /** Claim and refund txids once set stay set, through any events and restarts. */
  lemma TxidsAreNeverCleared(session: Session, events: seq<Event>, id: string, n: nat)
    requires session.Lawful() && n <= |events|
    ensures var sys, sys' := Run(session, events[..n]), Run(session, events);
      && sys.MovesOf(id) <= sys'.MovesOf(id)
      && (id in sys.live && id in sys'.live ==>
            && (sys.live[id].swap.ClaimTxid().Some? ==> sys'.live[id].swap.ClaimTxid().Some?)
            && (sys.live[id].swap.RefundTxid().Some? ==> sys'.live[id].swap.RefundTxid().Some?))
  {
    hide Run, LocalRun, RecordOf, Pending, Completed, Own;
    SwapsDoNotInterfere(session, events[..n], id);
    SwapsDoNotInterfere(session, events, id);
    MinePrefix(events, id, n);
    MineTargets(events, id);
    TxidsAlone(session, id, Mine(events, id), |Mine(events[..n], id)|);
  }

  /** Fees, keys, preimage, addresses and chains stay what they were, through any events and restarts. */
  lemma DataStaysFixed(session: Session, events: seq<Event>, id: string, n: nat)
    requires session.Lawful() && n <= |events| && id in Run(session, events[..n]).live
    requires id in Run(session, events).live
    ensures Fixed(Run(session, events).live[id].swap) == Fixed(Run(session, events[..n]).live[id].swap)
  {
    hide Run, LocalRun, RecordOf, Pending, Completed, Own, Fixed;
    SwapsDoNotInterfere(session, events[..n], id);
    SwapsDoNotInterfere(session, events, id);
    MinePrefix(events, id, n);
    MineTargets(events, id);
    FixedAlone(session, id, Mine(events, id), |Mine(events[..n], id)|);
  }

  // ------------------------------------------------------------------ where the money goes

  lemma FixedAddresses(s: Swap)
    ensures Fixed(s).ClaimAddress() == s.ClaimAddress() && Fixed(s).RefundAddress() == s.RefundAddress()
  {}

  lemma UncreatedHasNotMoved(session: Session, events: seq<Event>, id: string)
    requires session.Lawful() && id !in Run(session, events).created
    ensures Run(session, events).MovesOf(id) == []
  {
    hide Run, RecordOf, Pending, Completed, Own;
    InvOfShare(session, events, id);
  }

  lemma CreatedIsLive(session: Session, before: seq<Event>, s: Swap)
    requires s.IsNew(session) && s.Id() !in Run(session, before).created
    ensures var sys := Run(session, before + [Create(s)]);
      && s.Id() in sys.live && sys.live[s.Id()].swap == s
      && sys.MovesOf(s.Id()) == Run(session, before).MovesOf(s.Id())
  {
    hide Run, Swap.IsNew, Swap.Id, ApplyAll, EventOps, EventMoves;
    RunOneMore(session, before, Create(s));
    MovesOfNext(session, Run(session, before), Create(s), s.Id());
    CreateMovesNothing(s.Id(), Run(session, before).Known(s.Id()), s);
  }

  lemma CreateMovesNothing(id: string, k: Facts, s: Swap)
    ensures EventMoves(id, k, Create(s)) == []
  {}

  lemma EventPays(id: string, k: Facts, ev: Event, s: Swap)
    requires k.live.Some? ==>
      k.live.value.swap.ClaimAddress() == s.ClaimAddress() && k.live.value.swap.RefundAddress() == s.RefundAddress()
    ensures forall m | m in EventMoves(id, k, ev) :: s.Pays(m)
  {
    if ev.Advance? && k.live.Some? && NextOwn(k.live.value.rx, id).Some? {
      hide Swap.Advance;
      StepPays(k.live.value.swap, NextOwn(k.live.value.rx, id).value.0, ev.answers);
    }
  }

  lemma StepPays(s: Swap, u: Update, a: Answers)
    ensures forall m | m in s.Advance(u, a).moves :: s.Pays(m)
  {}

  /**
   In every run, each claim of a created swap pays the claim address it was created with, and each refund the
   refund address, however often it claims, refunds or is restarted.
   */
  lemma {:induction false} MovesPayTheirAddress(session: Session, before: seq<Event>, s: Swap, after: seq<Event>)
    requires session.Lawful() && s.IsNew(session) && s.Id() !in Run(session, before).created
    ensures forall m | m in Run(session, before + [Create(s)] + after).MovesOf(s.Id()) :: s.Pays(m)
  {
    hide Run, Next, Swap.IsNew, Swap.Id, Fixed, EventMoves, Swap.Pays;
    var created := before + [Create(s)];
    CreatedIsLive(session, before, s);
    if after == [] {
      UncreatedHasNotMoved(session, before, s.Id());
      assert created + [] == created;
    } else {
      var n := |after| - 1;
      var events, ev := created + after[..n], after[n];
      assert created + after == events + [ev];
      MovesPayTheirAddress(session, before, s, after[..n]);
      var sys := Run(session, events);
      RunOneMore(session, events, ev);
      MovesOfNext(session, sys, ev, s.Id());
      if s.Id() in sys.live {
        assert events[..|created|] == created;
        DataStaysFixed(session, events, s.Id(), |created|);
        FixedAddresses(s);
        FixedAddresses(sys.live[s.Id()].swap);
      }
      EventPays(s.Id(), sys.Known(s.Id()), ev, s);
    }
  }

  /** A chain swap claims to and refunds to the addresses given to the call that created it, in every run. */
  lemma ChainSwapPaysGivenAddresses(session: Session, before: seq<Event>, claimKeyIndex: nat, refundKeyIndex: nat,
                                    toLiquid: bool, random: Option<Preimage>, response: Response, checks: C.Checks,
                                    lockupAddress: string, lockupAmount: nat, claimAmount: nat,
                                    fees: Option<(nat, nat)>, claimAddress: string, refundAddress: string,
                                    d: C.ChainSwapData, after: seq<Event>)
    requires session.Lawful() && response.id !in Run(session, before).created
    requires Some(d) == C.NewChainSwap(session, claimKeyIndex, refundKeyIndex, toLiquid, random, response, checks,
                                       lockupAddress, lockupAmount, claimAmount, fees, claimAddress, refundAddress)
    ensures forall m | m in Run(session, before + [Create(Chain(d))] + after).MovesOf(response.id) ::
      m.to == if m.Claim? then claimAddress else refundAddress
  {
    var s := Chain(d);
    assert s.IsNew(session) && s.Id() == response.id;
    assert s.ClaimAddress() == Some(claimAddress) && s.RefundAddress() == Some(refundAddress);
    hide Run, Swap.IsNew, C.IsNew;
    MovesPayTheirAddress(session, before, s, after);
  }

  /** So does an invoice claim to the address given to the call; it never refunds. */
  lemma InvoicePaysGivenAddress(session: Session, before: seq<Event>, keyIndex: nat, toLiquid: bool,
                                random: Option<Preimage>, amount: nat, response: Response, onchainAmount: nat,
                                checks: R.Checks, fees: Option<(nat, nat)>, claimAddress: string,
                                d: R.InvoiceData, after: seq<Event>)
    requires session.Lawful() && response.id !in Run(session, before).created
    requires Some(d) == R.NewInvoice(session, keyIndex, toLiquid, random, amount, response, onchainAmount, checks, fees,
                                     claimAddress)
    ensures forall m | m in Run(session, before + [Create(Reverse(d))] + after).MovesOf(response.id) ::
      m.Claim? && m.to == claimAddress
  {
    var s := Reverse(d);
    assert s.IsNew(session) && s.Id() == response.id;
    assert s.ClaimAddress() == Some(claimAddress) && s.RefundAddress().None?;
    hide Run, Swap.IsNew, R.IsNew;
    MovesPayTheirAddress(session, before, s, after);
  }

  /** And a payment refunds to the address given to the call; it never claims. */
  lemma PaymentRefundsToGivenAddress(session: Session, before: seq<Event>, keyIndex: nat, fromLiquid: bool,
                                     payment: S.Payment, checks: S.Checks, invoiceAmount: nat, response: Response,
                                     expectedAmount: nat, boltzFee: Option<nat>, refundAddress: string,
                                     d: S.PreparePayData, after: seq<Event>)
    requires session.Lawful() && response.id !in Run(session, before).created
    requires Some(d) == S.NewPayment(session, keyIndex, fromLiquid, payment, checks, invoiceAmount, response,
                                     expectedAmount, boltzFee, refundAddress)
    ensures forall m | m in Run(session, before + [Create(Submarine(d))] + after).MovesOf(response.id) ::
      m.Refund? && m.to == refundAddress
  {
    var s := Submarine(d);
    assert s.IsNew(session) && s.Id() == response.id;
    assert s.ClaimAddress().None? && s.RefundAddress() == Some(refundAddress);
    hide Run, Swap.IsNew, S.IsNew;
    MovesPayTheirAddress(session, before, s, after);
  }

  /** The call of `advance` on a live swap with this id would report success. */
  predicate Succeeds(sys: Sys, id: string, a: Answers)
  {
    id in sys.live && Poll(id, sys.live[id], a).result == Ok(Break(true))
  }

  /** A success handled an update. */
  function HandledUpdate(sys: Sys, id: string, a: Answers): Update
    requires Succeeds(sys, id, a)
  {
    NextOwn(sys.live[id].rx, id).value.0
  }

  /**
   A reverse swap reports success on the server's word that the invoice is settled, or that the payer
   paid directly; a claim of ours had gone out by then exactly if the data said so.
   */
  lemma ReverseSuccessClaimedIff(session: Session, events: seq<Event>, id: string, a: Answers)
    requires session.Lawful()
    requires Succeeds(Run(session, events), id, a) && Run(session, events).live[id].swap.Reverse?
    ensures var sys := Run(session, events);
      && HandledUpdate(sys, id, a).status in {Some(InvoiceSettled), Some(TransactionDirect)}
      && ((exists m :: m in Next(session, sys, Advance(id, a)).MovesOf(id) && m.Claim?) <==>
          sys.live[id].swap.invoice.claimBroadcasted)
  {
    hide Run, Next, Accounted, RecordOk, RecordOf, Pending, Completed, Own;
    var sys := Run(session, events);
    InvOfShare(session, events, id);
    var s := sys.live[id].swap;
    AccountedReverse(s, sys.MovesOf(id));
    AdvanceNext(session, sys, id, a);
    SuccessIsQuiet(s, HandledUpdate(sys, id, a), a);
    hide Swap.Advance;
    assert sys.MovesOf(id) + [] == sys.MovesOf(id);
  }

  lemma AccountedReverse(s: Swap, moves: seq<Move>)
    requires s.Reverse? && Accounted(s, moves)
    ensures (exists m :: m in moves && m.Claim?) <==> s.invoice.claimBroadcasted
  {
    ReverseMoves(s, moves);
    if s.invoice.claimTxid.Some? {
      assert moves[0] in moves;
    }
  }

  lemma SuccessIsQuiet(s: Swap, u: Update, a: Answers)
    requires s.Reverse? && s.Advance(u, a).result == Ok(Break(true))
    ensures s.Advance(u, a).moves == [] && u.status in {Some(InvoiceSettled), Some(TransactionDirect)}
  {}

  /** It can happen that none did: settled is the first thing the server says. */
  lemma ReverseSuccessWithoutClaim(session: Session, s: Swap, a: Answers)
    requires s.Reverse? && s.IsNew(session)
    ensures var id := s.Id();
      var sys := Run(session, [Create(s)] + [Publish(Update(id, Some(InvoiceSettled), None))]);
      Succeeds(sys, id, a) && Next(session, sys, Advance(id, a)).MovesOf(id) == []
  {
    hide Run, Next, Swap.IsNew;
    var id, u := s.Id(), Update(s.Id(), Some(InvoiceSettled), None);
    CreateNew(session, s);
    RunOneMore(session, [Create(s)], Publish(u));
    PublishTo(session, Run(session, [Create(s)]), id, u);
    AdvanceNext(session, Run(session, [Create(s)] + [Publish(u)]), id, a);
    assert [] + [u] == [u];
  }

  /** The server does not want our help with its claim, or we lost the invoice and cannot give it. */
  predicate NothingToAnswer(d: S.PreparePayData, a: Answers)
  {
    (d.bolt11.None? && d.bolt12.None?) || a.cooperation.NotEligible?
  }

  /**
   Exactly when a step of a submarine swap succeeds: the server says that it claimed, and a lockup it has
   to look up is seen; or it says that it is about to, and does not want our help or we lost the
   invoice; or the payment failed and our refund goes out, on `invoice.failedToPay` only if the
   lockup address holds funds.
   */
  lemma SubmarineSuccessIff(d: S.PreparePayData, u: Update, a: Answers)
    ensures S.Advance(d, u, a).result == Ok(Break(true)) <==>
      || (u.status == Some(TransactionClaimed) && !(d.lockupTxid.None? && a.fetched.Some? && !a.indexed))
      || (u.status == Some(TransactionClaimPending) && NothingToAnswer(d, a))
      || (u.status == Some(InvoiceFailedToPay) && a.utxo == Some(true) && CanRefund(a))
      || (u.status == Some(TransactionLockupFailed) && CanRefund(a))
  {}

  /**
   In every run, a submarine swap reports success only on the server's word that it claims or has
   claimed our lockup, for which it needs the preimage of the paid invoice, or with our refund out.
   */
  lemma SubmarineSuccessPaidOrRefunded(session: Session, events: seq<Event>, id: string, a: Answers)
    requires session.Lawful()
    requires Succeeds(Run(session, events), id, a) && Run(session, events).live[id].swap.Submarine?
    ensures var sys, sys' := Run(session, events), Next(session, Run(session, events), Advance(id, a));
      var u := HandledUpdate(sys, id, a);
      && id in sys'.live
      && (|| u.status == Some(TransactionClaimed)
          || (u.status == Some(TransactionClaimPending)
              && NothingToAnswer(sys.live[id].swap.pay, a))
          || OurRefundWentOut(sys'.live[id].swap, sys'.MovesOf(id)))
  {
    hide Run, Next, RecordOf;
    var sys := Run(session, events);
    var u := HandledUpdate(sys, id, a);
    AdvanceNext(session, sys, id, a);
    SubmarineSuccessIff(sys.live[id].swap.pay, u, a);
    if u.status in {Some(InvoiceFailedToPay), Some(TransactionLockupFailed)} {
      RefundIsNoted(sys.live[id].swap.pay, u, a);
    }
    hide S.Advance;
  }

  lemma RefundIsNoted(d: S.PreparePayData, u: Update, a: Answers)
    requires S.Advance(d, u, a).result == Ok(Break(true))
    requires u.status in {Some(InvoiceFailedToPay), Some(TransactionLockupFailed)}
    ensures var o := S.Advance(d, u, a);
      |o.moves| == 1 && o.moves[0].Refund? && o.data.refundTxid == Some(o.moves[0].txid)
  {}

  /**
   Success means that funds moved: in every run, `advance` of a chain swap reports success only if our own
   claim went out, when the server has claimed its part, or else our own refund, in this call or an
   earlier one.
   */
  lemma ChainSuccessMovedFunds(session: Session, events: seq<Event>, id: string, a: Answers)
    requires session.Lawful()
    requires Succeeds(Run(session, events), id, a) && Run(session, events).live[id].swap.Chain?
    ensures var sys := Next(session, Run(session, events), Advance(id, a));
      && id in sys.live
      && if sys.live[id].swap.LastState() == TransactionClaimed
         then OurClaimWentOut(sys.live[id].swap, sys.MovesOf(id))
         else OurRefundWentOut(sys.live[id].swap, sys.MovesOf(id))
  {
    hide Run, Next, Swap.Advance, RecordOf, Inv;
    var sys := Run(session, events);
    AdvanceNext(session, sys, id, a);
    StepKeepsKind(sys.live[id].swap, HandledUpdate(sys, id, a), a);
    SuccessInRun(session, events, id, a);
  }
}
