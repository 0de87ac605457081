/**
 The invariants of every run of a session, with restarts between any two calls: the store agrees
 with memory, what went out is what was written down, a reverse swap claims at most once
 (lwk_boltz/src/reverse.rs, submarine.rs, chain_swaps.rs, store.rs).
 */
module SwapRuns {
  import opened Prelude
  import opened SwapTypes
  import opened Swap
  import opened SwapStore
  import opened SwapLists
  import opened SwapSystem
  import R = ReverseSwap
  import S = SubmarineSwap
  import C = ChainSwap

  // ------------------------------------------------------------------ invariant of one swap

  function LastClaim(moves: seq<Move>): Option<Txid>
  {
    if moves == [] then None
    else if moves[|moves| - 1].Claim? then Some(moves[|moves| - 1].txid)
    else LastClaim(moves[..|moves| - 1])
  }

  function LastRefund(moves: seq<Move>): Option<Txid>
  {
    if moves == [] then None
    else if moves[|moves| - 1].Refund? then Some(moves[|moves| - 1].txid)
    else LastRefund(moves[..|moves| - 1])
  }

  /** The txids in the data are those of the last transactions that went out, and all paid the addresses in the data. */
  predicate Accounted(s: Swap, moves: seq<Move>)
  {
    && s.ClaimTxid() == LastClaim(moves)
    && s.RefundTxid() == LastRefund(moves)
    && (s.Reverse? ==> |moves| <= 1 && (s.invoice.claimBroadcasted <==> |moves| == 1))
    && (forall m | m in moves :: s.Pays(m))
  }

  /** The data in memory: of this swap, of this session, its transactions accounted for. */
  predicate LiveOk(session: Session, id: string, s: Swap, moves: seq<Move>)
  {
    s.Id() == id && s.MadeBy(session) && Accounted(s, moves)
  }

  /** The record reads back to the data in memory, up to what a failed call may have changed. */
  predicate RecordOk(session: Session, r: Record, s: Swap)
  {
    match Decode(session, r)
    case None => false
    case Some(d) => d.Core() == s.Core()
  }

  predicate Inv(session: Session, id: string, l: Local)
  {
    && (!l.created ==> l == ALONE)
    && (l.live.Some? ==> LiveOk(session, id, l.live.value.swap, l.moves))
    && (l.record.Some? ==> l.live.Some? && RecordOk(session, l.record.value, l.live.value.swap))
    && (l.pending ==> l.record.Some?)
    && !(l.pending && l.completed)
  }

  /** Everything the invariant says about data is a matter of its core. */
  lemma CoreTells(s: Swap, t: Swap)
    requires s.Core() == t.Core()
    ensures s.Id() == t.Id() && s.ClaimTxid() == t.ClaimTxid() && s.RefundTxid() == t.RefundTxid()
    ensures s.Reverse? == t.Reverse? && (s.Reverse? ==> s.invoice.claimBroadcasted == t.invoice.claimBroadcasted)
    ensures forall moves :: Accounted(s, moves) <==> Accounted(t, moves)
  {
    assert s.Core().ClaimTxid() == s.ClaimTxid() && t.Core().ClaimTxid() == t.ClaimTxid();
    assert s.Core().RefundTxid() == s.RefundTxid() && t.Core().RefundTxid() == t.RefundTxid();
    assert s.Core().ClaimAddress() == s.ClaimAddress() && t.Core().ClaimAddress() == t.ClaimAddress();
    assert s.Core().RefundAddress() == s.RefundAddress() && t.Core().RefundAddress() == t.RefundAddress();
  }

  /** Data read from the store belongs to the session. */
  lemma DecodedIsMade(session: Session, r: Record)
    ensures Decode(session, r).Some? && session.Lawful() ==> Decode(session, r).value.MadeBy(session)
  {}

  lemma FreshRecordOk(session: Session, s: Swap)
    requires session.Lawful() && s.MadeBy(session)
    ensures RecordOk(session, s.Encode(session), s)
  {
    StoredFormReadsBack(session, s);
  }

  lemma FillKeepsCore(session: Session, s: Swap, txid: Option<Txid>)
    ensures s.SetLockup(txid).Core() == s.Core() && s.FillLockup(txid).Core() == s.Core()
    ensures s.MadeBy(session) ==> s.SetLockup(txid).MadeBy(session) && s.FillLockup(txid).MadeBy(session)
  {}

  lemma MoveAccounts(s: Swap, s': Swap, moves: seq<Move>, m: Move)
    requires Accounted(s, moves) && s.Pays(m)
    requires s'.ClaimAddress() == s.ClaimAddress() && s'.RefundAddress() == s.RefundAddress()
    requires s'.ClaimTxid() == if m.Claim? then Some(m.txid) else s.ClaimTxid()
    requires s'.RefundTxid() == if m.Refund? then Some(m.txid) else s.RefundTxid()
    requires s'.Reverse? ==> s.Reverse? && !s.invoice.claimBroadcasted && s'.invoice.claimBroadcasted
    ensures Accounted(s', moves + [m])
  {
    hide Swap.ClaimAddress, Swap.RefundAddress, Swap.ClaimTxid, Swap.RefundTxid;
    assert (moves + [m])[..|moves|] == moves;
    forall x | x in moves + [m] ensures s'.Pays(x) {
      assert x in moves || x == m;
    }
  }

  /** What a claim of a reverse swap does to its flag. */
  lemma ClaimSetsFlag(session: Session, s: Swap, u: Update, a: Answers)
    ensures var o := s.Advance(u, a);
      && (o.data.Reverse? <==> s.Reverse?)
      && (s.Reverse? && o.moves != [] ==> !s.invoice.claimBroadcasted && o.data.invoice.claimBroadcasted)
  {
    if s.Reverse? {
      hide R.Advance;
      R.StepFrame(session, s.invoice, u, a);
    }
  }

  /** One step keeps the accounts: what it broadcast is what it wrote down. */
  lemma StepAccounts(session: Session, id: string, s: Swap, moves: seq<Move>, u: Update, a: Answers)
    requires LiveOk(session, id, s, moves)
    ensures var o := s.Advance(u, a);
      && LiveOk(session, id, o.data, moves + o.moves)
      && (o.result.Err? ==> o.data.Core() == s.Core())
  {
    hide Swap.Advance, Swap.Core, Swap.MadeBy, Swap.Id, Swap.Pays, Swap.ClaimAddress, Swap.RefundAddress,
      Swap.ClaimTxid, Swap.RefundTxid, Accounted;
    StepFrame(session, s, u, a);
    ClaimSetsFlag(session, s, u, a);
    var o := s.Advance(u, a);
    if o.moves == [] {
      assert moves + o.moves == moves;
      CoreTells(o.data, s);
    } else {
      assert moves + o.moves == moves + [o.moves[0]] && o.moves[0] in o.moves;
      MoveAccounts(s, o.data, moves, o.moves[0]);
    }
  }

  lemma InvCreate(session: Session, id: string, l: Local, s: Swap)
    requires session.Lawful() && Inv(session, id, l) && s.Id() == id
    ensures Inv(session, id, LocalNext(session, id, l, Create(s)))
  {
    assert l.moves + [] == l.moves;
    if l.Known().CanCreate(session, s) {
      LocalOpsShort(l, Persist(id, s.Encode(session)), AddToPending(id));
      FreshRecordOk(session, s);
    }
  }

  lemma InvAdvance(session: Session, id: string, l: Local, a: Answers)
    requires session.Lawful() && Inv(session, id, l)
    ensures Inv(session, id, LocalNext(session, id, l, Advance(id, a)))
  {
    if l.live.Some? {
      var live := l.live.value;
      var p := Poll(id, live, a);
      var r := p.live.swap.Encode(session);
      LocalOpsShort(l, Persist(id, r), MoveToCompleted(id));
      var next := NextOwn(live.rx, id);
      if next.Some? {
        StepAccounts(session, id, live.swap, l.moves, next.value.0, a);
        FreshRecordOk(session, p.live.swap);
      } else {
        assert l.moves + [] == l.moves;
      }
      hide Swap.Advance, LiveOk, RecordOk;
    }
  }

  lemma InvRestart(session: Session, id: string, l: Local, fetched: Option<Txid>)
    requires session.Lawful() && Inv(session, id, l)
    ensures Inv(session, id, LocalNext(session, id, l, Restart(id, fetched)))
  {
    LocalOpsShort(l, MoveToCompleted(id), MoveToCompleted(id));
    assert l.moves + [] == l.moves;
    if l.record.Some? {
      var s := Decode(session, l.record.value).value;
      DecodedIsMade(session, l.record.value);
      FillKeepsCore(session, s, fetched);
      CoreTells(s.FillLockup(fetched), l.live.value.swap);
    }
  }

  lemma InvOther(session: Session, id: string, l: Local, ev: Event)
    requires session.Lawful() && Inv(session, id, l) && (ev.Publish? || ev.SetLockup? || ev.Remove?)
    ensures Inv(session, id, LocalNext(session, id, l, ev))
  {
    assert l.moves + [] == l.moves;
    if ev.Remove? { LocalOpsShort(l, RemoveSwap(id), RemoveSwap(id)); }
    if ev.SetLockup? && l.Known().CanSetLockup() {
      var s := l.live.value.swap.SetLockup(Some(ev.txid));
      LocalOpsShort(l, Persist(id, s.Encode(session)), RemoveSwap(id));
      FillKeepsCore(session, l.live.value.swap, Some(ev.txid));
      CoreTells(s, l.live.value.swap);
      FreshRecordOk(session, s);
    }
  }

  lemma InvNext(session: Session, id: string, l: Local, ev: Event)
    requires session.Lawful() && Inv(session, id, l) && Target(ev) == id
    ensures Inv(session, id, LocalNext(session, id, l, ev))
  {
    match ev
    case Create(s) => InvCreate(session, id, l, s);
    case Advance(_, a) => InvAdvance(session, id, l, a);
    case Restart(_, fetched) => InvRestart(session, id, l, fetched);
    case _ => InvOther(session, id, l, ev);
  }

  /** The invariant holds of one swap after any events of its own. */
  lemma InvStart(session: Session, id: string)
    ensures Inv(session, id, ALONE)
  {}

  lemma {:induction false} InvAlways(session: Session, id: string, events: seq<Event>)
    requires session.Lawful() && forall i :: 0 <= i < |events| ==> Target(events[i]) == id
    ensures Inv(session, id, LocalRun(session, id, events))
  {
    hide Inv, LocalNext, Target;
    if events == [] {
      InvStart(session, id);
    } else {
      var n := |events| - 1;
      InvAlways(session, id, events[..n]);
      InvNext(session, id, LocalRun(session, id, events[..n]), events[n]);
    }
  }

  // ------------------------------------------------------------------ funds

  /** A step that succeeds, told from what it leaves in the data. */
  lemma SuccessMeans(s: Swap, u: Update, a: Answers)
    requires s.Advance(u, a).result == Ok(Break(true))
    ensures var s' := s.Advance(u, a).data;
      match s
      case Reverse(_) => s'.LastState() in {TransactionDirect, InvoiceSettled}
      case Submarine(_) =>
        || s'.LastState() in {TransactionClaimed, TransactionClaimPending}
        || (s'.LastState() in {InvoiceFailedToPay, TransactionLockupFailed} && s'.RefundTxid().Some?)
      case Chain(_) =>
        if s'.LastState() == TransactionClaimed then s'.ClaimTxid().Some?
        else
          && s'.LastState() in {TransactionLockupFailed, TransactionFailed, TransactionRefunded}
          && s'.RefundTxid().Some?
  {}

  lemma {:induction false} LastMovesHappened(moves: seq<Move>)
    ensures LastClaim(moves).Some? ==> exists m :: m in moves && m.Claim? && m.txid == LastClaim(moves).value
    ensures LastRefund(moves).Some? ==> exists m :: m in moves && m.Refund? && m.txid == LastRefund(moves).value
    ensures (exists i :: 0 <= i < |moves| && moves[i].Claim?) ==> LastClaim(moves).Some?
    ensures (exists i :: 0 <= i < |moves| && moves[i].Refund?) ==> LastRefund(moves).Some?
  {
    if moves == [] {
    } else {
      LastMovesHappened(moves[..|moves| - 1]);
      assert forall i :: 0 <= i < |moves| - 1 ==> moves[..|moves| - 1][i] == moves[i];
    }
  }

  /** The response stays a reverse swap, or is gone for good, and at most one claim went out. */
  predicate ReverseOrGone(l: Local)
  {
    && l.created && |l.moves| <= 1
    && (l.live.Some? ==> l.live.value.swap.Reverse?)
    && (l.live.None? ==> l.record.None?)
  }

  lemma ReverseStays(session: Session, id: string, l: Local, ev: Event)
    requires session.Lawful() && Inv(session, id, l) && Target(ev) == id && ReverseOrGone(l)
    ensures ReverseOrGone(LocalNext(session, id, l, ev))
  {
    InvNext(session, id, l, ev);
    var l' := LocalNext(session, id, l, ev);
    assert l.moves + [] == l.moves;
    LocalOpsShort(l, MoveToCompleted(id), RemoveSwap(id));
    LocalOpsShort(l, RemoveSwap(id), RemoveSwap(id));
    if ev.Restart? && l.record.Some? {
      var s := Decode(session, l.record.value).value;
      FillKeepsCore(session, s, ev.fetched);
      CoreTells(s.FillLockup(ev.fetched), l.live.value.swap);
    }
  }

  /**
   A reverse swap makes at most one successful claim broadcast over any run, with restarts
   between any two calls; and its data says so exactly: the flag is set if and only if the
   claim txid is, if and only if that claim went out.
   */
  lemma {:induction false} ReverseClaimsAlone(session: Session, id: string, events: seq<Event>, n: nat)
    requires session.Lawful() && forall i :: 0 <= i < |events| ==> Target(events[i]) == id
    requires n <= |events|
    requires var l := LocalRun(session, id, events[..n]); l.live.Some? && l.live.value.swap.Reverse?
    ensures var l := LocalRun(session, id, events);
      && ReverseOrGone(l)
      && (l.live.Some? ==>
            var d := l.live.value.swap.invoice;
            && (d.claimBroadcasted <==> d.claimTxid.Some?)
            && l.moves == if d.claimTxid.Some? then [Claim(d.claimTxid.value, d.claimAddress)] else [])
  {
    hide LocalNext, RecordOk;
    InvAlways(session, id, events);
    var l := LocalRun(session, id, events);
    if n == |events| {
      assert events[..n] == events;
    } else {
      var m := |events| - 1;
      assert events[..m][..n] == events[..n];
      ReverseClaimsAlone(session, id, events[..m], n);
      InvAlways(session, id, events[..m]);
      ReverseStays(session, id, LocalRun(session, id, events[..m]), events[m]);
    }
    if l.live.Some? {
      ReverseMoves(l.live.value.swap, l.moves);
    }
  }

  lemma ReverseMoves(s: Swap, moves: seq<Move>)
    requires s.Reverse? && Accounted(s, moves)
    ensures var d := s.invoice;
      moves == if d.claimTxid.Some? then [Claim(d.claimTxid.value, d.claimAddress)] else []
  {
    if |moves| == 1 {
      assert moves[..0] == [] && moves[0] in moves;
    }
  }

  /** Transaction ids in the data are never cleared, through any events and restarts. */
  lemma {:induction false} TxidsAlone(session: Session, id: string, events: seq<Event>, n: nat)
    requires session.Lawful() && forall i :: 0 <= i < |events| ==> Target(events[i]) == id
    requires n <= |events|
    ensures var l, l' := LocalRun(session, id, events[..n]), LocalRun(session, id, events);
      && l.moves <= l'.moves
      && (l.live.Some? && l'.live.Some? ==>
            && (l.live.value.swap.ClaimTxid().Some? ==> l'.live.value.swap.ClaimTxid().Some?)
            && (l.live.value.swap.RefundTxid().Some? ==> l'.live.value.swap.RefundTxid().Some?))
  {
    hide LocalNext, RecordOk;
    MovesGrow(session, id, events, n);
    InvAlways(session, id, events[..n]);
    InvAlways(session, id, events);
    var l, l' := LocalRun(session, id, events[..n]), LocalRun(session, id, events);
    LastMovesHappened(l.moves);
    LastMovesHappened(l'.moves);
    assert forall m :: m in l.moves ==> m in l'.moves;
  }

  lemma MovesStep(session: Session, id: string, l: Local, ev: Event)
    ensures l.moves <= LocalNext(session, id, l, ev).moves
  {
    hide EventOps, EventLive, EventMoves, EventCreated, LocalOps;
  }

  lemma PrefixTrans(a: seq<Move>, b: seq<Move>, c: seq<Move>)
    requires a <= b && b <= c
    ensures a <= c
  {}

  lemma {:induction false} MovesGrow(session: Session, id: string, events: seq<Event>, n: nat)
    requires n <= |events|
    ensures LocalRun(session, id, events[..n]).moves <= LocalRun(session, id, events).moves
  {
    hide LocalNext;
    if n == |events| {
      assert events[..n] == events;
    } else {
      var m := |events| - 1;
      var before := events[..m];
      assert before[..n] == events[..n];
      MovesGrow(session, id, before, n);
      MovesStep(session, id, LocalRun(session, id, before), events[m]);
      PrefixTrans(LocalRun(session, id, events[..n]).moves, LocalRun(session, id, before).moves,
                  LocalRun(session, id, events).moves);
    }
  }

  // ------------------------------------------------------------------ what stays as it was created

  /** Everything but what the handling of updates changes, and the label: fees, keys, preimage, addresses, chains. */
  function Fixed(s: Swap): Swap
  {
    match s.Core()
    case Reverse(d) => Reverse(d.(claimBroadcasted := false, claimTxid := None))
    case Submarine(d) => Submarine(d.(refundTxid := None))
    case Chain(d) => Chain(d.(claimTxid := None, refundTxid := None))
  }

  lemma StepKeepsFixed(s: Swap, u: Update, a: Answers)
    ensures Fixed(s.Advance(u, a).data) == Fixed(s)
  {
    match s
    case Reverse(d) => ReverseFixed(d, u, a);
    case Submarine(d) => SubmarineFixed(d, u, a);
    case Chain(d) =>
      if u.status.Some? { C.ReactFrame(d, u.status.value, u, a); }
      hide C.React;
  }

  lemma ReverseFixed(d: R.InvoiceData, u: Update, a: Answers)
    ensures Fixed(Reverse(R.Advance(d, u, a).data)) == Fixed(Reverse(d))
  {}

  lemma SubmarineFixed(d: S.PreparePayData, u: Update, a: Answers)
    ensures Fixed(Submarine(S.Advance(d, u, a).data)) == Fixed(Submarine(d))
  {}

  lemma FixedNext(session: Session, id: string, l: Local, ev: Event)
    requires session.Lawful() && Inv(session, id, l) && Target(ev) == id && l.created
    ensures var l' := LocalNext(session, id, l, ev);
      && l'.created
      && (l'.live.Some? ==> l.live.Some? && Fixed(l'.live.value.swap) == Fixed(l.live.value.swap))
  {
    hide Swap.Advance, Swap.Encode, LocalOps, Accounted;
    match ev
    case Advance(_, a) =>
      if l.live.Some? && NextOwn(l.live.value.rx, id).Some? {
        StepKeepsFixed(l.live.value.swap, NextOwn(l.live.value.rx, id).value.0, a);
        hide Fixed;
      }
    case Restart(_, fetched) =>
      if l.record.Some? {
        FillKeepsCore(session, Decode(session, l.record.value).value, fetched);
        hide Swap.Core, Decode, Swap.FillLockup;
      }
    case SetLockup(_, txid) =>
      if l.live.Some? {
        FillKeepsCore(session, l.live.value.swap, Some(txid));
        hide Swap.Core, Swap.SetLockup;
      }
    case _ =>
  }

  /** Over any events and restarts, everything else in the data stays as it was created. */
  lemma {:induction false} FixedAlone(session: Session, id: string, events: seq<Event>, n: nat)
    requires session.Lawful() && forall i :: 0 <= i < |events| ==> Target(events[i]) == id
    requires n <= |events| && LocalRun(session, id, events[..n]).live.Some?
    ensures var l, l' := LocalRun(session, id, events[..n]), LocalRun(session, id, events);
      l'.created && (l'.live.Some? ==> Fixed(l'.live.value.swap) == Fixed(l.live.value.swap))
  {
    hide LocalNext, Fixed, LiveOk, RecordOk;
    InvAlways(session, id, events[..n]);
    if n == |events| {
      assert events[..n] == events;
    } else {
      var m := |events| - 1;
      assert events[..m][..n] == events[..n];
      FixedAlone(session, id, events[..m], n);
      InvAlways(session, id, events[..m]);
      FixedNext(session, id, LocalRun(session, id, events[..m]), events[m]);
    }
  }

  // ------------------------------------------------------------------ restarts

  /** Memory and store agree: the record is the data, and a terminal state is a completed one. */
  predicate Settled(session: Session, l: Local)
  {
    && l.live.Some?
    && l.record == Some(l.live.value.swap.Encode(session))
    && (l.live.value.swap.LastState().IsTerminal() ==> l.completed && !l.pending)
  }

  /** Every call of `advance` that returns without error leaves memory and store in agreement. */
  lemma AdvanceSettles(session: Session, id: string, l: Local, a: Answers)
    requires EventResult(id, l.Known(), Advance(id, a)).Some? && EventResult(id, l.Known(), Advance(id, a)).value.Ok?
    ensures Settled(session, LocalNext(session, id, l, Advance(id, a)))
  {
    var live := l.live.value;
    var p := Poll(id, live, a);
    LocalOpsShort(l, Persist(id, p.live.swap.Encode(session)), MoveToCompleted(id));
    StepStatus(live.swap, NextOwn(live.rx, id).value.0, a);
    hide Swap.Advance;
  }

  /** So does creation, exactly if the first status is not a terminal one already. */
  lemma CreationSettles(session: Session, id: string, l: Local, s: Swap)
    requires l == ALONE && s.IsNew(session) && s.Id() == id
    ensures Settled(session, LocalNext(session, id, l, Create(s))) <==> !s.LastState().IsTerminal()
  {
    LocalOpsShort(l, Persist(id, s.Encode(session)), AddToPending(id));
  }

  /** So does setting the lockup txid, exactly if a terminal state was completed before. */
  lemma SetLockupSettles(session: Session, id: string, l: Local, txid: Txid)
    requires l.Known().CanSetLockup()
    ensures Settled(session, LocalNext(session, id, l, SetLockup(id, txid))) <==>
      (l.live.value.swap.LastState().IsTerminal() ==> l.completed && !l.pending)
  {
    var s := l.live.value.swap.SetLockup(Some(txid));
    LocalOpsShort(l, Persist(id, s.Encode(session)), RemoveSwap(id));
    assert s.LastState() == l.live.value.swap.LastState();
    hide Swap.Encode, Swap.SetLockup;
  }

  /** A restart of a settled swap changes nothing but the label, an unknown lockup txid and the polling flag. */
  lemma RestartOfSettled(session: Session, id: string, l: Local, fetched: Option<Txid>)
    requires session.Lawful() && Settled(session, l) && l.live.value.swap.MadeBy(session)
    ensures LocalNext(session, id, l, Restart(id, fetched)) ==
            l.(live := Some(Live(l.live.value.swap.Unlabelled().FillLockup(fetched), l.live.value.rx, session.polling)))
  {
    hide Decode, Swap.Encode, Swap.FillLockup, Swap.Unlabelled, Swap.LastState, Swap.MadeBy, LocalOps;
    var s := l.live.value.swap;
    StoredFormReadsBack(session, s);
    FillKeepsState(s, fetched);
    assert l.moves + [] == l.moves;
    LocalOpsShort(l, MoveToCompleted(id), MoveToCompleted(id));
    NoLocalOps(l);
  }

  lemma FillKeepsState(s: Swap, fetched: Option<Txid>)
    ensures s.Unlabelled().FillLockup(fetched).LastState() == s.LastState()
  {}

  lemma NoLocalOps(l: Local)
    ensures LocalOps(l, []) == l
  {}

  /** What a user can tell: everything but the network label and the polling flag. */
  function Visible(l: Local): Local
  {
    if l.live.None? then l
    else l.(live := Some(Live(l.live.value.swap.Unlabelled(), l.live.value.rx, false)))
  }

  /** Results that differ at most in how the absence of an update is reported. */
  predicate SameResult(r: Option<Result>, r': Option<Result>)
  {
    || r == r'
    || (r in {Some(Err(NoBoltzUpdate)), Some(Err(Timeout))} && r' in {Some(Err(NoBoltzUpdate)), Some(Err(Timeout))})
  }

  /** The lockup txid is known, or the server does not know it either, or it is not looked up. */
  predicate LockupKept(s: Swap, fetched: Option<Txid>)
  {
    s.Reverse? || s.LockupTxid().Some? || fetched.None?
  }

  lemma RestartVisible(session: Session, id: string, l: Local, fetched: Option<Txid>)
    requires session.Lawful() && Settled(session, l) && l.live.value.swap.MadeBy(session)
    ensures Visible(LocalNext(session, id, l, Restart(id, fetched))) == Visible(l) <==>
      LockupKept(l.live.value.swap, fetched)
  {
    RestartOfSettled(session, id, l, fetched);
    hide LocalNext;
  }

  lemma VisibleEvent(session: Session, id: string, k: Facts, ev: Event)
    requires k.live.Some? && Target(ev) == id
    ensures var k' := k.(live := Some(Live(k.live.value.swap.Unlabelled(), k.live.value.rx, false)));
      var v, v' := EventLive(session, id, k, ev), EventLive(session, id, k', ev);
      && EventOps(session, id, k', ev) == EventOps(session, id, k, ev)
      && EventMoves(id, k', ev) == EventMoves(id, k, ev)
      && EventCreated(session, k', ev) == EventCreated(session, k, ev)
      && SameResult(EventResult(id, k, ev), EventResult(id, k', ev))
      && v.Some? == v'.Some?
      && (v.Some? ==> v.value.rx == v'.value.rx && v.value.swap.Unlabelled() == v'.value.swap.Unlabelled())
  {
    hide Swap.Advance, Swap.Unlabelled, Swap.Encode, Swap.SetLockup, Restored;
    var s := k.live.value.swap;
    LabelIsNoMatter(s);
    match ev
    case Advance(_, a) =>
      var next := NextOwn(k.live.value.rx, id);
      if next.Some? {
        StepIgnoresLabel(s, next.value.0, a);
        EncodeIgnoresLabel(session, s.Advance(next.value.0, a).data);
        LabelIsNoMatter(s.Advance(next.value.0, a).data);
      }
    case SetLockup(_, txid) =>
      SetLockupIgnoresLabel(s, Some(txid));
      EncodeIgnoresLabel(session, s.SetLockup(Some(txid)));
      LabelIsNoMatter(s.SetLockup(Some(txid)));
    case _ =>
  }

  lemma LabelIsNoMatter(s: Swap)
    ensures s.Unlabelled().Unlabelled() == s.Unlabelled() && s.Unlabelled().Reverse? == s.Reverse?
  {}

  lemma SetLockupIgnoresLabel(s: Swap, txid: Option<Txid>)
    ensures s.Unlabelled().SetLockup(txid) == s.SetLockup(txid).Unlabelled()
  {}

  // ------------------------------------------------------------------ the session as a whole

  lemma {:induction false} MineTargets(events: seq<Event>, id: string)
    ensures forall i :: 0 <= i < |Mine(events, id)| ==> Target(Mine(events, id)[i]) == id
  {
    if events == [] {
    } else {
      MineTargets(events[..|events| - 1], id);
    }
  }

  lemma {:induction false} MineSplit(before: seq<Event>, after: seq<Event>, id: string)
    ensures Mine(before + after, id) == Mine(before, id) + Mine(after, id)
  {
    if after == [] {
      assert before + after == before;
    } else {
      var n := |after| - 1;
      assert (before + after)[..|before + after| - 1] == before + after[..n];
      MineSplit(before, after[..n], id);
    }
  }

  /** In every run of a session, every swap satisfies the invariant. */
  lemma InvOfShare(session: Session, events: seq<Event>, id: string)
    requires session.Lawful()
    ensures Inv(session, id, Share(Run(session, events), id))
  {
    SwapsDoNotInterfere(session, events, id);
    MineTargets(events, id);
    InvAlways(session, id, Mine(events, id));
  }

  /**
   In every run of a session the pending list is the creation order filtered to the swaps
   neither completed, restored as terminal nor removed since; the lists repeat no id and share
   none; and every pending swap has stored data that reads back as the swap in memory.
   */
  lemma ListsOfSession(session: Session, events: seq<Event>)
    requires session.Lawful()
    ensures var e, ops := Run(session, events).entries, RunOps(session, events);
      && Pending(e) == OpenIds(PendingEdits(ops), |ops|)
      && Completed(e) == OpenIds(CompletedEdits(ops), |ops|)
      && Distinct(Pending(e)) && Distinct(Completed(e))
      && (forall id :: id in Pending(e) ==>
            && id !in Completed(e)
            && id in Run(session, events).live
            && RecordOf(e, id).Some?
            && RecordOk(session, RecordOf(e, id).value, Run(session, events).live[id].swap))
  {
    var e, ops := Run(session, events).entries, RunOps(session, events);
    StoreOfRun(session, events);
    ListsAfterAnyHistory(ops);
    forall id | id in Pending(e)
      ensures id !in Completed(e) && id in Run(session, events).live && RecordOf(e, id).Some?
      ensures RecordOk(session, RecordOf(e, id).value, Run(session, events).live[id].swap)
    {
      InvOfShare(session, events, id);
      hide Run, RecordOk;
    }
  }
}
