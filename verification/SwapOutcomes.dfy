/**
 What `advance` answers, told from the update, the data and the world: exactly when it goes on, ends with or
 without success, or fails, for each kind of swap, in every run, and for a swap that is run to its end
 (lwk_boltz/src/reverse.rs, submarine.rs, chain_swaps.rs).
 */
module SwapOutcomes {
  import opened Prelude
  import opened SwapTypes
  import opened Swap
  import opened SwapSystem
  import opened SwapResponses
  import opened SwapFunds
  import opened SwapStore
  import opened SwapCompletion
  import R = ReverseSwap
  import S = SubmarineSwap
  import C = ChainSwap

  // ------------------------------------------------------------------ one step

  /** A lockup that has to be looked up, and that the server knows, is seen on the chain. */
  predicate LookupSeen(known: Option<Txid>, a: Answers)
  {
    known.None? && a.fetched.Some? ==> a.indexed
  }

  /** The step ends the swap well: it is claimed, paid or refunded. */
  predicate EndsWell(s: Swap, u: Update, a: Answers)
  {
    match s
    case Reverse(_) => u.status in {Some(TransactionDirect), Some(InvoiceSettled)}
    case Submarine(d) =>
      || (u.status == Some(TransactionClaimed) && LookupSeen(d.lockupTxid, a))
      || (u.status == Some(TransactionClaimPending) && NothingToAnswer(d, a))
      || RefundGoesOut(s, u, a)
    case Chain(d) =>
      || (u.status == Some(TransactionClaimed) && LookupSeen(d.lockupTxid, a)
          && (d.claimTxid.Some? || ClaimGoesOut(s, u, a)))
      || RefundGoesOut(s, u, a)
  }

  /** The step ends the swap without success. */
  predicate EndsBadly(s: Swap, u: Update, a: Answers)
  {
    match s
    case Reverse(_) => u.status in {Some(SwapExpired), Some(InvoiceExpired)}
    case Submarine(_) =>
      u.status == Some(SwapExpired) || (u.status == Some(InvoiceFailedToPay) && a.utxo == Some(false))
    case Chain(_) => u.status == Some(SwapExpired)
  }

  /** The step leaves the swap under way. */
  predicate GoesOn(s: Swap, u: Update, a: Answers)
  {
    match s
    case Reverse(d) =>
      || u.status == Some(SwapCreated)
      || (u.status in {Some(TransactionMempool), Some(TransactionConfirmed)}
          && (d.claimBroadcasted || ClaimGoesOut(s, u, a)))
    case Submarine(d) =>
      || u.status in {Some(InvoiceSet), Some(TransactionConfirmed), Some(InvoicePending), Some(InvoicePaid)}
      || (u.status == Some(TransactionMempool) && (u.txid.Some? ==> a.indexed))
      || (u.status == Some(TransactionClaimPending) && (d.bolt11.Some? || d.bolt12.Some?) && a.cooperation.Sent?)
    case Chain(_) =>
      || u.status in {Some(SwapCreated), Some(TransactionMempool), Some(TransactionConfirmed)}
      || u.status == Some(ServerTransactionMempool)
      || (u.status == Some(ServerTransactionConfirmed) && ClaimGoesOut(s, u, a))
  }

  /** The statuses a swap of each kind knows what to do with. */
  predicate Expects(s: Swap, status: SwapState)
  {
    match s
    case Reverse(_) =>
      status in {SwapCreated, TransactionMempool, TransactionConfirmed, TransactionDirect, InvoiceSettled, SwapExpired,
                 InvoiceExpired}
    case Submarine(_) =>
      status in {InvoiceSet, TransactionMempool, TransactionConfirmed, InvoicePending, InvoicePaid, InvoiceFailedToPay,
                 TransactionLockupFailed, TransactionClaimPending, TransactionClaimed, SwapExpired}
    case Chain(_) =>
      status in {SwapCreated, TransactionMempool, TransactionConfirmed, ServerTransactionMempool,
                 ServerTransactionConfirmed, TransactionClaimed, TransactionLockupFailed, TransactionFailed,
                 TransactionRefunded, SwapExpired}
  }

  /** What a step must answer. */
  predicate AnswersAs(s: Swap, u: Update, a: Answers, r: Result)
  {
    && (r == Ok(Break(true)) <==> EndsWell(s, u, a))
    && (r == Ok(Break(false)) <==> EndsBadly(s, u, a))
    && (r == Ok(Continue) <==> GoesOn(s, u, a))
    && (r == Err(InvalidSwapState) <==> u.status.None?)
    && (r == Err(UnexpectedUpdate(s.LastState())) <==> u.status.Some? && !Expects(s, u.status.value))
  }

  /** A step that fails notes the status all the same, where the source does not leave early. */
  predicate NotesFailure(s: Swap, status: SwapState)
  {
    s.Reverse? || !Expects(s, status) || (s.Submarine? && status == TransactionClaimPending)
  }

  /** The state a step must leave. */
  predicate LeavesState(s: Swap, u: Update, r: Result, state: SwapState)
  {
    state == if u.status.Some? && (r.Ok? || NotesFailure(s, u.status.value)) then u.status.value else s.LastState()
  }

  lemma ReverseAnswers(d: R.InvoiceData, u: Update, a: Answers)
    ensures var o := R.Advance(d, u, a);
      AnswersAs(Reverse(d), u, a, o.result) && LeavesState(Reverse(d), u, o.result, o.data.lastState)
  {
    hide FirstSuccess;
  }

  lemma SubmarineAnswers(d: S.PreparePayData, u: Update, a: Answers)
    ensures AnswersAs(Submarine(d), u, a, S.Advance(d, u, a).result)
  {
    hide FirstSuccess;
  }

  lemma SubmarineState(d: S.PreparePayData, u: Update, a: Answers)
    ensures var o := S.Advance(d, u, a); LeavesState(Submarine(d), u, o.result, o.data.lastState)
  {
    hide FirstSuccess;
  }

  lemma ChainEnds(d: C.ChainSwapData, u: Update, a: Answers)
    ensures var r := C.Advance(d, u, a).result;
      && (r == Ok(Break(true)) <==> EndsWell(Chain(d), u, a))
      && (r == Ok(Break(false)) <==> EndsBadly(Chain(d), u, a))
  {
    hide FirstSuccess;
  }

  lemma ChainGoesOn(d: C.ChainSwapData, u: Update, a: Answers)
    ensures C.Advance(d, u, a).result == Ok(Continue) <==> GoesOn(Chain(d), u, a)
  {
    hide FirstSuccess;
  }

  lemma ChainFails(d: C.ChainSwapData, u: Update, a: Answers)
    ensures var r := C.Advance(d, u, a).result;
      && (r == Err(InvalidSwapState) <==> u.status.None?)
      && (r == Err(UnexpectedUpdate(d.lastState)) <==> u.status.Some? && !Expects(Chain(d), u.status.value))
  {
    hide FirstSuccess;
  }

  lemma ChainAnswers(d: C.ChainSwapData, u: Update, a: Answers)
    ensures AnswersAs(Chain(d), u, a, C.Advance(d, u, a).result)
  {
    hide C.Advance, EndsWell, EndsBadly, GoesOn, Expects;
    ChainEnds(d, u, a);
    ChainGoesOn(d, u, a);
    ChainFails(d, u, a);
  }

  lemma ChainState(d: C.ChainSwapData, u: Update, a: Answers)
    ensures var o := C.Advance(d, u, a); LeavesState(Chain(d), u, o.result, o.data.lastState)
  {
    hide FirstSuccess;
  }

  /**
   Exactly when a step goes on, ends well, ends badly, or fails; failures tell apart an unknown text, a status that
   is not expected, and an answer that was missing. And exactly which state it leaves.
   */
  lemma StepAnswers(s: Swap, u: Update, a: Answers)
    ensures var o := s.Advance(u, a); AnswersAs(s, u, a, o.result) && LeavesState(s, u, o.result, o.data.LastState())
  {
    match s
    case Reverse(d) => ReverseAnswers(d, u, a);
    case Submarine(d) =>
      SubmarineAnswers(d, u, a);
      SubmarineState(d, u, a);
    case Chain(d) =>
      ChainAnswers(d, u, a);
      ChainState(d, u, a);
    hide R.Advance, S.Advance, C.Advance, AnswersAs, LeavesState;
  }

  /** The first thing that was missing when a step fails on a status it expects. */
  function Missing(s: Swap, u: Update, a: Answers): Error
  {
    match s
    case Reverse(_) =>
      if u.txid.Some? && !a.indexed then ChainTxNotSeen
      else if !a.constructed then ConstructFailed else BroadcastFailed
    case Submarine(_) =>
      if u.status in {Some(TransactionMempool), Some(TransactionClaimed)} then ChainTxNotSeen
      else if u.status == Some(TransactionClaimPending) then CooperativeClaim
      else if u.status == Some(InvoiceFailedToPay) && a.utxo.None? then UtxoLookup
      else if FirstSuccess(a.refundTries, REFUND_ATTEMPTS).None? then RefundNotBuilt else BroadcastFailed
    case Chain(d) =>
      if u.status == Some(ServerTransactionConfirmed) && u.txid.Some? && !a.lockupParses then BadLockup
      else if u.status == Some(ServerTransactionConfirmed) && u.txid.Some? && !a.indexed then ChainTxNotSeen
      else if u.status == Some(TransactionClaimed) && !LookupSeen(d.lockupTxid, a) then ChainTxNotSeen
      else if !a.constructed then ConstructFailed else BroadcastFailed
  }

  /** A step that fails on a status it expects says what was missing. */
  lemma StepErrors(s: Swap, u: Update, a: Answers)
    requires u.status.Some? && Expects(s, u.status.value) && s.Advance(u, a).result.Err?
    ensures s.Advance(u, a).result == Err(Missing(s, u, a))
  {
    hide FirstSuccess;
  }

  // ------------------------------------------------------------------ the lockup transaction

  /** The lockup txid a step must leave in the data. */
  function LockupAfter(s: Swap, u: Update, a: Answers): Option<Txid>
  {
    var known := s.LockupTxid();
    match s
    case Reverse(d) =>
      if u.status in {Some(TransactionMempool), Some(TransactionConfirmed)} && !d.claimBroadcasted && known.None?
         && (u.txid.Some? ==> a.indexed)
      then u.txid else known
    case Submarine(_) =>
      if u.status == Some(TransactionMempool) && u.txid.Some? && a.indexed then u.txid
      else if u.status == Some(TransactionClaimed) && known.None? && LookupSeen(known, a) then a.fetched
      else known
    case Chain(_) =>
      if u.status == Some(TransactionMempool) then u.txid
      else if u.status == Some(TransactionConfirmed) && known.None? then u.txid
      else if u.status == Some(TransactionClaimed) && known.None? && LookupSeen(known, a) then a.fetched
      else known
  }

  lemma ChainLockup(d: C.ChainSwapData, u: Update, a: Answers)
    ensures C.Advance(d, u, a).data.lockupTxid == LockupAfter(Chain(d), u, a)
  {
    hide FirstSuccess;
    if u.status == Some(TransactionClaimed) {
      assert C.LockupLookupFails(d, a) <==> !LookupSeen(d.lockupTxid, a);
    }
  }

  /** The lockup txid is learned from the update or from the server, and otherwise kept, also by a step that fails. */
  lemma StepLockup(s: Swap, u: Update, a: Answers)
    ensures s.Advance(u, a).data.LockupTxid() == LockupAfter(s, u, a)
  {
    if s.Chain? {
      ChainLockup(s.chain, u, a);
      hide C.Advance, LockupAfter;
    }
  }

  // ------------------------------------------------------------------ calls in a run

  /**
   In every run, what a call of `advance` on a live swap answers: it handles the next update of the swap, and ends well,
   ends badly or goes on exactly as that update, the data and the world tell; without an update it
   fails as silence does.
   */
  lemma CallAnswers(session: Session, events: seq<Event>, id: string, a: Answers)
    requires id in Run(session, events).live
    ensures var sys := Run(session, events);
      var live, r := sys.live[id], EventResult(id, sys.Known(id), Advance(id, a));
      var own := Own(live.rx, id);
      && (own == [] ==> r == Some(Err(NoUpdate(live.polling))))
      && (own != [] ==>
            && (r == Some(Ok(Break(true))) <==> EndsWell(live.swap, own[0], a))
            && (r == Some(Ok(Break(false))) <==> EndsBadly(live.swap, own[0], a))
            && (r == Some(Ok(Continue)) <==> GoesOn(live.swap, own[0], a)))
  {
    hide Run, Swap.Advance, EndsWell, EndsBadly, GoesOn, Own;
    var live := Run(session, events).live[id];
    NextOwnIsHead(live.rx, id);
    if NextOwn(live.rx, id).Some? {
      StepAnswers(live.swap, NextOwn(live.rx, id).value.0, a);
    }
  }

  // ------------------------------------------------------------------ to the end

  /** The data after handling the first `k` of some updates; `answers(i)` is what the world tells the first call. */
  function After(s: Swap, us: seq<Update>, answers: nat -> Answers, i: nat, k: nat): Swap
    requires k <= |us|
  {
    if k == 0 then s else After(s, us, answers, i, k - 1).Advance(us[k - 1], answers(i + k - 1)).data
  }

  lemma {:induction false} AfterShift(s: Swap, us: seq<Update>, answers: nat -> Answers, i: nat, k: nat)
    requires us != [] && k < |us|
    ensures After(s, us, answers, i, k + 1) == After(s.Advance(us[0], answers(i)).data, us[1..], answers, i + 1, k)
  {
    hide Swap.Advance;
    if k == 0 {
    } else {
      AfterShift(s, us, answers, i, k - 1);
    }
  }

  /** The swap goes on with update `j`, once those before are handled. */
  predicate GoesOnAt(s: Swap, us: seq<Update>, answers: nat -> Answers, i: nat, j: nat)
  {
    j < |us| && GoesOn(After(s, us, answers, i, j), us[j], answers(i + j))
  }

  /** The swap goes on with the first `k` updates, and there is one more. */
  predicate GoesOnTo(s: Swap, us: seq<Update>, answers: nat -> Answers, i: nat, k: nat)
  {
    k < |us| && forall j: nat | j < k :: GoesOnAt(s, us, answers, i, j)
  }

  ghost predicate EndsWellAt(s: Swap, us: seq<Update>, answers: nat -> Answers, i: nat, k: nat)
  {
    GoesOnTo(s, us, answers, i, k) && EndsWell(After(s, us, answers, i, k), us[k], answers(i + k))
  }

  ghost predicate EndsBadlyAt(s: Swap, us: seq<Update>, answers: nat -> Answers, i: nat, k: nat)
  {
    GoesOnTo(s, us, answers, i, k) && EndsBadly(After(s, us, answers, i, k), us[k], answers(i + k))
  }

  lemma GoesOnAtShift(s: Swap, us: seq<Update>, answers: nat -> Answers, i: nat, j: nat)
    requires us != []
    ensures GoesOnAt(s, us, answers, i, j + 1)
      <==> GoesOnAt(s.Advance(us[0], answers(i)).data, us[1..], answers, i + 1, j)
  {
    hide Swap.Advance, GoesOn, After;
    if j + 1 < |us| {
      AfterShift(s, us, answers, i, j);
      assert us[1..][j] == us[j + 1] && i + 1 + j == i + (j + 1);
    }
  }

  /** One step less to go. */
  lemma GoesOnToShift(s: Swap, us: seq<Update>, answers: nat -> Answers, i: nat, k: nat)
    requires us != [] && GoesOn(s, us[0], answers(i))
    ensures var s' := s.Advance(us[0], answers(i)).data;
      && (GoesOnTo(s, us, answers, i, k + 1) <==> GoesOnTo(s', us[1..], answers, i + 1, k))
      && (k + 1 < |us| ==> After(s, us, answers, i, k + 1) == After(s', us[1..], answers, i + 1, k))
  {
    NowGoesOn(s, us, answers, i);
    hide Swap.Advance, GoesOn, After, GoesOnAt;
    var s', rest, h := s.Advance(us[0], answers(i)).data, us[1..], i + 1;
    if k < |rest| {
      AfterShift(s, us, answers, i, k);
    }
    if GoesOnTo(s, us, answers, i, k + 1) {
      forall j: nat | j < k ensures GoesOnAt(s', rest, answers, h, j) {
        GoesOnAtShift(s, us, answers, i, j);
      }
    }
    if GoesOnTo(s', rest, answers, h, k) {
      forall j: nat | j < k + 1 ensures GoesOnAt(s, us, answers, i, j) {
        if j > 0 {
          GoesOnAtShift(s, us, answers, i, j - 1);
        }
      }
    }
  }

  lemma NowGoesOn(s: Swap, us: seq<Update>, answers: nat -> Answers, i: nat)
    requires us != []
    ensures GoesOnAt(s, us, answers, i, 0) <==> GoesOn(s, us[0], answers(i))
  {
    hide GoesOn, Swap.Advance;
    assert answers(i + 0) == answers(i);
  }

  lemma StepIsOneOf(s: Swap, u: Update, a: Answers)
    ensures GoesOn(s, u, a) ==> !EndsWell(s, u, a) && !EndsBadly(s, u, a)
    ensures EndsWell(s, u, a) ==> !EndsBadly(s, u, a)
  {
    hide Swap.Advance, GoesOn, EndsWell, EndsBadly, Expects;
    StepAnswers(s, u, a);
  }

  /** A run to the end, told from its own updates. */
  ghost predicate EndsAs(s: Swap, us: seq<Update>, answers: nat -> Answers, i: nat, r: Result)
  {
    && (r == Ok(Break(true)) <==> exists k: nat :: EndsWellAt(s, us, answers, i, k))
    && (r == Ok(Break(false)) <==> exists k: nat :: EndsBadlyAt(s, us, answers, i, k))
    && r != Ok(Continue)
  }

  lemma EndsNow(s: Swap, us: seq<Update>, answers: nat -> Answers, i: nat, r: Result)
    requires us != [] && !GoesOn(s, us[0], answers(i))
    requires (r == Ok(Break(true)) <==> EndsWell(s, us[0], answers(i))) && r != Ok(Continue)
    requires r == Ok(Break(false)) <==> EndsBadly(s, us[0], answers(i))
    ensures EndsAs(s, us, answers, i, r)
  {
    hide GoesOn, EndsWell, EndsBadly;
    if EndsWell(s, us[0], answers(i)) {
      assert EndsWellAt(s, us, answers, i, 0);
    }
    if EndsBadly(s, us[0], answers(i)) {
      assert EndsBadlyAt(s, us, answers, i, 0);
    }
    forall k: nat ensures GoesOnTo(s, us, answers, i, k) ==> k == 0 {
      OnlyNow(s, us, answers, i, k);
    }
  }

  lemma OnlyNow(s: Swap, us: seq<Update>, answers: nat -> Answers, i: nat, k: nat)
    requires us != [] && !GoesOn(s, us[0], answers(i))
    ensures GoesOnTo(s, us, answers, i, k) ==> k == 0
  {
    NowGoesOn(s, us, answers, i);
    hide GoesOnAt;
  }

  lemma EndsLater(s: Swap, us: seq<Update>, answers: nat -> Answers, i: nat, r: Result)
    requires us != [] && GoesOn(s, us[0], answers(i))
    requires EndsAs(s.Advance(us[0], answers(i)).data, us[1..], answers, i + 1, r)
    ensures EndsAs(s, us, answers, i, r)
  {
    hide Swap.Advance, GoesOn, EndsWell, EndsBadly, GoesOnTo, After;
    var s', rest, h := s.Advance(us[0], answers(i)).data, us[1..], i + 1;
    StepIsOneOf(s, us[0], answers(i));
    NowIsFirst(s, us, answers, i);
    if k: nat :| EndsWellAt(s', rest, answers, h, k) {
      GoesOnToShift(s, us, answers, i, k);
      Within(s', rest, answers, h, k);
      assert EndsWellAt(s, us, answers, i, k + 1);
    }
    if k: nat :| EndsBadlyAt(s', rest, answers, h, k) {
      GoesOnToShift(s, us, answers, i, k);
      Within(s', rest, answers, h, k);
      assert EndsBadlyAt(s, us, answers, i, k + 1);
    }
    if k: nat :| EndsWellAt(s, us, answers, i, k) {
      Within(s, us, answers, i, k);
      GoesOnToShift(s, us, answers, i, k - 1);
      assert EndsWellAt(s', rest, answers, h, k - 1);
    }
    if k: nat :| EndsBadlyAt(s, us, answers, i, k) {
      Within(s, us, answers, i, k);
      GoesOnToShift(s, us, answers, i, k - 1);
      assert EndsBadlyAt(s', rest, answers, h, k - 1);
    }
  }

  lemma Within(s: Swap, us: seq<Update>, answers: nat -> Answers, i: nat, k: nat)
    ensures GoesOnTo(s, us, answers, i, k) ==> k < |us|
  {}

  lemma NowIsFirst(s: Swap, us: seq<Update>, answers: nat -> Answers, i: nat)
    requires us != []
    ensures After(s, us, answers, i, 0) == s
  {}

  lemma EndsInSilence(s: Swap, answers: nat -> Answers, i: nat, error: Error)
    ensures EndsAs(s, [], answers, i, Err(error))
  {
    hide GoesOn, EndsWell, EndsBadly;
  }

  /**
   Running a swap to its end returns true if and only if the first of its own updates it does not go on with is one that
   ends it well, false if and only if it is one that ends it badly, and fails otherwise.
   */
  lemma {:induction false} CompletionEnds(session: Session, id: string, live: Live, e: Entries, answers: nat -> Answers,
                                          i: nat)
    ensures EndsAs(live.swap, Own(live.rx, id), answers, i, ToCompletion(session, id, live, e, answers, i).result)
    decreases |live.rx|
  {
    hide Swap.Advance, EndsAs, GoesOn, EndsWell, EndsBadly, Expects, PollOps, ApplyAll, Own;
    var p := Poll(id, live, answers(i));
    CompletionUnfolds(session, id, live, e, answers, i);
    NextOwnIsHead(live.rx, id);
    NextOwnShorter(live.rx, id);
    match NextOwn(live.rx, id)
    case None => EndsInSilence(live.swap, answers, i, NoUpdate(live.polling));
    case Some((u, rest)) =>
      var own := Own(live.rx, id);
      assert own[0] == u && own[1..] == Own(rest, id);
      StepAnswers(live.swap, u, answers(i));
      hide ToCompletion;
      if GoesOn(live.swap, u, answers(i)) {
        var e' := ApplyAll(e, PollOps(session, id, p));
        CompletionEnds(session, id, p.live, e', answers, i + 1);
        EndsLater(live.swap, own, answers, i, ToCompletion(session, id, live, e, answers, i).result);
      } else {
        EndsNow(live.swap, own, answers, i, p.result);
      }
  }

  /** So for `complete` and `complete_pay` at any point of any run. */
  lemma CompleteIff(session: Session, events: seq<Event>, id: string, answers: nat -> Answers)
    requires id in Run(session, events).live
    ensures var sys := Run(session, events);
      var r := ToCompletion(session, id, sys.live[id], sys.entries, answers, 0).result;
      EndsAs(sys.live[id].swap, Own(sys.live[id].rx, id), answers, 0, r)
  {
    hide Run, EndsAs, ToCompletion;
    var sys := Run(session, events);
    CompletionEnds(session, id, sys.live[id], sys.entries, answers, 0);
  }
}
