/**
 The swap responses as the objects they are: each call of `advance` works on the data, the
 receiver and the shared store in place (lwk_boltz/src/reverse.rs, submarine.rs, chain_swaps.rs).
 */
module SwapResponses {
  import opened Prelude
  import opened SwapTypes
  import opened Swap
  import opened SwapStore
  import opened SwapSystem
  import Rev = ReverseSwap
  import Sub = SubmarineSwap
  import Chn = ChainSwap

  // ------------------------------------------------------------------ running to completion

  datatype Completion = Completion(live: Live, entries: Entries, moves: seq<Move>, result: Result)

  lemma {:induction false} NextOwnShorter(rx: seq<Update>, id: string)
    ensures NextOwn(rx, id).Some? ==> |NextOwn(rx, id).value.1| < |rx|
  {
    if rx == [] {
    } else {
      NextOwnShorter(rx[1..], id);
    }
  }

  /** Calling `advance` until it ends the swap or fails; `answers(i)` is what the world tells call `i`. */
  function ToCompletion(session: Session, id: string, live: Live, e: Entries,
                        answers: nat -> Answers, i: nat): Completion
    decreases |live.rx|
  {
    NextOwnShorter(live.rx, id);
    var p := Poll(id, live, answers(i));
    var e' := ApplyAll(e, PollOps(session, id, p));
    if p.result != Ok(Continue) then Completion(p.live, e', p.moves, p.result)
    else
      var c := ToCompletion(session, id, p.live, e', answers, i + 1);
      c.(moves := p.moves + c.moves)
  }

  lemma ApplyOps(e: Entries, op: Op, op': Op)
    ensures ApplyAll(e, [op]) == Apply(e, op)
    ensures ApplyAll(e, [op, op']) == Apply(Apply(e, op), op')
  {
    hide Apply;
    assert [op][..0] == [] && [op, op'][..1] == [op];
  }

  /** The writes that end a call of `advance`. */
  method WriteResult(store: DynStore, session: Session, swap: Swap, result: Result)
    modifies store
    ensures store.entries == ApplyAll(old(store.entries), ResultOps(session, swap.Id(), swap, result))
  {
    var r := swap.Encode(session);
    ApplyOps(store.entries, Persist(swap.Id(), r), MoveToCompleted(swap.Id()));
    if result.Ok? {
      store.PersistData(swap.Id(), r);
      if result.Completed() {
        store.Complete(swap.Id());
      }
    }
  }

  lemma NoOps(session: Session, id: string, s: Swap, error: Error)
    ensures ResultOps(session, id, s, Err(error)) == []
  {}

  // ------------------------------------------------------------------ reverse swaps

  class InvoiceResponse {
    var data: Rev.InvoiceData
    var rx: seq<Update>
    var polling: bool
    const store: DynStore
    const session: Session

    constructor (session: Session, store: DynStore, data: Rev.InvoiceData, rx: seq<Update>)
      ensures this.session == session && this.store == store && this.data == data && this.rx == rx
      ensures polling == session.polling
    {
      this.session, this.store, this.data, this.rx, polling := session, store, data, rx, session.polling;
    }

    function AsLive(): Live
      reads this
    {
      Live(Reverse(data), rx, polling)
    }

    method HandleClaimTransactionIfNecessary(u: Update, a: Answers) returns (r: Result, moves: seq<Move>)
      modifies this`data
      ensures Outcome(data, r, moves) == Rev.ClaimIfNecessary(old(data), u, a)
    {
      moves := [];
      if data.claimBroadcasted {
        return Ok(Continue), moves;
      }
      if u.txid.Some? {
        if !a.indexed {
          return Err(ChainTxNotSeen), moves;
        }
        if data.lockupTxid.None? {
          data := data.(lockupTxid := u.txid);
        }
      }
      if !a.constructed {
        return Err(ConstructFailed), moves;
      }
      var txid := Retry(a.broadcasts, BROADCAST_ATTEMPTS);
      if txid.None? {
        return Err(BroadcastFailed), moves;
      }
      data := data.(claimTxid := txid);
      data := data.(claimBroadcasted := true);
      return Ok(Continue), [Claim(txid.value, data.claimAddress)];
    }

    /** The match of `advance`. */
    method React(state: SwapState, u: Update, a: Answers) returns (r: Result, moves: seq<Move>)
      modifies this`data
      ensures Outcome(data, r, moves) == Rev.React(old(data), state, u, a)
    {
      moves := [];
      match state {
        case SwapCreated => r := Ok(Continue);
        case TransactionDirect => r := Ok(Break(true));
        case TransactionMempool => r, moves := HandleClaimTransactionIfNecessary(u, a);
        case TransactionConfirmed => r, moves := HandleClaimTransactionIfNecessary(u, a);
        case InvoiceSettled => r := Ok(Break(true));
        case SwapExpired => r := Ok(Break(false));
        case InvoiceExpired => r := Ok(Break(false));
        case _ => r := Err(UnexpectedUpdate(data.lastState));
      }
    }

    method Advance(a: Answers) returns (r: Result, moves: seq<Move>)
      modifies this, store
      ensures var id := old(data).response.id;
        var p := Poll(id, old(AsLive()), a);
        && Polled(AsLive(), r, moves) == p
        && store.entries == ApplyAll(old(store.entries), PollOps(session, id, p))
        && data.response.id == id
    {
      hide Rev.React, ResultOps;
      var update, rest, error := NextStatus(rx, data.response.id, polling);
      rx := rest;
      if update.None? {
        NoOps(session, data.response.id, Reverse(data), error);
        return Err(error), [];
      }
      var u := update.value;
      if u.status.None? {
        NoOps(session, data.response.id, Reverse(data), InvalidSwapState);
        return Err(InvalidSwapState), [];
      }
      Rev.StepFrame(session, data, u, a);
      var state := u.status.value;
      r, moves := React(state, u, a);
      if r.Completed() {
        polling := true;
      }
      data := data.(lastState := state);
      WriteResult(store, session, Reverse(data), r);
    }

    method CompletePay(answers: nat -> Answers) returns (r: Result, moves: seq<Move>)
      modifies this, store
      ensures Completion(AsLive(), store.entries, moves, r) ==
              ToCompletion(session, old(data).response.id, old(AsLive()), old(store.entries), answers, 0)
    {
      hide Swap.Advance, ResultOps;
      ghost var id, start, e := data.response.id, AsLive(), store.entries;
      moves := [];
      var i := 0;
      while true
        invariant data.response.id == id
        invariant var c := ToCompletion(session, id, AsLive(), store.entries, answers, i);
          ToCompletion(session, id, start, e, answers, 0) == c.(moves := moves + c.moves)
        decreases |rx|
      {
        NextOwnShorter(rx, id);
        ghost var c := ToCompletion(session, id, AsLive(), store.entries, answers, i);
        var done, more := Advance(answers(i));
        if done != Ok(Continue) {
          return done, moves + more;
        }
        i := i + 1;
        ghost var c' := ToCompletion(session, id, AsLive(), store.entries, answers, i);
        assert moves + (more + c'.moves) == moves + more + c'.moves;
        moves := moves + more;
      }
    }
  }

  // ------------------------------------------------------------------ submarine swaps

  class PreparePayResponse {
    var data: Sub.PreparePayData
    var rx: seq<Update>
    var polling: bool
    const store: DynStore
    const session: Session

    constructor (session: Session, store: DynStore, data: Sub.PreparePayData, rx: seq<Update>)
      ensures this.session == session && this.store == store && this.data == data && this.rx == rx
      ensures polling == session.polling
    {
      this.session, this.store, this.data, this.rx, polling := session, store, data, rx, session.polling;
    }

    function AsLive(): Live
      reads this
    {
      Live(Submarine(data), rx, polling)
    }

    /** Build the refund, broadcast it and note its txid; an early error leaves the data alone. */
    method RefundLockup(a: Answers) returns (r: Result, moves: seq<Move>, early: bool)
      modifies this`data
      ensures match Sub.RefundLockup(old(data), a)
        case Exit(e) => early && r == Err(e) && moves == [] && data == old(data)
        case Done(d, result, m) => !early && r == result && moves == m && data == d
    {
      var tx := Retry(a.refundTries, REFUND_ATTEMPTS);
      if tx.None? {
        return Err(RefundNotBuilt), [], true;
      }
      var txid := Retry(a.broadcasts, BROADCAST_ATTEMPTS);
      if txid.None? {
        return Err(BroadcastFailed), [], true;
      }
      data := data.(refundTxid := txid);
      return Ok(Break(true)), [Refund(txid.value, data.refundAddress)], false;
    }

    /** The match of `advance`; `early` tells that an error leaves `advance` at once. */
    method React(state: SwapState, u: Update, a: Answers) returns (r: Result, moves: seq<Move>, early: bool)
      modifies this`data
      ensures match Sub.React(old(data), state, u, a)
        case Exit(e) => early && r == Err(e) && moves == [] && data == old(data)
        case Done(d, result, m) => !early && r == result && moves == m && data == d
    {
      r, moves, early := Ok(Continue), [], false;
      match state {
        case InvoiceSet =>
        case TransactionConfirmed =>
        case InvoicePending =>
        case InvoicePaid =>
        case TransactionMempool =>
          if u.txid.Some? {
            if !a.indexed {
              return Err(ChainTxNotSeen), [], true;
            }
            data := data.(lockupTxid := u.txid);
          }
        case InvoiceFailedToPay =>
          if a.utxo.None? {
            return Err(UtxoLookup), [], true;
          }
          if a.utxo.value {
            r, moves, early := RefundLockup(a);
          } else {
            r := Ok(Break(false));
          }
        case TransactionLockupFailed => r, moves, early := RefundLockup(a);
        case TransactionClaimPending => r := Sub.CooperativeClaimReply(data, a);
        case TransactionClaimed =>
          if data.lockupTxid.None? && a.fetched.Some? {
            if !a.indexed {
              return Err(ChainTxNotSeen), [], true;
            }
            data := data.(lockupTxid := a.fetched);
          }
          r := Ok(Break(true));
        case SwapExpired => r := Ok(Break(false));
        case _ => r := Err(UnexpectedUpdate(data.lastState));
      }
    }

    method Advance(a: Answers) returns (r: Result, moves: seq<Move>)
      modifies this, store
      ensures var id := old(data).response.id;
        var p := Poll(id, old(AsLive()), a);
        && Polled(AsLive(), r, moves) == p
        && store.entries == ApplyAll(old(store.entries), PollOps(session, id, p))
        && data.response.id == id
    {
      hide Sub.React, ResultOps;
      var update, rest, error := NextStatus(rx, data.response.id, polling);
      rx := rest;
      if update.None? {
        NoOps(session, data.response.id, Submarine(data), error);
        return Err(error), [];
      }
      var u := update.value;
      if u.status.None? {
        NoOps(session, data.response.id, Submarine(data), InvalidSwapState);
        return Err(InvalidSwapState), [];
      }
      Sub.StepFrame(session, data, u, a);
      var state := u.status.value;
      var early;
      r, moves, early := React(state, u, a);
      if early {
        NoOps(session, data.response.id, Submarine(data), r.error);
        return;
      }
      if r.Completed() {
        polling := true;
      }
      data := data.(lastState := state);
      WriteResult(store, session, Submarine(data), r);
    }

    method SetLockupTxid(txid: Txid)
      modifies this`data, store
      ensures Submarine(data) == Submarine(old(data)).SetLockup(Some(txid))
      ensures store.entries == Apply(old(store.entries), Persist(data.response.id, Submarine(data).Encode(session)))
    {
      data := data.(lockupTxid := Some(txid));
      store.PersistData(data.response.id, Submarine(data).Encode(session));
    }

    method CompletePay(answers: nat -> Answers) returns (r: Result, moves: seq<Move>)
      modifies this, store
      ensures Completion(AsLive(), store.entries, moves, r) ==
              ToCompletion(session, old(data).response.id, old(AsLive()), old(store.entries), answers, 0)
    {
      hide Swap.Advance, ResultOps;
      ghost var id, start, e := data.response.id, AsLive(), store.entries;
      moves := [];
      var i := 0;
      while true
        invariant data.response.id == id
        invariant var c := ToCompletion(session, id, AsLive(), store.entries, answers, i);
          ToCompletion(session, id, start, e, answers, 0) == c.(moves := moves + c.moves)
        decreases |rx|
      {
        NextOwnShorter(rx, id);
        var done, more := Advance(answers(i));
        if done != Ok(Continue) {
          return done, moves + more;
        }
        i := i + 1;
        ghost var c' := ToCompletion(session, id, AsLive(), store.entries, answers, i);
        assert moves + (more + c'.moves) == moves + more + c'.moves;
        moves := moves + more;
      }
    }
  }

  // ------------------------------------------------------------------ chain swaps

  class LockupResponse {
    var data: Chn.ChainSwapData
    var rx: seq<Update>
    var polling: bool
    const store: DynStore
    const session: Session

    constructor (session: Session, store: DynStore, data: Chn.ChainSwapData, rx: seq<Update>)
      ensures this.session == session && this.store == store && this.data == data && this.rx == rx
      ensures polling == session.polling
    {
      this.session, this.store, this.data, this.rx, polling := session, store, data, rx, session.polling;
    }

    function AsLive(): Live
      reads this
    {
      Live(Chain(data), rx, polling)
    }

    method BuildAndBroadcastClaim(a: Answers, flow: Flow) returns (r: Result, moves: seq<Move>, early: bool)
      modifies this`data
      ensures match Chn.ClaimLockup(old(data), a, flow)
        case Exit(e) => early && r == Err(e) && moves == [] && data == old(data)
        case Done(d, result, m) => !early && r == result && moves == m && data == d
    {
      if !a.constructed {
        return Err(ConstructFailed), [], true;
      }
      var txid := Retry(a.broadcasts, BROADCAST_ATTEMPTS);
      if txid.None? {
        return Err(BroadcastFailed), [], true;
      }
      data := data.(claimTxid := txid);
      return Ok(flow), [Claim(txid.value, data.claimAddress)], false;
    }

    method BuildAndBroadcastRefund(a: Answers) returns (r: Result, moves: seq<Move>, early: bool)
      modifies this`data
      ensures match Chn.RefundLockup(old(data), a)
        case Exit(e) => early && r == Err(e) && moves == [] && data == old(data)
        case Done(d, result, m) => !early && r == result && moves == m && data == d
    {
      if !a.constructed {
        return Err(ConstructFailed), [], true;
      }
      var txid := Retry(a.broadcasts, BROADCAST_ATTEMPTS);
      if txid.None? {
        return Err(BroadcastFailed), [], true;
      }
      data := data.(refundTxid := txid);
      return Ok(Break(true)), [Refund(txid.value, data.refundAddress)], false;
    }

    /** The match of `advance`; `early` tells that an error leaves `advance` at once. */
    method React(state: SwapState, u: Update, a: Answers) returns (r: Result, moves: seq<Move>, early: bool)
      modifies this`data
      ensures match Chn.React(old(data), state, u, a)
        case Exit(e) => early && r == Err(e) && moves == [] && data == Chn.Abandoned(old(data), state, a)
        case Done(d, result, m) => !early && r == result && moves == m && data == d
    {
      r, moves, early := Ok(Continue), [], false;
      match state {
        case SwapCreated =>
        case ServerTransactionMempool =>
        case TransactionMempool =>
          data := data.(lockupTxid := u.txid);
        case TransactionConfirmed =>
          if data.lockupTxid.None? {
            data := data.(lockupTxid := u.txid);
          }
        case ServerTransactionConfirmed =>
          if u.txid.Some? {
            if !a.lockupParses {
              return Err(BadLockup), [], true;
            }
            if !a.indexed {
              return Err(ChainTxNotSeen), [], true;
            }
          }
          r, moves, early := BuildAndBroadcastClaim(a, Continue);
        case TransactionClaimed =>
          if data.lockupTxid.None? && a.fetched.Some? {
            if !a.indexed {
              return Err(ChainTxNotSeen), [], true;
            }
            data := data.(lockupTxid := a.fetched);
          }
          if data.claimTxid.Some? {
            r := Ok(Break(true));
          } else {
            r, moves, early := BuildAndBroadcastClaim(a, Break(true));
          }
        case TransactionLockupFailed => r, moves, early := BuildAndBroadcastRefund(a);
        case TransactionFailed => r, moves, early := BuildAndBroadcastRefund(a);
        case TransactionRefunded => r, moves, early := BuildAndBroadcastRefund(a);
        case SwapExpired => r := Ok(Break(false));
        case _ => r := Err(UnexpectedUpdate(data.lastState));
      }
    }

    method Advance(a: Answers) returns (r: Result, moves: seq<Move>)
      modifies this, store
      ensures var id := old(data).response.id;
        var p := Poll(id, old(AsLive()), a);
        && Polled(AsLive(), r, moves) == p
        && store.entries == ApplyAll(old(store.entries), PollOps(session, id, p))
        && data.response.id == id
    {
      hide Chn.React, Chn.Abandoned, ResultOps;
      var update, rest, error := NextStatus(rx, data.response.id, polling);
      rx := rest;
      if update.None? {
        NoOps(session, data.response.id, Chain(data), error);
        return Err(error), [];
      }
      var u := update.value;
      if u.status.None? {
        NoOps(session, data.response.id, Chain(data), InvalidSwapState);
        return Err(InvalidSwapState), [];
      }
      Chn.StepFrame(session, data, u, a);
      var state := u.status.value;
      var early;
      r, moves, early := React(state, u, a);
      if early {
        NoOps(session, data.response.id, Chain(data), r.error);
        return;
      }
      if r.Completed() {
        polling := true;
      }
      data := data.(lastState := state);
      WriteResult(store, session, Chain(data), r);
    }

    method SetLockupTxid(txid: Txid)
      modifies this`data, store
      ensures Chain(data) == Chain(old(data)).SetLockup(Some(txid))
      ensures store.entries == Apply(old(store.entries), Persist(data.response.id, Chain(data).Encode(session)))
    {
      data := data.(lockupTxid := Some(txid));
      store.PersistData(data.response.id, Chain(data).Encode(session));
    }

    method Complete(answers: nat -> Answers) returns (r: Result, moves: seq<Move>)
      modifies this, store
      ensures Completion(AsLive(), store.entries, moves, r) ==
              ToCompletion(session, old(data).response.id, old(AsLive()), old(store.entries), answers, 0)
    {
      hide Swap.Advance, ResultOps;
      ghost var id, start, e := data.response.id, AsLive(), store.entries;
      moves := [];
      var i := 0;
      while true
        invariant data.response.id == id
        invariant var c := ToCompletion(session, id, AsLive(), store.entries, answers, i);
          ToCompletion(session, id, start, e, answers, 0) == c.(moves := moves + c.moves)
        decreases |rx|
      {
        NextOwnShorter(rx, id);
        var done, more := Advance(answers(i));
        if done != Ok(Continue) {
          return done, moves + more;
        }
        i := i + 1;
        ghost var c' := ToCompletion(session, id, AsLive(), store.entries, answers, i);
        assert moves + (more + c'.moves) == moves + more + c'.moves;
        moves := moves + more;
      }
    }
  }
}
