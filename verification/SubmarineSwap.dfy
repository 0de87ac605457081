/** Submarine swaps, on-chain to Lightning (lwk_boltz/src/submarine.rs, prepare_pay_data.rs). */
module SubmarineSwap {
  import opened Prelude
  import opened SwapTypes

  datatype PreparePayData = PreparePayData(
    lastState: SwapState,
    lockupTxid: Option<Txid>, refundTxid: Option<Txid>,
    fee: Option<nat>, boltzFee: Option<nat>,
    bolt11: Option<Bolt11>, bolt12: Option<Bolt12>,
    response: Response, ourKeys: Keypair, refundAddress: string,
    keyIndex: nat, identifier: KeyId, fromChain: Chain)

  datatype PreparePayRecord = PreparePayRecord(
    lastState: SwapState,
    lockupTxid: Option<Txid>, refundTxid: Option<Txid>,
    fee: Option<nat>, boltzFee: Option<nat>,
    bolt11: Option<string>, bolt12: Option<string>,
    response: Response, keyIndex: nat, refundAddress: string,
    identifier: KeyId, fromChain: string)

  // ------------------------------------------------------------------ creation

  predicate MadeBy(session: Session, d: PreparePayData)
  {
    && session.derive(d.keyIndex) == Some(d.ourKeys)
    && d.identifier == session.identifier
    && (d.fromChain == session.LiquidSide() || d.fromChain == session.BitcoinSide())
  }

  predicate IsNew(session: Session, d: PreparePayData)
  {
    MadeBy(session, d) && d.refundTxid.None?
  }

  /**
   What is to be paid; an offer comes with the invoice fetched for it, if an amount was given and it
   could be fetched.
   */
  datatype Payment = Invoice(bolt11: Bolt11) | Offer(bolt12: Option<Bolt12>) | LnUrl

  /** What the server and its answer turn out to be. */
  datatype Checks = Checks(
    hint: bool,                          // the invoice can be paid on Liquid directly
    valid: bool,                         // hash lock and address are those of the invoice
    script: bool,                        // the swap script can be built
    heard: bool)                         // a first status arrives in time

  predicate Payable(payment: Payment, fromLiquid: bool, checks: Checks)
  {
    match payment
    case Invoice(_) => !(fromLiquid && checks.hint)
    case Offer(invoice) => invoice.Some?
    case LnUrl => false
  }

  /** `prepare_pay_with_chain`, once the server has answered. */
  function NewPayment(session: Session, keyIndex: nat, fromLiquid: bool, payment: Payment, checks: Checks,
                      invoiceAmount: nat, response: Response, expectedAmount: nat, boltzFee: Option<nat>,
                      refundAddress: string): (r: Option<PreparePayData>)
    ensures r.Some? <==>
      && Payable(payment, fromLiquid, checks) && session.derive(keyIndex).Some? && invoiceAmount <= expectedAmount
      && checks.valid && checks.script && checks.heard
    ensures r.Some? ==> IsNew(session, r.value) && r.value.response == response && r.value.lockupTxid.None?
    ensures r.Some? ==> r.value.refundAddress == refundAddress && r.value.lastState == InvoiceSet
    ensures r.Some? ==> r.value.fromChain == if fromLiquid then session.LiquidSide() else session.BitcoinSide()
    ensures r.Some? ==> r.value.keyIndex == keyIndex && r.value.boltzFee == boltzFee
    ensures r.Some? ==> r.value.fee.Some? && r.value.fee.value + invoiceAmount == expectedAmount
    ensures r.Some? && payment.Invoice? ==> r.value.bolt11 == Some(payment.bolt11) && r.value.bolt12.None?
    ensures r.Some? && payment.Offer? ==> r.value.bolt11.None? && r.value.bolt12 == payment.bolt12
  {
    if !Payable(payment, fromLiquid, checks) then None
    else match session.derive(keyIndex)
      case None => None
      case Some(keys) =>
        if expectedAmount < invoiceAmount || !checks.valid || !checks.script || !checks.heard then None
        else Some(PreparePayData(
          InvoiceSet, None, None, Some(expectedAmount - invoiceAmount), boltzFee,
          if payment.Invoice? then Some(payment.bolt11) else None,
          if payment.Offer? then payment.bolt12 else None,
          response, keys, refundAddress, keyIndex, session.identifier,
          if fromLiquid then session.LiquidSide() else session.BitcoinSide()))
  }

  // ------------------------------------------------------------------ one step

  /** How a status is handled: to the end of `advance`, or out of it half way. */
  datatype Reaction = Done(data: PreparePayData, result: Result, moves: seq<Move>) | Exit(error: Error)

  function RefundLockup(d: PreparePayData, a: Answers): Reaction
  {
    if FirstSuccess(a.refundTries, REFUND_ATTEMPTS).None? then Exit(RefundNotBuilt)
    else match FirstSuccess(a.broadcasts, BROADCAST_ATTEMPTS)
      case None => Exit(BroadcastFailed)
      case Some(txid) => Done(d.(refundTxid := Some(txid)), Ok(Break(true)), [Refund(txid, d.refundAddress)])
  }

  function CooperativeClaimReply(d: PreparePayData, a: Answers): Result
  {
    if d.bolt11.None? && d.bolt12.None? then Ok(Break(true))
    else match a.cooperation
      case Sent => Ok(Continue)
      case NotEligible => Ok(Break(true))
      case Failed => Err(CooperativeClaim)
  }

  function React(d: PreparePayData, state: SwapState, u: Update, a: Answers): Reaction
  {
    match state
    case InvoiceSet | TransactionConfirmed | InvoicePending | InvoicePaid => Done(d, Ok(Continue), [])
    case TransactionMempool =>
      if u.txid.None? then Done(d, Ok(Continue), [])
      else if !a.indexed then Exit(ChainTxNotSeen)
      else Done(d.(lockupTxid := u.txid), Ok(Continue), [])
    case InvoiceFailedToPay =>
      if a.utxo.None? then Exit(UtxoLookup)
      else if a.utxo.value then RefundLockup(d, a)
      else Done(d, Ok(Break(false)), [])
    case TransactionLockupFailed => RefundLockup(d, a)
    case TransactionClaimPending => Done(d, CooperativeClaimReply(d, a), [])
    case TransactionClaimed =>
      if d.lockupTxid.None? && a.fetched.Some? then
        if !a.indexed then Exit(ChainTxNotSeen)
        else Done(d.(lockupTxid := a.fetched), Ok(Break(true)), [])
      else Done(d, Ok(Break(true)), [])
    case SwapExpired => Done(d, Ok(Break(false)), [])
    case _ => Done(d, Err(UnexpectedUpdate(d.lastState)), [])
  }

  function Advance(d: PreparePayData, u: Update, a: Answers): Outcome<PreparePayData>
  {
    match u.status
    case None => Outcome(d, Err(InvalidSwapState), [])
    case Some(state) =>
      match React(d, state, u, a)
      case Exit(e) => Outcome(d, Err(e), [])
      case Done(d', result, moves) => Outcome(d'.(lastState := state), result, moves)
  }

  /** What one step keeps, and what it does when it fails, goes on, or refunds. */
  lemma StepFrame(session: Session, d: PreparePayData, u: Update, a: Answers)
    ensures var o := Advance(d, u, a);
      && o.data.response == d.response
      && (MadeBy(session, d) ==> MadeBy(session, o.data))
      && (o.result.Err? || o.moves == [] ==>
            o.moves == [] && o.data == d.(lastState := o.data.lastState, lockupTxid := o.data.lockupTxid))
      && (o.moves != [] ==>
            |o.moves| == 1 && o.moves[0].Refund? && o.data.refundTxid == Some(o.moves[0].txid))
  {}

  // ------------------------------------------------------------------ stored form

  function ShowOption<T>(c: Codec<T>, v: Option<T>): Option<string>
  {
    if v.None? then None else Some(c.show(v.value))
  }

  /** Reading an optional text; the outer option is the parse. */
  function ReadOption<T>(c: Codec<T>, v: Option<string>): Option<Option<T>>
  {
    if v.None? then Some(None)
    else if c.parse(v.value).None? then None
    else Some(c.parse(v.value))
  }

  function Encode(session: Session, d: PreparePayData): PreparePayRecord
  {
    PreparePayRecord(
      d.lastState, d.lockupTxid, d.refundTxid, d.fee, d.boltzFee,
      ShowOption(session.bolt11, d.bolt11), ShowOption(session.bolt12, d.bolt12),
      d.response, d.keyIndex, d.refundAddress, d.identifier, ChainName(d.fromChain))
  }

  function Decode(session: Session, r: PreparePayRecord): Option<PreparePayData>
  {
    match session.derive(r.keyIndex)
    case None => None
    case Some(keys) =>
      var bolt11, bolt12 := ReadOption(session.bolt11, r.bolt11), ReadOption(session.bolt12, r.bolt12);
      var chain := session.ReadChain(r.fromChain);
      if r.identifier != session.identifier || bolt11.None? || bolt12.None? || chain.None? then None
      else Some(PreparePayData(
        r.lastState, r.lockupTxid, r.refundTxid, r.fee, r.boltzFee, bolt11.value, bolt12.value,
        r.response, keys, r.refundAddress, r.keyIndex, r.identifier, chain.value))
  }

  /** The stored form reads back to the same data, exactly for data made by the session. */
  lemma RoundTrip(session: Session, d: PreparePayData)
    requires session.Lawful()
    ensures Decode(session, Encode(session, d)) == Some(d) <==> MadeBy(session, d)
  {}

  /**
   A record is read exactly if its key can be derived, it is of this session, its chain has a known name and its
   invoices can be read. What is read is the session's, and writing it down again gives the record back, but that
   invoices may be spelt otherwise.
   */
  lemma ReadIff(session: Session, r: PreparePayRecord)
    requires session.Lawful()
    ensures Decode(session, r).Some? <==>
      && session.derive(r.keyIndex).Some? && r.identifier == session.identifier && r.fromChain in {"BTC", "L-BTC"}
      && (r.bolt11.Some? ==> session.bolt11.parse(r.bolt11.value).Some?)
      && (r.bolt12.Some? ==> session.bolt12.parse(r.bolt12.value).Some?)
    ensures Decode(session, r).Some? ==>
      var d := Decode(session, r).value;
      var r' := Encode(session, d);
      && MadeBy(session, d) && Decode(session, r') == Some(d)
      && r' == r.(bolt11 := r'.bolt11, bolt12 := r'.bolt12)
      && d.bolt11 == (if r.bolt11.Some? then session.bolt11.parse(r.bolt11.value) else None)
      && d.bolt12 == (if r.bolt12.Some? then session.bolt12.parse(r.bolt12.value) else None)
  {
    if Decode(session, r).Some? {
      RoundTrip(session, Decode(session, r).value);
    }
  }
}
