/** Reverse swaps, Lightning to on-chain (lwk_boltz/src/reverse.rs, invoice_data.rs). */
module ReverseSwap {
  import opened Prelude
  import opened SwapTypes

  datatype InvoiceData = InvoiceData(
    lastState: SwapState,
    claimBroadcasted: bool,
    fee: Option<nat>, boltzFee: Option<nat>, claimFee: Option<nat>,
    claimTxid: Option<Txid>, lockupTxid: Option<Txid>,
    response: Response,
    keyIndex: nat, identifier: KeyId, ourKeys: Keypair, preimage: Preimage,
    claimAddress: string, toChain: Chain, randomPreimage: bool)

  datatype InvoiceRecord = InvoiceRecord(
    lastState: SwapState,
    fee: Option<nat>, boltzFee: Option<nat>, claimFee: Option<nat>,
    claimTxid: Option<Txid>, lockupTxid: Option<Txid>,
    response: Response,
    keyIndex: nat, claimAddress: string, toChain: string, identifier: KeyId,
    claimBroadcasted: Option<bool>, preimage: Option<string>)

  // ------------------------------------------------------------------ creation

  /** Data that a session made: keys, preimage and chain are the session's own. */
  predicate MadeBy(session: Session, d: InvoiceData)
  {
    && session.derive(d.keyIndex) == Some(d.ourKeys)
    && d.identifier == session.identifier
    && (d.toChain == session.LiquidSide() || d.toChain == session.BitcoinSide())
    && (!d.randomPreimage ==> d.preimage == session.preimageOf(d.ourKeys))
  }

  predicate IsNew(session: Session, d: InvoiceData)
  {
    MadeBy(session, d) && !d.claimBroadcasted && d.claimTxid.None?
  }

  /** What the server's answer turns out to be. */
  datatype Checks = Checks(
    invoice: Option<bool>,               // the answer has an invoice, and whether it parses
    hint: bool,                          // the invoice has the routing hint every invoice of the server has
    script: bool,                        // the swap script can be built
    first: Option<SwapState>)            // the first status, if one arrives in time and is known

  /**
   `invoice_with_chain`, once the server has answered; `fees` are its percentage fee and the claim fee
   of the pair.
   */
  function NewInvoice(session: Session, keyIndex: nat, toLiquid: bool, random: Option<Preimage>, amount: nat,
                      response: Response, onchainAmount: nat, checks: Checks, fees: Option<(nat, nat)>,
                      claimAddress: string): (r: Option<InvoiceData>)
    ensures r.Some? <==>
      && session.derive(keyIndex).Some? && checks.invoice == Some(true) && onchainAmount <= amount
      && checks.hint && checks.script && checks.first.Some?
    ensures r.Some? ==> IsNew(session, r.value) && r.value.response == response && r.value.lockupTxid.None?
    ensures r.Some? ==> r.value.claimAddress == claimAddress && Some(r.value.lastState) == checks.first
    ensures r.Some? ==> r.value.toChain == if toLiquid then session.LiquidSide() else session.BitcoinSide()
    ensures r.Some? ==> r.value.keyIndex == keyIndex && (r.value.randomPreimage <==> random.Some?)
    ensures r.Some? && random.Some? ==> r.value.preimage == random.value
    ensures r.Some? ==> r.value.fee.Some? && r.value.fee.value + onchainAmount == amount
    ensures r.Some? && fees.Some? ==> r.value.boltzFee == Some(fees.value.0) && r.value.claimFee == Some(fees.value.1)
    ensures r.Some? && fees.None? ==> r.value.boltzFee.None? && r.value.claimFee.None?
  {
    match session.derive(keyIndex)
    case None => None
    case Some(keys) =>
      if checks.invoice != Some(true) || amount < onchainAmount || !checks.hint || !checks.script || checks.first.None?
      then None
      else Some(InvoiceData(
        checks.first.value, false, Some(amount - onchainAmount),
        if fees.Some? then Some(fees.value.0) else None,
        if fees.Some? then Some(fees.value.1) else None,
        None, None, response, keyIndex, session.identifier, keys, session.PreimageFor(keys, random),
        claimAddress, if toLiquid then session.LiquidSide() else session.BitcoinSide(), random.Some?))
  }

  // ------------------------------------------------------------------ one step

  /** Claim the server's lockup unless that was done before. */
  function ClaimIfNecessary(d: InvoiceData, u: Update, a: Answers): Outcome<InvoiceData>
  {
    if d.claimBroadcasted then Outcome(d, Ok(Continue), [])
    else if u.txid.Some? && !a.indexed then Outcome(d, Err(ChainTxNotSeen), [])
    else
      var d := if d.lockupTxid.None? then d.(lockupTxid := u.txid) else d;
      if !a.constructed then Outcome(d, Err(ConstructFailed), [])
      else match FirstSuccess(a.broadcasts, BROADCAST_ATTEMPTS)
        case None => Outcome(d, Err(BroadcastFailed), [])
        case Some(txid) =>
          Outcome(d.(claimTxid := Some(txid), claimBroadcasted := true), Ok(Continue), [Claim(txid, d.claimAddress)])
  }

  function React(d: InvoiceData, state: SwapState, u: Update, a: Answers): Outcome<InvoiceData>
  {
    match state
    case SwapCreated => Outcome(d, Ok(Continue), [])
    case TransactionMempool | TransactionConfirmed => ClaimIfNecessary(d, u, a)
    case TransactionDirect | InvoiceSettled => Outcome(d, Ok(Break(true)), [])
    case SwapExpired | InvoiceExpired => Outcome(d, Ok(Break(false)), [])
    case _ => Outcome(d, Err(UnexpectedUpdate(d.lastState)), [])
  }

  /** `advance` on the data: every failure past the status text still records the status seen. */
  function Advance(d: InvoiceData, u: Update, a: Answers): Outcome<InvoiceData>
  {
    match u.status
    case None => Outcome(d, Err(InvalidSwapState), [])
    case Some(state) =>
      var o := React(d, state, u, a);
      Outcome(o.data.(lastState := state), o.result, o.moves)
  }

  /** What one step keeps, and what it does when it fails, goes on, or claims. */
  lemma StepFrame(session: Session, d: InvoiceData, u: Update, a: Answers)
    ensures var o := Advance(d, u, a);
      && o.data.response == d.response
      && (MadeBy(session, d) ==> MadeBy(session, o.data))
      && (o.result.Err? || o.moves == [] ==>
            o.moves == [] && o.data == d.(lastState := o.data.lastState, lockupTxid := o.data.lockupTxid))
      && (o.moves != [] ==>
            && !d.claimBroadcasted && o.data.claimBroadcasted
            && |o.moves| == 1 && o.moves[0].Claim? && o.data.claimTxid == Some(o.moves[0].txid))
  {}

  // ------------------------------------------------------------------ stored form

  function Encode(session: Session, d: InvoiceData): InvoiceRecord
  {
    InvoiceRecord(
      d.lastState, d.fee, d.boltzFee, d.claimFee, d.claimTxid, d.lockupTxid, d.response, d.keyIndex,
      d.claimAddress, ChainName(d.toChain), d.identifier, Some(d.claimBroadcasted),
      if d.randomPreimage then Some(session.preimages.show(d.preimage)) else None)
  }

  function Decode(session: Session, r: InvoiceRecord): Option<InvoiceData>
  {
    match session.derive(r.keyIndex)
    case None => None
    case Some(keys) =>
      var preimage, chain := session.ReadPreimage(keys, r.preimage), session.ReadChain(r.toChain);
      if preimage.None? || r.identifier != session.identifier || chain.None? then None
      else Some(InvoiceData(
        r.lastState, r.claimBroadcasted.Some? && r.claimBroadcasted.value, r.fee, r.boltzFee, r.claimFee,
        r.claimTxid, r.lockupTxid, r.response, r.keyIndex, r.identifier, keys, preimage.value,
        r.claimAddress, chain.value, r.preimage.Some?))
  }

  /** The stored form reads back to the same data, exactly for data made by the session. */
  lemma RoundTrip(session: Session, d: InvoiceData)
    requires session.Lawful()
    ensures Decode(session, Encode(session, d)) == Some(d) <==> MadeBy(session, d)
  {}

  /**
   A record is read exactly if its key can be derived, it is of this session, its chain has a known name and its
   preimage, if it has one, can be read. What is read is the session's, and writing it down again gives the record
   back, but that an absent flag reads as not claimed and that the preimage may be spelt otherwise.
   */
  lemma ReadIff(session: Session, r: InvoiceRecord)
    requires session.Lawful()
    ensures Decode(session, r).Some? <==>
      && session.derive(r.keyIndex).Some? && r.identifier == session.identifier && r.toChain in {"BTC", "L-BTC"}
      && (r.preimage.Some? ==> session.preimages.parse(r.preimage.value).Some?)
    ensures Decode(session, r).Some? ==>
      var d := Decode(session, r).value;
      var r' := Encode(session, d);
      && MadeBy(session, d) && Decode(session, r') == Some(d)
      && r' == r.(claimBroadcasted := Some(r.claimBroadcasted == Some(true)), preimage := r'.preimage)
      && (r'.preimage.Some? <==> r.preimage.Some?)
      && (r.preimage.Some? ==> session.preimages.parse(r.preimage.value) == Some(d.preimage))
  {
    if Decode(session, r).Some? {
      RoundTrip(session, Decode(session, r).value);
    }
  }
}
