/** Chain swaps, Bitcoin to Liquid and back (lwk_boltz/src/chain_swaps.rs, chain_data.rs). */
module ChainSwap {
  import opened Prelude
  import opened SwapTypes

  datatype ChainSwapData = ChainSwapData(
    lastState: SwapState,
    fee: Option<nat>, boltzFee: Option<nat>, claimFee: Option<nat>,
    response: Response,
    claimKeys: Keypair, refundKeys: Keypair, preimage: Preimage,
    lockupAddress: string, expectedLockupAmount: nat,
    claimAddress: string, refundAddress: string,
    claimKeyIndex: nat, refundKeyIndex: nat, identifier: KeyId,
    fromChain: Chain, toChain: Chain, randomPreimage: bool,
    claimTxid: Option<Txid>, lockupTxid: Option<Txid>, refundTxid: Option<Txid>)

  datatype ChainSwapRecord = ChainSwapRecord(
    lastState: SwapState,
    fee: Option<nat>, boltzFee: Option<nat>, claimFee: Option<nat>,
    response: Response,
    claimKeyIndex: nat, refundKeyIndex: nat,
    lockupAddress: string, expectedLockupAmount: nat,
    claimAddress: string, refundAddress: string,
    identifier: KeyId, fromChain: string, toChain: string, preimage: Option<string>,
    claimTxid: Option<Txid>, lockupTxid: Option<Txid>, refundTxid: Option<Txid>)

  // ------------------------------------------------------------------ creation

  /** Made by the session, up to the network label of its chains. */
  predicate MadeBy(session: Session, d: ChainSwapData)
  {
    && session.derive(d.claimKeyIndex) == Some(d.claimKeys)
    && session.derive(d.refundKeyIndex) == Some(d.refundKeys)
    && d.identifier == session.identifier
    && (!d.randomPreimage ==> d.preimage == session.preimageOf(d.claimKeys))
  }

  predicate IsNew(session: Session, d: ChainSwapData)
  {
    MadeBy(session, d) && d.claimTxid.None? && d.refundTxid.None?
  }

  /** What the server's answer turns out to be. */
  datatype Checks = Checks(
    valid: bool,                         // both sides carry our keys and the preimage hash
    scripts: bool,                       // both swap scripts can be built
    first: Option<SwapState>)            // the first status, if one arrives in time and is known

  /** `onchain_swap`, once the server has answered; `fees` are its percentage fee and the claim fee of the pair. */
  function NewChainSwap(session: Session, claimKeyIndex: nat, refundKeyIndex: nat, toLiquid: bool,
                        random: Option<Preimage>, response: Response, checks: Checks, lockupAddress: string,
                        lockupAmount: nat, claimAmount: nat, fees: Option<(nat, nat)>,
                        claimAddress: string, refundAddress: string): (r: Option<ChainSwapData>)
    ensures r.Some? <==>
      && session.derive(claimKeyIndex).Some? && session.derive(refundKeyIndex).Some?
      && checks.valid && checks.scripts && checks.first.Some?
    ensures r.Some? ==> IsNew(session, r.value) && r.value.response == response && r.value.lockupTxid.None?
    ensures r.Some? ==> r.value.claimAddress == claimAddress && r.value.refundAddress == refundAddress
    ensures r.Some? ==> r.value.lockupAddress == lockupAddress && r.value.expectedLockupAmount == lockupAmount
    ensures r.Some? && toLiquid ==>
      r.value.fromChain == session.BitcoinSide() && r.value.toChain == session.LiquidSide()
    ensures r.Some? && !toLiquid ==>
      r.value.fromChain == session.LiquidSide() && r.value.toChain == session.BitcoinSide()
    ensures r.Some? ==> r.value.claimKeyIndex == claimKeyIndex && r.value.refundKeyIndex == refundKeyIndex
    ensures r.Some? ==> Some(r.value.lastState) == checks.first && (r.value.randomPreimage <==> random.Some?)
    ensures r.Some? && random.Some? ==> r.value.preimage == random.value
    ensures r.Some? ==> r.value.fee.Some?
    ensures r.Some? && claimAmount <= lockupAmount ==> r.value.fee.value + claimAmount == lockupAmount
    ensures r.Some? && lockupAmount < claimAmount ==> r.value.fee == Some(0)
    ensures r.Some? && fees.Some? ==> r.value.boltzFee == Some(fees.value.0) && r.value.claimFee == Some(fees.value.1)
    ensures r.Some? && fees.None? ==> r.value.boltzFee.None? && r.value.claimFee.None?
  {
    match (session.derive(claimKeyIndex), session.derive(refundKeyIndex))
    case (Some(claimKeys), Some(refundKeys)) =>
      if !checks.valid || !checks.scripts || checks.first.None? then None
      else Some(ChainSwapData(
        checks.first.value, Some(if lockupAmount >= claimAmount then lockupAmount - claimAmount else 0),
        if fees.Some? then Some(fees.value.0) else None,
        if fees.Some? then Some(fees.value.1) else None,
        response, claimKeys, refundKeys, session.PreimageFor(claimKeys, random),
        lockupAddress, lockupAmount, claimAddress, refundAddress, claimKeyIndex, refundKeyIndex,
        session.identifier,
        if toLiquid then session.BitcoinSide() else session.LiquidSide(),
        if toLiquid then session.LiquidSide() else session.BitcoinSide(),
        random.Some?, None, None, None))
    case _ => None
  }

  // ------------------------------------------------------------------ one step

  datatype Reaction = Done(data: ChainSwapData, result: Result, moves: seq<Move>) | Exit(error: Error)

  function ClaimLockup(d: ChainSwapData, a: Answers, flow: Flow): Reaction
  {
    if !a.constructed then Exit(ConstructFailed)
    else match FirstSuccess(a.broadcasts, BROADCAST_ATTEMPTS)
      case None => Exit(BroadcastFailed)
      case Some(txid) => Done(d.(claimTxid := Some(txid)), Ok(flow), [Claim(txid, d.claimAddress)])
  }

  function RefundLockup(d: ChainSwapData, a: Answers): Reaction
  {
    if !a.constructed then Exit(ConstructFailed)
    else match FirstSuccess(a.broadcasts, BROADCAST_ATTEMPTS)
      case None => Exit(BroadcastFailed)
      case Some(txid) => Done(d.(refundTxid := Some(txid)), Ok(Break(true)), [Refund(txid, d.refundAddress)])
  }

  /** The lockup transaction has to be looked up, was found, and cannot be seen on the chain. */
  predicate LockupLookupFails(d: ChainSwapData, a: Answers)
  {
    d.lockupTxid.None? && a.fetched.Some? && !a.indexed
  }

  function WithLockup(d: ChainSwapData, txid: Option<Txid>): ChainSwapData
  {
    if d.lockupTxid.None? then d.(lockupTxid := txid) else d
  }

  function React(d: ChainSwapData, state: SwapState, u: Update, a: Answers): Reaction
  {
    match state
    case SwapCreated | ServerTransactionMempool => Done(d, Ok(Continue), [])
    case TransactionMempool => Done(d.(lockupTxid := u.txid), Ok(Continue), [])
    case TransactionConfirmed => Done(WithLockup(d, u.txid), Ok(Continue), [])
    case ServerTransactionConfirmed =>
      if u.txid.Some? && !a.lockupParses then Exit(BadLockup)
      else if u.txid.Some? && !a.indexed then Exit(ChainTxNotSeen)
      else ClaimLockup(d, a, Continue)
    case TransactionClaimed =>
      if LockupLookupFails(d, a) then Exit(ChainTxNotSeen)
      else
        var d := WithLockup(d, a.fetched);
        if d.claimTxid.Some? then Done(d, Ok(Break(true)), []) else ClaimLockup(d, a, Break(true))
    case TransactionLockupFailed | TransactionFailed | TransactionRefunded => RefundLockup(d, a)
    case SwapExpired => Done(d, Ok(Break(false)), [])
    case _ => Done(d, Err(UnexpectedUpdate(d.lastState)), [])
  }

  /** What an early exit leaves behind: only a lockup txid found on the way to a failed claim. */
  function Abandoned(d: ChainSwapData, state: SwapState, a: Answers): ChainSwapData
  {
    if state.TransactionClaimed? && !LockupLookupFails(d, a) then WithLockup(d, a.fetched) else d
  }

  function Advance(d: ChainSwapData, u: Update, a: Answers): Outcome<ChainSwapData>
  {
    match u.status
    case None => Outcome(d, Err(InvalidSwapState), [])
    case Some(state) =>
      match React(d, state, u, a)
      case Exit(e) => Outcome(Abandoned(d, state, a), Err(e), [])
      case Done(d', result, moves) => Outcome(d'.(lastState := state), result, moves)
  }

  /** Handling a status changes no more than the transaction ids. */
  lemma ReactFrame(d: ChainSwapData, state: SwapState, u: Update, a: Answers)
    ensures var r := React(d, state, u, a);
      r.Done? ==>
        && r.data == d.(claimTxid := r.data.claimTxid, lockupTxid := r.data.lockupTxid, refundTxid := r.data.refundTxid)
        && (r.result.Err? ==> r.moves == [])
        && (r.moves == [] ==> r.data.claimTxid == d.claimTxid && r.data.refundTxid == d.refundTxid)
        && (r.moves != [] ==>
              && |r.moves| == 1
              && r.data.claimTxid == (if r.moves[0].Claim? then Some(r.moves[0].txid) else d.claimTxid)
              && r.data.refundTxid == (if r.moves[0].Refund? then Some(r.moves[0].txid) else d.refundTxid))
  {}

  /** What one step keeps, and what it does when it fails, goes on, claims or refunds. */
  lemma StepFrame(session: Session, d: ChainSwapData, u: Update, a: Answers)
    ensures var o := Advance(d, u, a);
      && o.data.response == d.response
      && (MadeBy(session, d) ==> MadeBy(session, o.data))
      && (o.result.Err? || o.moves == [] ==>
            o.moves == [] && o.data == d.(lastState := o.data.lastState, lockupTxid := o.data.lockupTxid))
      && (o.moves != [] ==>
            && |o.moves| == 1
            && o.data.claimTxid == (if o.moves[0].Claim? then Some(o.moves[0].txid) else d.claimTxid)
            && o.data.refundTxid == (if o.moves[0].Refund? then Some(o.moves[0].txid) else d.refundTxid))
  {
    if u.status.Some? {
      ReactFrame(d, u.status.value, u, a);
    }
  }

  /** The data with the network label of its chains forgotten. */
  function Unlabelled(d: ChainSwapData): ChainSwapData
  {
    d.(fromChain := d.fromChain.(net := Regtest), toChain := d.toChain.(net := Regtest))
  }

  lemma ReactIgnoresLabel(d: ChainSwapData, state: SwapState, u: Update, a: Answers)
    ensures React(Unlabelled(d), state, u, a) ==
            match React(d, state, u, a)
            case Exit(e) => Exit(e)
            case Done(d', result, moves) => Done(Unlabelled(d'), result, moves)
  {}

  /** The network label of the chains has no influence on a step. */
  lemma StepIgnoresLabel(d: ChainSwapData, u: Update, a: Answers)
    ensures Advance(Unlabelled(d), u, a) ==
            var o := Advance(d, u, a); Outcome(Unlabelled(o.data), o.result, o.moves)
  {
    if u.status.Some? {
      ReactIgnoresLabel(d, u.status.value, u, a);
    }
  }

  // ------------------------------------------------------------------ stored form

  function Encode(session: Session, d: ChainSwapData): ChainSwapRecord
  {
    ChainSwapRecord(
      d.lastState, d.fee, d.boltzFee, d.claimFee, d.response, d.claimKeyIndex, d.refundKeyIndex,
      d.lockupAddress, d.expectedLockupAmount, d.claimAddress, d.refundAddress, d.identifier,
      ChainName(d.fromChain), ChainName(d.toChain),
      if d.randomPreimage then Some(session.preimages.show(d.preimage)) else None,
      d.claimTxid, d.lockupTxid, d.refundTxid)
  }

  /** Chain names of chain swaps always read as regtest chains. */
  function ReadChain(name: string): Option<Chain>
  {
    if name == "BTC" then Some(Bitcoin(Regtest))
    else if name == "L-BTC" then Some(Liquid(Regtest))
    else None
  }

  function Decode(session: Session, r: ChainSwapRecord): Option<ChainSwapData>
  {
    match (session.derive(r.claimKeyIndex), session.derive(r.refundKeyIndex))
    case (Some(claimKeys), Some(refundKeys)) =>
      var preimage := session.ReadPreimage(claimKeys, r.preimage);
      var from, to := ReadChain(r.fromChain), ReadChain(r.toChain);
      if preimage.None? || r.identifier != session.identifier || from.None? || to.None? then None
      else Some(ChainSwapData(
        r.lastState, r.fee, r.boltzFee, r.claimFee, r.response, claimKeys, refundKeys, preimage.value,
        r.lockupAddress, r.expectedLockupAmount, r.claimAddress, r.refundAddress,
        r.claimKeyIndex, r.refundKeyIndex, r.identifier, from.value, to.value, r.preimage.Some?,
        r.claimTxid, r.lockupTxid, r.refundTxid))
    case _ => None
  }

  /**
   The stored form reads back up to the network label, exactly for data made by the session;
   so it reads back unchanged exactly if both chains were regtest chains to begin with.
   */
  lemma RoundTrip(session: Session, d: ChainSwapData)
    requires session.Lawful()
    ensures Decode(session, Encode(session, d)) == Some(Unlabelled(d)) <==> MadeBy(session, d)
    ensures Decode(session, Encode(session, d)) == Some(d) <==>
            MadeBy(session, d) && d.fromChain.net.Regtest? && d.toChain.net.Regtest?
  {}

  /**
   A record is read exactly if its keys can be derived, it is of this session, its chains have known names and its
   preimage, if it has one, can be read. What is read is the session's but for the labels, and writing it down again
   gives the record back, but that the preimage may be spelt otherwise.
   */
  lemma ReadIff(session: Session, r: ChainSwapRecord)
    requires session.Lawful()
    ensures Decode(session, r).Some? <==>
      && session.derive(r.claimKeyIndex).Some? && session.derive(r.refundKeyIndex).Some?
      && r.identifier == session.identifier && r.fromChain in {"BTC", "L-BTC"} && r.toChain in {"BTC", "L-BTC"}
      && (r.preimage.Some? ==> session.preimages.parse(r.preimage.value).Some?)
    ensures Decode(session, r).Some? ==>
      var d := Decode(session, r).value;
      var r' := Encode(session, d);
      && MadeBy(session, d) && Decode(session, r') == Some(d)
      && r' == r.(preimage := r'.preimage)
      && (r'.preimage.Some? <==> r.preimage.Some?)
      && (r.preimage.Some? ==> session.preimages.parse(r.preimage.value) == Some(d.preimage))
  {
    if Decode(session, r).Some? {
      RoundTrip(session, Decode(session, r).value);
    }
  }
}
