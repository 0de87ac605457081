/** The three kinds of swaps behind one interface, as a session drives and stores them. */
module Swap {
  import opened Prelude
  import opened SwapTypes
  import R = ReverseSwap
  import S = SubmarineSwap
  import C = ChainSwap

  datatype Swap = Reverse(invoice: R.InvoiceData) | Submarine(pay: S.PreparePayData) | Chain(chain: C.ChainSwapData)
  {
    function Id(): string
    {
      match this
      case Reverse(d) => d.response.id
      case Submarine(d) => d.response.id
      case Chain(d) => d.response.id
    }

    function LastState(): SwapState
    {
      match this
      case Reverse(d) => d.lastState
      case Submarine(d) => d.lastState
      case Chain(d) => d.lastState
    }

    function LockupTxid(): Option<Txid>
    {
      match this
      case Reverse(d) => d.lockupTxid
      case Submarine(d) => d.lockupTxid
      case Chain(d) => d.lockupTxid
    }

    function ClaimTxid(): Option<Txid>
    {
      match this
      case Reverse(d) => d.claimTxid
      case Submarine(_) => None
      case Chain(d) => d.claimTxid
    }

    function RefundTxid(): Option<Txid>
    {
      match this
      case Reverse(_) => None
      case Submarine(d) => d.refundTxid
      case Chain(d) => d.refundTxid
    }

    /** The addresses that were given for what the swap claims, and for what it refunds. */
    function ClaimAddress(): Option<string>
    {
      match this
      case Reverse(d) => Some(d.claimAddress)
      case Submarine(_) => None
      case Chain(d) => Some(d.claimAddress)
    }

    function RefundAddress(): Option<string>
    {
      match this
      case Reverse(_) => None
      case Submarine(d) => Some(d.refundAddress)
      case Chain(d) => Some(d.refundAddress)
    }

    /** The transaction pays the address that was given for it. */
    predicate Pays(m: Move)
    {
      Some(m.to) == if m.Claim? then ClaimAddress() else RefundAddress()
    }

    predicate MadeBy(session: Session)
    {
      match this
      case Reverse(d) => R.MadeBy(session, d)
      case Submarine(d) => S.MadeBy(session, d)
      case Chain(d) => C.MadeBy(session, d)
    }

    predicate IsNew(session: Session)
    {
      match this
      case Reverse(d) => R.IsNew(session, d)
      case Submarine(d) => S.IsNew(session, d)
      case Chain(d) => C.IsNew(session, d)
    }

    function Advance(u: Update, a: Answers): Outcome<Swap>
    {
      match this
      case Reverse(d) => var o := R.Advance(d, u, a); Outcome(Reverse(o.data), o.result, o.moves)
      case Submarine(d) => var o := S.Advance(d, u, a); Outcome(Submarine(o.data), o.result, o.moves)
      case Chain(d) => var o := C.Advance(d, u, a); Outcome(Chain(o.data), o.result, o.moves)
    }

    function Encode(session: Session): Record
    {
      match this
      case Reverse(d) => ReverseRecord(R.Encode(session, d))
      case Submarine(d) => SubmarineRecord(S.Encode(session, d))
      case Chain(d) => ChainRecord(C.Encode(session, d))
    }

    /** `set_lockup_txid`, offered by submarine and chain swaps. */
    function SetLockup(txid: Option<Txid>): Swap
    {
      match this
      case Reverse(d) => this
      case Submarine(d) => Submarine(d.(lockupTxid := txid))
      case Chain(d) => Chain(d.(lockupTxid := txid))
    }

    /** Restoring fills in an unknown lockup txid from the server, except for reverse swaps. */
    function FillLockup(fetched: Option<Txid>): Swap
    {
      if LockupTxid().None? then SetLockup(fetched) else this
    }

    /** Everything but the network label of a chain swap, which storing forgets. */
    function Unlabelled(): Swap
    {
      if Chain? then Chain(C.Unlabelled(chain)) else this
    }

    /** Everything but what an `advance` that fails may change. */
    function Core(): Swap
    {
      match this
      case Reverse(d) => Reverse(d.(lastState := Initialized, lockupTxid := None))
      case Submarine(d) => Submarine(d.(lastState := Initialized, lockupTxid := None))
      case Chain(d) => Chain(C.Unlabelled(d).(lastState := Initialized, lockupTxid := None))
    }
  }

  datatype Record =
    | ReverseRecord(invoice: R.InvoiceRecord)
    | SubmarineRecord(pay: S.PreparePayRecord)
    | ChainRecord(chain: C.ChainSwapRecord)

  function Decode(session: Session, r: Record): Option<Swap>
  {
    match r
    case ReverseRecord(i) => var d := R.Decode(session, i); if d.None? then None else Some(Reverse(d.value))
    case SubmarineRecord(p) => var d := S.Decode(session, p); if d.None? then None else Some(Submarine(d.value))
    case ChainRecord(c) => var d := C.Decode(session, c); if d.None? then None else Some(Chain(d.value))
  }

  // ------------------------------------------------------------------ facts about one step

  /** Storing a swap of the session and reading it back loses at most the network label. */
  lemma StoredFormReadsBack(session: Session, s: Swap)
    requires session.Lawful() && s.MadeBy(session)
    ensures Decode(session, s.Encode(session)) == Some(s.Unlabelled())
    ensures s.Unlabelled().MadeBy(session)
    ensures s.Unlabelled() == s <==> (s.Chain? ==> s.chain.fromChain.net.Regtest? && s.chain.toChain.net.Regtest?)
  {
    match s
    case Reverse(d) => R.RoundTrip(session, d);
    case Submarine(d) => S.RoundTrip(session, d);
    case Chain(d) => C.RoundTrip(session, d);
  }

  /**
   What a step keeps and what it does: keys, preimage, chains and id never change; a failing
   step changes at most the last state and the lockup txid; a successful one makes at most one
   transaction, and that transaction is recorded in the data.
   */
  lemma StepFrame(session: Session, s: Swap, u: Update, a: Answers)
    ensures var o := s.Advance(u, a);
      && o.data.Id() == s.Id()
      && (s.MadeBy(session) ==> o.data.MadeBy(session))
      && (o.result.Err? || o.moves == [] ==> o.data.Core() == s.Core() && o.moves == [])
      && (o.moves != [] ==>
            && |o.moves| == 1
            && o.data.ClaimTxid() == (if o.moves[0].Claim? then Some(o.moves[0].txid) else s.ClaimTxid())
            && o.data.RefundTxid() == (if o.moves[0].Refund? then Some(o.moves[0].txid) else s.RefundTxid()))
      && o.data.ClaimAddress() == s.ClaimAddress() && o.data.RefundAddress() == s.RefundAddress()
      && (forall m | m in o.moves :: s.Pays(m))
  {
    match s
    case Reverse(d) => R.StepFrame(session, d, u, a);
    case Submarine(d) => S.StepFrame(session, d, u, a);
    case Chain(d) => C.StepFrame(session, d, u, a);
  }

  /** A step that ends the swap saw a status of this list; a step that goes on saw no terminal one. */
  lemma StepStatus(s: Swap, u: Update, a: Answers)
    ensures var o := s.Advance(u, a);
      o.result.Ok? ==>
        && Some(o.data.LastState()) == u.status
        && (!o.result.Completed() ==> !o.data.LastState().IsTerminal())
        && (o.result.Completed() ==>
              match s
              case Reverse(_) => o.data.LastState().IsTerminal()
              case Submarine(_) =>
                || o.data.LastState().IsTerminal()
                || o.data.LastState() in {InvoiceFailedToPay, TransactionLockupFailed, TransactionClaimPending}
              case Chain(_) =>
                || o.data.LastState().IsTerminal()
                || o.data.LastState() in {TransactionLockupFailed, TransactionRefunded})
  {}

  /** The network label of a chain swap has no influence on what happens. */
  lemma StepIgnoresLabel(s: Swap, u: Update, a: Answers)
    ensures var o, o' := s.Advance(u, a), s.Unlabelled().Advance(u, a);
      o'.data == o.data.Unlabelled() && o'.result == o.result && o'.moves == o.moves
  {
    if s.Chain? { C.StepIgnoresLabel(s.chain, u, a); }
  }

  /** The stored form does not tell the network label either. */
  lemma EncodeIgnoresLabel(session: Session, s: Swap)
    ensures s.Unlabelled().Encode(session) == s.Encode(session)
  {}

  /**
   A known lockup txid is lost exactly when a chain swap is told of a lockup in the mempool without
   being told which.
   */
  lemma LockupLostIff(s: Swap, u: Update, a: Answers)
    requires s.LockupTxid().Some?
    ensures s.Advance(u, a).data.LockupTxid().None? <==>
      s.Chain? && u.status == Some(TransactionMempool) && u.txid.None?
  {}
}
