/** Vocabulary of the Boltz swap engine (lwk_boltz/src/swap_state.rs, lib.rs). */
module SwapTypes {
  import opened Prelude

  type Txid(==, !new)
  type Keypair(==, !new)
  type KeyId(==, !new)
  type Preimage(==, !new)
  type Bolt11(==, !new)
  type Bolt12(==, !new)

  datatype SwapState =
    | Initialized | InvoiceSet | TransactionMempool | TransactionConfirmed | InvoicePending | InvoicePaid
    | TransactionClaimPending | TransactionClaimed | TransactionLockupFailed | TransactionFailed
    | InvoiceFailedToPay | SwapCreated | TransactionDirect | InvoiceSettled | InvoiceExpired | SwapExpired
    | ServerTransactionMempool | ServerTransactionConfirmed | TransactionZeroconfRejected | TransactionRefunded
  {
    predicate IsTerminal()
    {
      || TransactionClaimed? || TransactionDirect? || InvoiceSettled?
      || InvoiceExpired? || SwapExpired? || TransactionFailed?
    }
  }

  datatype Net = Mainnet | Testnet | Regtest
  datatype Chain = Bitcoin(net: Net) | Liquid(net: Net)

  /** The name of a chain does not tell its network. */
  function ChainName(c: Chain): string
  {
    if c.Bitcoin? then "BTC" else "L-BTC"
  }

  /** What the server answered when the swap was created: its id and everything else. */
  datatype Response = Response(id: string, body: string)

  /** A status update; `status` is absent when its text is no known state. */
  datatype Update = Update(id: string, status: Option<SwapState>, txid: Option<Txid>)

  datatype Error =
    | NoBoltzUpdate | Timeout | InvalidSwapState | UnexpectedUpdate(state: SwapState)
    | ChainTxNotSeen | BadLockup | ConstructFailed | BroadcastFailed | RefundNotBuilt | UtxoLookup | CooperativeClaim

  datatype Flow = Continue | Break(success: bool)

  datatype Result = Ok(flow: Flow) | Err(error: Error)
  {
    predicate Completed() { Ok? && flow.Break? }
  }

  /** A transaction of ours that a node accepted, and the address it pays. */
  datatype Move = Claim(txid: Txid, to: string) | Refund(txid: Txid, to: string)

  datatype Cooperation = Sent | NotEligible | Failed

  /** What the outside world answers during one `advance`: chain clients and the server's API. */
  datatype Answers = Answers(
    indexed: bool,                       // the chain client gets to see a transaction it waits for
    lockupParses: bool,                  // the server's lockup transaction is sane
    constructed: bool,                   // a claim or refund transaction can be built
    refundTries: seq<Option<()>>,        // successive attempts at building a submarine refund
    broadcasts: seq<Option<Txid>>,       // successive attempts at broadcasting
    fetched: Option<Txid>,               // the lockup txid known to the server's API
    utxo: Option<bool>,                  // whether the lockup address holds funds, if that can be told
    cooperation: Cooperation)            // reply to a cooperative claim

  /** The outcome of one `advance` on swap data. */
  datatype Outcome<D> = Outcome(data: D, result: Result, moves: seq<Move>)

  // ------------------------------------------------------------------ sessions

  /**
   A session: its network and what its mnemonic and the cryptographic libraries compute.
   `derive` is the keypair at an index of the Boltz derivation path.
   */
  datatype Session = Session(
    net: Net,
    identifier: KeyId,
    derive: nat -> Option<Keypair>,
    preimageOf: Keypair -> Preimage,
    preimages: Codec<Preimage>,
    bolt11: Codec<Bolt11>,
    bolt12: Codec<Bolt12>,
    polling: bool)
  {
    function LiquidSide(): Chain { Liquid(net) }
    function BitcoinSide(): Chain { Bitcoin(net) }

    /** Texts of preimages and invoices can be read back. */
    ghost predicate Lawful()
    {
      RoundTrips(preimages) && RoundTrips(bolt11) && RoundTrips(bolt12)
    }

    /** The preimage of a swap: given when drawn at random, computed from the keys otherwise. */
    function PreimageFor(keys: Keypair, random: Option<Preimage>): Preimage
    {
      if random.Some? then random.value else preimageOf(keys)
    }

    /** Reading a stored preimage. */
    function ReadPreimage(keys: Keypair, stored: Option<string>): Option<Preimage>
    {
      if stored.None? then Some(preimageOf(keys)) else preimages.parse(stored.value)
    }

    /** Reading a chain name relative to the session's network. */
    function ReadChain(name: string): Option<Chain>
    {
      if name == "BTC" then Some(BitcoinSide())
      else if name == "L-BTC" then Some(LiquidSide())
      else None
    }
  }

  // ------------------------------------------------------------------ retries

  const BROADCAST_ATTEMPTS: nat := 30
  const REFUND_ATTEMPTS: nat := 5

  /** The first success among at most `n` attempts. */
  function FirstSuccess<T>(tries: seq<Option<T>>, n: nat): Option<T>
    decreases n
  {
    if n == 0 || tries == [] then None
    else if tries[0].Some? then tries[0]
    else FirstSuccess(tries[1..], n - 1)
  }

  /** A retried action succeeds exactly if one of its attempts does, with the first such answer. */
  lemma {:induction false} FirstSuccessIsFirst<T>(tries: seq<Option<T>>, n: nat)
    ensures FirstSuccess(tries, n).None? <==> forall i :: 0 <= i < n && i < |tries| ==> tries[i].None?
    ensures forall i :: 0 <= i < n && i < |tries| && tries[i].Some? && (forall j :: 0 <= j < i ==> tries[j].None?)
              ==> FirstSuccess(tries, n) == tries[i]
    decreases n
  {
    if n > 0 && tries != [] && tries[0].None? {
      FirstSuccessIsFirst(tries[1..], n - 1);
      forall i | 0 <= i < n && i < |tries| && tries[i].Some? && (forall j :: 0 <= j < i ==> tries[j].None?)
        ensures FirstSuccess(tries, n) == tries[i]
      {
        assert tries[1..][i - 1] == tries[i];
        assert forall j :: 0 <= j < i - 1 ==> tries[1..][j] == tries[j + 1];
      }
      if FirstSuccess(tries, n).None? {
        forall i | 0 <= i < n && i < |tries| ensures tries[i].None? {
          if i > 0 { assert tries[1..][i - 1] == tries[i]; }
        }
      } else {
        var i :| 0 <= i < n - 1 && i < |tries[1..]| && tries[1..][i].Some?;
        assert tries[i + 1].Some?;
      }
    }
  }

  /** `broadcast_tx_with_retry` and `make_refund_tx_with_retry`: try, and try again on failure. */
  method Retry<T>(tries: seq<Option<T>>, attempts: nat) returns (r: Option<T>)
    ensures r == FirstSuccess(tries, attempts)
  {
    var i := 0;
    while i < attempts
      invariant 0 <= i <= attempts
      invariant FirstSuccess(tries, attempts) ==
                FirstSuccess(if i <= |tries| then tries[i..] else [], attempts - i)
    {
      if i < |tries| && tries[i].Some? {
        return tries[i];
      }
      assert i < |tries| ==> tries[i..][1..] == tries[i + 1..];
      i := i + 1;
    }
    return None;
  }
}
