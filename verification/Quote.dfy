/**
 Swap quotes (lwk_boltz/src/quote.rs).

 The service percentage is an exact rational: `rate.num / rate.den` stands for
 `percentage / 100`, always below one. Amounts are naturals.
 */
module Quote {
  import opened Prelude

  /** A service rate below 100%, as an exact fraction. */
  datatype RawRate = Rate(num: nat, den: nat)
  type Rate = r: RawRate | r.num < r.den witness Rate(0, 1)

  const LIQUID_UNCOOPERATIVE_EXTRA: nat := 3

  function CeilDiv(a: nat, b: nat): nat
    requires b > 0
  {
    (a + b - 1) / b
  }

  function BoltzFee(amount: nat, rate: Rate): nat
  {
    CeilDiv(rate.num * amount, rate.den)
  }

  function SendAmount(receive: nat, networkFee: nat, rate: Rate): nat
  {
    CeilDiv((receive + networkFee) * rate.den, rate.den - rate.num)
  }

  datatype Mode = BySend(send: nat) | ByReceive(receive: nat)

  datatype Quote = Quote(send: nat, receive: nat, networkFee: nat, boltzFee: nat, min: nat, max: nat)

  function SaturatingSub(a: nat, b: nat): nat
  {
    if a >= b then a - b else 0
  }

  function BuildQuote(mode: Mode, networkFee: nat, rate: Rate, min: nat, max: nat): Quote
  {
    match mode
    case BySend(send) =>
      var fee := BoltzFee(send, rate);
      Quote(send, SaturatingSub(send, fee + networkFee), networkFee, fee, min, max)
    case ByReceive(receive) =>
      var send := SendAmount(receive, networkFee, rate);
      Quote(send, receive, networkFee, BoltzFee(send, rate), min, max)
  }

  /** What a payer of `send` receives: the forward direction of the quote. */
  function Forward(send: nat, networkFee: nat, rate: Rate): nat
  {
    BuildQuote(BySend(send), networkFee, rate, 0, 0).receive
  }

  /** The fees fit into the amount sent, so the subtraction does not saturate. */
  predicate Unsaturated(send: nat, networkFee: nat, rate: Rate)
  {
    BoltzFee(send, rate) + networkFee <= send
  }

  // ------------------------------------------------------------------ arithmetic

  lemma CeilDivBounds(a: nat, b: nat)
    requires b > 0
    ensures CeilDiv(a, b) * b >= a
    ensures CeilDiv(a, b) > 0 ==> (CeilDiv(a, b) - 1) * b < a
  {
    var q := CeilDiv(a, b);
    assert a + b - 1 == q * b + (a + b - 1) % b;
  }

  lemma {:induction false} MulMono(x: int, y: int, k: nat)
    requires x <= y
    ensures x * k <= y * k
  {
    assert (y - x) * k >= 0;
    assert (y - x) * k == y * k - x * k;
  }

  /** `send - fee(send)` is the floor of `send * (den - num) / den`. */
  lemma NetBounds(send: nat, rate: Rate)
    ensures var net := send - BoltzFee(send, rate);
      net * rate.den <= send * (rate.den - rate.num) < (net + 1) * rate.den
    ensures BoltzFee(send, rate) <= send
  {
    var n, d, fee := rate.num, rate.den, BoltzFee(send, rate);
    CeilDivBounds(n * send, d);
    assert send * (d - n) == send * d - n * send;
    assert (send - fee) * d == send * d - fee * d;
    assert (send - fee + 1) * d == send * d - (fee - 1) * d;
    MulMono(n, d, send);
    if fee > send {
      MulMono(send, fee - 1, d);
    }
  }

  /** The send amount is the least one whose net reaches `base`; and it reaches it exactly. */
  lemma SendAmountNet(base: nat, rate: Rate)
    ensures var s := CeilDiv(base * rate.den, rate.den - rate.num);
      && s - BoltzFee(s, rate) == base
      && forall t: nat :: t < s ==> t - BoltzFee(t, rate) < base
  {
    var n, d := rate.num, rate.den;
    var k := d - n;
    var s := CeilDiv(base * d, k);
    CeilDivBounds(base * d, k);
    NetBounds(s, rate);
    var net := s - BoltzFee(s, rate);
    assert (base + 1) * d == base * d + d;
    assert s > 0 ==> (s - 1) * k == s * k - k;
    if net < base {
      MulMono(net + 1, base, d);  // but base * d <= s * k < (net + 1) * d
    } else if net > base {
      MulMono(base + 1, net, d);  // but net * d <= s * k < base * d + k
    }
    forall t: nat | t < s
      ensures t - BoltzFee(t, rate) < base
    {
      NetBounds(t, rate);
      MulMono(t, s - 1, k);
      var m := t - BoltzFee(t, rate);
      if m >= base {
        MulMono(base, m, d);
      }
    }
  }

  lemma NetMono(s: nat, t: nat, rate: Rate)
    requires s <= t
    ensures s - BoltzFee(s, rate) <= t - BoltzFee(t, rate)
  {
    NetBounds(s, rate);
    NetBounds(t, rate);
    MulMono(s, t, rate.den - rate.num);
    var a, b := s - BoltzFee(s, rate), t - BoltzFee(t, rate);
    if a > b {
      MulMono(b + 1, a, rate.den);
    }
  }

  // ------------------------------------------------------------------ theorems

  /**
   Quoting by receive amount is an exact section of quoting by send amount: paying the
   quoted send amount delivers exactly the amount asked for, with nothing saturated.
   Paying one less delivers strictly less exactly when something was asked for.
   */
  lemma ReceiveQuoteIsExactAndMinimal(receive: nat, networkFee: nat, rate: Rate, min: nat, max: nat)
    ensures var q := BuildQuote(ByReceive(receive), networkFee, rate, min, max);
      && Unsaturated(q.send, networkFee, rate)
      && BuildQuote(BySend(q.send), networkFee, rate, min, max) == q
      && (q.send > 0 ==> (Forward(q.send - 1, networkFee, rate) < receive <==> receive > 0))
  {
    SendAmountNet(receive + networkFee, rate);
  }

  /**
   The two directions form a Galois connection, exactly where something is asked for or the
   send amount covers its fees.
   */
  lemma QuoteGalois(send: nat, receive: nat, networkFee: nat, rate: Rate)
    ensures (SendAmount(receive, networkFee, rate) <= send <==> receive <= Forward(send, networkFee, rate))
       <==> receive > 0 || Unsaturated(send, networkFee, rate)
  {
    var s := SendAmount(receive, networkFee, rate);
    SendAmountNet(receive + networkFee, rate);
    NetBounds(send, rate);
    if s <= send {
      NetMono(s, send, rate);
    }
  }

  /** Forward quoting never loses money by sending more. */
  lemma ForwardMonotone(s: nat, t: nat, networkFee: nat, rate: Rate)
    requires s <= t
    ensures Forward(s, networkFee, rate) <= Forward(t, networkFee, rate)
  {
    NetMono(s, t, rate);
  }

  /** Every satoshi sent is received or charged, in both modes; by send exactly when unsaturated. */
  lemma QuoteConserves(mode: Mode, networkFee: nat, rate: Rate, min: nat, max: nat)
    ensures var q := BuildQuote(mode, networkFee, rate, min, max);
      q.send == q.receive + q.boltzFee + q.networkFee
      <==> (mode.ByReceive? || Unsaturated(mode.send, networkFee, rate))
  {
    if mode.ByReceive? {
      SendAmountNet(mode.receive + networkFee, rate);
    }
  }

  /**
   Converting a send amount to what it delivers and back never asks for more, and the
   overshoot stays below `den / (den - num)`: at most one satoshi for rates up to 50%.
   */
  lemma RoundTripSlack(send: nat, networkFee: nat, rate: Rate)
    requires Unsaturated(send, networkFee, rate)
    ensures var back := SendAmount(Forward(send, networkFee, rate), networkFee, rate);
      && back <= send
      && (send - back) * (rate.den - rate.num) < rate.den
      && (2 * rate.num <= rate.den ==> send - back <= 1)
  {
    var n, d := rate.num, rate.den;
    var k := d - n;
    var receive := Forward(send, networkFee, rate);
    var back := SendAmount(receive, networkFee, rate);
    QuoteGalois(send, receive, networkFee, rate);
    var base := receive + networkFee;
    CeilDivBounds(base * d, k);
    NetBounds(send, rate);
    assert (base + 1) * d == base * d + d;
    assert (send - back) * k == send * k - back * k;
    if 2 * n <= d && send - back >= 2 {
      MulMono(2, send - back, k);
    }
  }

  // ------------------------------------------------------------------ pairs and the builder

  datatype Asset = Lightning | Onchain | Liquid

  /** Fees and limits of a pair: `claim` is what our claim pays, `server` what the server's own
      transaction costs (the lockup of a reverse pair, the server fee of a chain pair). */
  datatype Pair = Pair(rate: Rate, claim: nat, server: nat, min: nat, minBatched: Option<nat>, max: nat)

  /** The cached pairs; a submarine pair has no claim of ours, its `server` is the miner fee. */
  datatype SwapInfo = SwapInfo(reverseLiquid: Option<Pair>, reverseBitcoin: Option<Pair>,
                               submarineLiquid: Option<Pair>, submarineBitcoin: Option<Pair>,
                               chainToLiquid: Option<Pair>, chainToBitcoin: Option<Pair>)

  datatype QuoteError = MissingParam(param: string) | PairNotAvailable | InvalidPair(from: Asset, to: Asset)
  datatype QuoteResult = Quoted(quote: Quote) | Rejected(error: QuoteError)

  datatype Builder = Builder(mode: Mode, from: Option<Asset>, to: Option<Asset>, info: SwapInfo)
  {
    /** The pair used for a direction, if the direction is supported at all. */
    static function Route(info: SwapInfo, from: Asset, to: Asset): Option<Option<Pair>>
    {
      match (from, to)
      case (Lightning, Liquid) => Some(info.reverseLiquid)
      case (Lightning, Onchain) => Some(info.reverseBitcoin)
      case (Liquid, Lightning) => Some(info.submarineLiquid)
      case (Onchain, Lightning) => Some(info.submarineBitcoin)
      case (Onchain, Liquid) => Some(info.chainToLiquid)
      case (Liquid, Onchain) => Some(info.chainToBitcoin)
      case _ => None
    }

    function Build(): QuoteResult
    {
      if from.None? then Rejected(MissingParam("send"))
      else if to.None? then Rejected(MissingParam("receive"))
      else match Route(info, from.value, to.value)
        case None => Rejected(InvalidPair(from.value, to.value))
        case Some(None) => Rejected(PairNotAvailable)
        case Some(Some(pair)) =>
          if to.value.Lightning? then
            var min := if pair.minBatched.Some? then pair.minBatched.value else pair.min;
            Quoted(BuildQuote(mode, pair.server, pair.rate, min, pair.max))
          else
            var extra := if to.value.Liquid? then LIQUID_UNCOOPERATIVE_EXTRA else 0;
            Quoted(BuildQuote(mode, pair.claim + pair.server + extra, pair.rate, pair.min, pair.max))
    }
  }

  /** The pair named by the two assets: reverse from Lightning, submarine towards it, chain between the two chains. */
  predicate Names(b: Builder, pair: Option<Pair>)
  {
    && b.from.Some? && b.to.Some?
    && var (from, to, info) := (b.from.value, b.to.value, b.info);
      || (from.Lightning? && to.Liquid? && pair == info.reverseLiquid)
      || (from.Lightning? && to.Onchain? && pair == info.reverseBitcoin)
      || (from.Liquid? && to.Lightning? && pair == info.submarineLiquid)
      || (from.Onchain? && to.Lightning? && pair == info.submarineBitcoin)
      || (from.Onchain? && to.Liquid? && pair == info.chainToLiquid)
      || (from.Liquid? && to.Onchain? && pair == info.chainToBitcoin)
  }

  /** The fee is the share of the amount sent, rounded up. */
  predicate IsShare(fee: nat, send: nat, rate: Rate)
  {
    rate.num * send <= fee * rate.den < rate.num * send + rate.den
  }

  /** What a quote of the pair says, whichever amount was given. */
  ghost predicate IsQuoteOf(q: Quote, mode: Mode, to: Asset, pair: Pair)
  {
    && q.networkFee == (if to.Lightning? then pair.server else pair.claim + pair.server + if to.Liquid? then 3 else 0)
    && q.min == (if to.Lightning? && pair.minBatched.Some? then pair.minBatched.value else pair.min)
    && q.max == pair.max
    && IsShare(q.boltzFee, q.send, pair.rate)
    && (mode.BySend? ==>
          && q.send == mode.send
          && q.receive == SaturatingSub(q.send, q.boltzFee + q.networkFee))
    && (mode.ByReceive? ==>
          && q.receive == mode.receive && q.send == q.receive + q.boltzFee + q.networkFee
          && forall t: nat, fee: nat | t < q.send && IsShare(fee, t, pair.rate) ::
               t < q.receive + fee + q.networkFee)
  }

  lemma CeilUnique(a: nat, d: nat, f: nat, fee: nat)
    requires d > 0 && a <= f * d < a + d
    ensures a <= fee * d < a + d <==> fee == f
  {
    if fee < f {
      MulMono(fee, f - 1, d);
      assert (f - 1) * d == f * d - d;
    } else if fee > f {
      MulMono(f + 1, fee, d);
      assert (f + 1) * d == f * d + d;
    }
  }

  lemma ShareUnique(fee: nat, send: nat, rate: Rate)
    ensures IsShare(fee, send, rate) <==> fee == BoltzFee(send, rate)
  {
    var a, d, f := rate.num * send, rate.den, BoltzFee(send, rate);
    CeilDivBounds(a, d);
    assert f > 0 ==> (f - 1) * d == f * d - d;
    hide CeilDiv;
    CeilUnique(a, d, f, fee);
  }

  lemma BuiltQuote(mode: Mode, networkFee: nat, pair: Pair, min: nat, to: Asset)
    requires networkFee
      == if to.Lightning? then pair.server else pair.claim + pair.server + if to.Liquid? then 3 else 0
    requires min == if to.Lightning? && pair.minBatched.Some? then pair.minBatched.value else pair.min
    ensures IsQuoteOf(BuildQuote(mode, networkFee, pair.rate, min, pair.max), mode, to, pair)
  {
    var q := BuildQuote(mode, networkFee, pair.rate, min, pair.max);
    ShareUnique(q.boltzFee, q.send, pair.rate);
    if mode.ByReceive? {
      SendAmountNet(mode.receive + networkFee, pair.rate);
      forall t: nat, fee: nat | t < q.send && IsShare(fee, t, pair.rate)
        ensures t < q.receive + fee + q.networkFee
      {
        ShareUnique(fee, t, pair.rate);
      }
    }
  }

  /**
   Each of the six directions is quoted from the pair its two assets name, and rejected exactly when the service does
   not offer that pair.
   */
  lemma DirectionQuotes(b: Builder, pair: Option<Pair>)
    requires Names(b, pair)
    ensures pair.None? <==> b.Build() == Rejected(PairNotAvailable)
    ensures pair.Some? <==> b.Build().Quoted?
    ensures pair.Some? ==> IsQuoteOf(b.Build().quote, b.mode, b.to.value, pair.value)
  {
    if pair.Some? {
      hide IsQuoteOf, BuildQuote;
      var q := b.Build().quote;
      var to, p := b.to.value, pair.value;
      var fee := if to.Lightning? then p.server else p.claim + p.server + if to.Liquid? then 3 else 0;
      var min := if to.Lightning? && p.minBatched.Some? then p.minBatched.value else p.min;
      BuiltQuote(b.mode, fee, p, min, to);
    }
  }

  /** A quote is the only one of its pair. */
  lemma QuoteUnique(q: Quote, r: Quote, mode: Mode, to: Asset, pair: Pair)
    requires IsQuoteOf(q, mode, to, pair) && IsQuoteOf(r, mode, to, pair)
    ensures q == r
  {
    ShareUnique(q.boltzFee, q.send, pair.rate);
    ShareUnique(r.boltzFee, r.send, pair.rate);
  }

  /** The other pairs do not matter. */
  lemma OtherPairsDoNotMatter(b: Builder, info: SwapInfo, pair: Option<Pair>)
    requires Names(b, pair) && Names(b.(info := info), pair)
    ensures b.(info := info).Build() == b.Build()
  {
    hide Names, IsQuoteOf;
    var c := b.(info := info);
    DirectionQuotes(b, pair);
    DirectionQuotes(c, pair);
    if pair.Some? {
      QuoteUnique(b.Build().quote, c.Build().quote, b.mode, b.to.value, pair.value);
    }
  }

  /** The rejections before any pair is looked at; from here on the two assets name a pair. */
  lemma RejectedIff(b: Builder)
    ensures b.Build() == Rejected(MissingParam("send")) <==> b.from.None?
    ensures b.Build() == Rejected(MissingParam("receive")) <==> b.from.Some? && b.to.None?
    ensures b.from.Some? && b.to.Some? ==>
      (b.from == b.to <==> b.Build() == Rejected(InvalidPair(b.from.value, b.to.value)))
    ensures b.from.Some? && b.to.Some? && b.from != b.to <==> exists pair :: Names(b, pair)
  {
    if b.from.Some? && b.to.Some? && b.from != b.to {
      var pair := Builder.Route(b.info, b.from.value, b.to.value).value;
      assert Names(b, pair);
    }
  }

  /** The absolute fee a claim transaction pays (reverse.rs and chain_swaps.rs agree on it). */
  function ClaimFee(claimFee: nat, toLiquid: bool): nat
  {
    claimFee + if toLiquid then LIQUID_UNCOOPERATIVE_EXTRA else 0
  }

  /**
   What a quote promises is what the claim delivers: if the server locks the amount sent
   less its percentage and its own transaction fee, claiming at the absolute claim fee pays
   out exactly the quoted amount, for both claim chains of reverse and chain swaps; and only
   a quote by send amount too small for its fees is off.
   */
  lemma QuoteMatchesClaim(b: Builder, pair: Pair)
    requires Names(b, Some(pair)) && !b.to.value.Lightning?
    ensures b.Build().Quoted?
    ensures var q := b.Build().quote;
      var locked := q.send - q.boltzFee - pair.server;
      locked - ClaimFee(pair.claim, b.to.value.Liquid?) == q.receive
      <==> (b.mode.ByReceive? || Unsaturated(q.send, q.networkFee, pair.rate))
  {
    var q := b.Build().quote;
    QuoteConserves(b.mode, q.networkFee, pair.rate, q.min, q.max);
  }
}
