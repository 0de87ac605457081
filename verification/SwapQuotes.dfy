/**
 What a quote promised is what the claim of the swap delivers (lwk_boltz/src/quote.rs, reverse.rs,
 chain_swaps.rs).
 */
module SwapQuotes {
  import opened Prelude
  import opened SwapTypes
  import opened Swap
  import opened SwapSystem
  import opened SwapRuns
  import opened SwapFunds
  import opened SwapStore
  import opened SwapCompletion
  import Q = Quote

  /** The absolute fee a claim pays, from the data of the swap; without a known claim fee it is relative. */
  function ClaimFee(s: Swap): Option<nat>
  {
    match s
    case Reverse(d) => if d.claimFee.None? then None else Some(Q.ClaimFee(d.claimFee.value, d.toChain.Liquid?))
    case Submarine(_) => None
    case Chain(d) => if d.claimFee.None? then None else Some(Q.ClaimFee(d.claimFee.value, d.toChain.Liquid?))
  }

  lemma ClaimFeeIsFixed(s: Swap)
    ensures ClaimFee(Fixed(s)) == ClaimFee(s)
  {}

  /** The fee a claim pays stays what creation made it, over any events and restarts. */
  lemma ClaimFeeStays(session: Session, events: seq<Event>, id: string, n: nat)
    requires session.Lawful() && n <= |events| && id in Run(session, events[..n]).live
    requires id in Run(session, events).live
    ensures ClaimFee(Run(session, events).live[id].swap) == ClaimFee(Run(session, events[..n]).live[id].swap)
  {
    hide Run, Fixed, ClaimFee;
    DataStaysFixed(session, events, id, n);
    ClaimFeeIsFixed(Run(session, events[..n]).live[id].swap);
    ClaimFeeIsFixed(Run(session, events).live[id].swap);
  }

  /**
   What a quote promises is what the claim delivers: if a swap is created with the claim fee of the quoted
   pair, and the server locks the amount sent less its percentage and its own transaction fee,
   then at whatever later point of whatever run the swap claims, it is paid exactly the quoted amount;
   only a quote by a send amount too small for its fees is off.
   */
  lemma ClaimDeliversQuote(session: Session, events: seq<Event>, id: string, n: nat, b: Q.Builder, pair: Q.Pair)
    requires session.Lawful() && n <= |events| && id in Run(session, events[..n]).live
    requires id in Run(session, events).live
    requires Q.Names(b, Some(pair)) && !b.to.value.Lightning?
    requires ClaimFee(Run(session, events[..n]).live[id].swap) == Some(Q.ClaimFee(pair.claim, b.to.value.Liquid?))
    ensures b.Build().Quoted? && ClaimFee(Run(session, events).live[id].swap).Some?
    ensures var q := b.Build().quote;
      var locked := q.send - q.boltzFee - pair.server;
      locked - ClaimFee(Run(session, events).live[id].swap).value == q.receive
      <==> (b.mode.ByReceive? || Q.Unsaturated(q.send, q.networkFee, pair.rate))
  {
    hide Run, ClaimFee;
    ClaimFeeStays(session, events, id, n);
    Q.QuoteMatchesClaim(b, pair);
  }

  /** A swap created with the claim fee of a pair delivers what the pair was quoted for, at any time from then on. */
  lemma NewSwapDeliversQuote(session: Session, before: seq<Event>, s: Swap, after: seq<Event>, b: Q.Builder,
                          pair: Q.Pair)
    requires session.Lawful() && s.IsNew(session) && s.Id() !in Run(session, before).created
    requires s.Id() in Run(session, before + [Create(s)] + after).live
    requires Q.Names(b, Some(pair)) && !b.to.value.Lightning?
    requires match s
      case Reverse(d) => d.claimFee == Some(pair.claim) && d.toChain.Liquid? == b.to.value.Liquid?
      case Submarine(_) => false
      case Chain(d) => d.claimFee == Some(pair.claim) && d.toChain.Liquid? == b.to.value.Liquid?
    ensures var live := Run(session, before + [Create(s)] + after).live[s.Id()].swap;
      && b.Build().Quoted? && ClaimFee(live).Some?
      && var q := b.Build().quote;
         q.send - q.boltzFee - pair.server - ClaimFee(live).value == q.receive
         <==> (b.mode.ByReceive? || Q.Unsaturated(q.send, q.networkFee, pair.rate))
  {
    assert ClaimFee(s) == Some(Q.ClaimFee(pair.claim, b.to.value.Liquid?));
    hide Run, ClaimFee, Swap.IsNew, Swap.Id;
    CreatedIsLive(session, before, s);
    var events := before + [Create(s)] + after;
    assert events[..|before| + 1] == before + [Create(s)];
    ClaimDeliversQuote(session, events, s.Id(), |before| + 1, b, pair);
  }
}
