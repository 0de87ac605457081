/**
 Any number of swaps of one session on one broadcast of updates and one store
 (lwk_boltz/src/lib.rs, store.rs, and the create, advance, restore and remove entry points).
 */
module SwapSystem {
  import opened Prelude
  import opened SwapTypes
  import opened Swap
  import opened SwapStore

  // ------------------------------------------------------------------ receiving updates

  /** The first update of a swap in its receiver, and what is left in the receiver then. */
  function NextOwn(rx: seq<Update>, id: string): Option<(Update, seq<Update>)>
  {
    if rx == [] then None
    else if rx[0].id == id then Some((rx[0], rx[1..]))
    else NextOwn(rx[1..], id)
  }

  /** The updates of one swap among those of all. */
  function Own(rx: seq<Update>, id: string): seq<Update>
  {
    if rx == [] then []
    else if rx[|rx| - 1].id == id then Own(rx[..|rx| - 1], id) + [rx[|rx| - 1]]
    else Own(rx[..|rx| - 1], id)
  }

  lemma {:induction false} OwnSplit(xs: seq<Update>, ys: seq<Update>, id: string)
    ensures Own(xs + ys, id) == Own(xs, id) + Own(ys, id)
  {
    if ys == [] {
      assert xs + ys == xs;
    } else {
      var n := |ys| - 1;
      assert (xs + ys)[..|xs + ys| - 1] == xs + ys[..n];
      OwnSplit(xs, ys[..n], id);
    }
  }

  /** Receiving skips other swaps' updates and loses none of its own. */
  lemma {:induction false} NextOwnIsHead(rx: seq<Update>, id: string)
    ensures match NextOwn(rx, id)
      case None => Own(rx, id) == []
      case Some((u, rest)) => u.id == id && Own(rx, id) == [u] + Own(rest, id)
  {
    if rx == [] {
    } else {
      assert rx == [rx[0]] + rx[1..];
      OwnSplit([rx[0]], rx[1..], id);
      assert [rx[0]][..0] == [];
      NextOwnIsHead(rx[1..], id);
    }
  }

  lemma {:induction false} OwnOnly(rx: seq<Update>, id: string)
    ensures forall u :: u in Own(rx, id) ==> u.id == id
    ensures Own(Own(rx, id), id) == Own(rx, id)
  {
    if rx == [] {
    } else {
      var n := |rx| - 1;
      OwnOnly(rx[..n], id);
      if rx[n].id == id {
        OwnSplit(Own(rx[..n], id), [rx[n]], id);
        assert [rx[n]][..0] == [];
      }
    }
  }

  /** How the absence of an update is reported. */
  function NoUpdate(polling: bool): Error
  {
    if polling then NoBoltzUpdate else Timeout
  }

  /** `next_status`: receive until an update of this swap shows up or there is none left. */
  method NextStatus(rx: seq<Update>, id: string, polling: bool) returns (update: Option<Update>,
                    rest: seq<Update>, error: Error)
    ensures match NextOwn(rx, id)
      case None => update.None? && rest == [] && error == NoUpdate(polling)
      case Some((u, left)) => update == Some(u) && rest == left
  {
    rest := rx;
    error := NoUpdate(polling);
    while rest != []
      invariant NextOwn(rx, id) == NextOwn(rest, id)
    {
      var u := rest[0];
      rest := rest[1..];
      if u.id == id {
        return Some(u), rest, error;
      }
    }
    return None, [], error;
  }

  // ------------------------------------------------------------------ one response

  /** A swap response in memory: its data, its receiver, its polling flag. */
  datatype Live = Live(swap: Swap, rx: seq<Update>, polling: bool)

  datatype Polled = Polled(live: Live, result: Result, moves: seq<Move>)

  /** One call of `advance`, up to its writes to the store. */
  function Poll(id: string, live: Live, a: Answers): Polled
  {
    match NextOwn(live.rx, id)
    case None => Polled(live.(rx := []), Err(NoUpdate(live.polling)), [])
    case Some((u, rest)) =>
      var o := live.swap.Advance(u, a);
      Polled(Live(o.data, rest, live.polling || o.result.Completed()), o.result, o.moves)
  }

  /** The writes to the store at the end of `advance`. */
  function ResultOps(session: Session, id: string, s: Swap, result: Result): seq<Op>
  {
    match result
    case Err(_) => []
    case Ok(Continue) => [Persist(id, s.Encode(session))]
    case Ok(Break(_)) => [Persist(id, s.Encode(session)), MoveToCompleted(id)]
  }

  function PollOps(session: Session, id: string, p: Polled): seq<Op>
  {
    ResultOps(session, id, p.live.swap, p.result)
  }

  /** Restoring a stored swap: `fetched` is the lockup txid the server knows. */
  function Restored(session: Session, record: Option<Record>, fetched: Option<Txid>): Option<Swap>
  {
    if record.None? then None
    else match Decode(session, record.value)
      case None => None
      case Some(s) => Some(s.FillLockup(fetched))
  }

  function RestoreOps(id: string, restored: Option<Swap>): seq<Op>
  {
    if restored.Some? && restored.value.LastState().IsTerminal() then [MoveToCompleted(id)] else []
  }

  // ------------------------------------------------------------------ the whole session

  datatype Event =
    | Create(swap: Swap)                                // a swap is created and stored as pending
    | Publish(update: Update)                           // the server broadcasts an update
    | Advance(id: string, answers: Answers)             // `advance` is called
    | Restart(id: string, fetched: Option<Txid>)        // the response is dropped and restored from the store
    | SetLockup(id: string, txid: Txid)                 // `set_lockup_txid` is called
    | Remove(id: string)                                // `remove_swap` is called

  /** The swap an event is about. */
  function Target(ev: Event): string
  {
    match ev
    case Create(s) => s.Id()
    case Publish(u) => u.id
    case Advance(id, _) => id
    case Restart(id, _) => id
    case SetLockup(id, _) => id
    case Remove(id) => id
  }

  /** What an event finds out about its swap: the response in memory, the record, if it was created. */
  datatype Facts = Facts(live: Option<Live>, record: Option<Record>, created: bool)
  {
    /** The server hands out every id once. */
    predicate CanCreate(session: Session, s: Swap)
    {
      !created && s.IsNew(session)
    }

    predicate CanSetLockup()
    {
      live.Some? && !live.value.swap.Reverse?
    }
  }

  /** The writes of an event to the store. */
  function EventOps(session: Session, id: string, k: Facts, ev: Event): seq<Op>
  {
    match ev
    case Create(s) => if k.CanCreate(session, s) then [Persist(id, s.Encode(session)), AddToPending(id)] else []
    case Publish(_) => []
    case Advance(_, a) => if k.live.Some? then PollOps(session, id, Poll(id, k.live.value, a)) else []
    case Restart(_, fetched) => RestoreOps(id, Restored(session, k.record, fetched))
    case SetLockup(_, txid) =>
      if k.CanSetLockup() then [Persist(id, k.live.value.swap.SetLockup(Some(txid)).Encode(session))] else []
    case Remove(_) => [RemoveSwap(id)]
  }

  /** The response after an event; a restored response keeps listening where the dropped one was. */
  function EventLive(session: Session, id: string, k: Facts, ev: Event): Option<Live>
  {
    match ev
    case Create(s) => if k.CanCreate(session, s) then Some(Live(s, [], session.polling)) else k.live
    case Publish(u) => if k.live.Some? then Some(k.live.value.(rx := k.live.value.rx + [u])) else None
    case Advance(_, a) => if k.live.Some? then Some(Poll(id, k.live.value, a).live) else None
    case Restart(_, fetched) =>
      var restored := Restored(session, k.record, fetched);
      if restored.None? then None
      else Some(Live(restored.value, if k.live.Some? then k.live.value.rx else [], session.polling))
    case SetLockup(_, txid) =>
      if k.CanSetLockup() then Some(k.live.value.(swap := k.live.value.swap.SetLockup(Some(txid)))) else k.live
    case Remove(_) => k.live
  }

  /** The transactions an event gets into the chain. */
  function EventMoves(id: string, k: Facts, ev: Event): seq<Move>
  {
    if ev.Advance? && k.live.Some? then Poll(id, k.live.value, ev.answers).moves else []
  }

  /** What an event returns, if it is a call of `advance` on a response. */
  function EventResult(id: string, k: Facts, ev: Event): Option<Result>
  {
    if ev.Advance? && k.live.Some? then Some(Poll(id, k.live.value, ev.answers).result) else None
  }

  function EventCreated(session: Session, k: Facts, ev: Event): bool
  {
    k.created || (ev.Create? && k.CanCreate(session, ev.swap))
  }

  datatype Sys = Sys(live: map<string, Live>, entries: Entries, moves: map<string, seq<Move>>, created: set<string>)
  {
    function MovesOf(id: string): seq<Move>
    {
      if id in moves then moves[id] else []
    }

    function Known(id: string): Facts
    {
      Facts(if id in live then Some(live[id]) else None, RecordOf(entries, id), id in created)
    }
  }

  const START: Sys := Sys(map[], map[], map[], {})

  function Ops(session: Session, sys: Sys, ev: Event): seq<Op>
  {
    EventOps(session, Target(ev), sys.Known(Target(ev)), ev)
  }

  /** A broadcast reaches every receiver; any other event changes one response. */
  function NextLive(session: Session, sys: Sys, ev: Event): map<string, Live>
  {
    if ev.Publish? then map id | id in sys.live :: sys.live[id].(rx := sys.live[id].rx + [ev.update])
    else match EventLive(session, Target(ev), sys.Known(Target(ev)), ev)
      case Some(live) => sys.live[Target(ev) := live]
      case None => sys.live - {Target(ev)}
  }

  function Next(session: Session, sys: Sys, ev: Event): Sys
  {
    var id := Target(ev);
    var k := sys.Known(id);
    Sys(NextLive(session, sys, ev),
        ApplyAll(sys.entries, Ops(session, sys, ev)),
        sys.moves[id := sys.MovesOf(id) + EventMoves(id, k, ev)],
        if EventCreated(session, k, ev) then sys.created + {id} else sys.created)
  }

  function Run(session: Session, events: seq<Event>): Sys
  {
    if events == [] then START
    else Next(session, Run(session, events[..|events| - 1]), events[|events| - 1])
  }

  /** All writes to the store over a run. */
  function RunOps(session: Session, events: seq<Event>): seq<Op>
  {
    if events == [] then []
    else
      var before := events[..|events| - 1];
      RunOps(session, before) + Ops(session, Run(session, before), events[|events| - 1])
  }

  /** The store of a run is what its writes make of the empty store. */
  lemma {:induction false} StoreOfRun(session: Session, events: seq<Event>)
    ensures Run(session, events).entries == ApplyAll(map[], RunOps(session, events))
  {
    if events == [] {
    } else {
      hide Ops, NextLive, EventMoves, EventCreated;
      var before := events[..|events| - 1];
      StoreOfRun(session, before);
      ApplyAllSplit(map[], RunOps(session, before), Ops(session, Run(session, before), events[|events| - 1]));
    }
  }

  // ------------------------------------------------------------------ a single swap on its own

  /** All there is to one swap: no other swap, no list, only its own updates. */
  datatype Local = Local(live: Option<Live>, record: Option<Record>, pending: bool, completed: bool,
                         moves: seq<Move>, created: bool)
  {
    function Known(): Facts
    {
      Facts(live, record, created)
    }
  }

  const ALONE: Local := Local(None, None, false, false, [], false)

  function LocalOp(l: Local, op: Op): Local
  {
    match op
    case Persist(_, r) => l.(record := Some(r))
    case AddToPending(_) => l.(pending := true)
    case MoveToCompleted(_) => l.(pending := false, completed := true)
    case RemoveSwap(_) => l.(record := None, pending := false, completed := false)
  }

  function LocalOps(l: Local, ops: seq<Op>): Local
  {
    if ops == [] then l else LocalOp(LocalOps(l, ops[..|ops| - 1]), ops[|ops| - 1])
  }

  lemma LocalOpsShort(l: Local, op: Op, op': Op)
    ensures LocalOps(l, [op]) == LocalOp(l, op)
    ensures LocalOps(l, [op, op']) == LocalOp(LocalOp(l, op), op')
  {
    assert [op][..0] == [] && [op, op'][..1] == [op];
  }

  /** An event of the swap itself, on its own state. */
  function LocalNext(session: Session, id: string, l: Local, ev: Event): Local
  {
    var k := l.Known();
    LocalOps(l, EventOps(session, id, k, ev)).(
      live := EventLive(session, id, k, ev),
      moves := l.moves + EventMoves(id, k, ev),
      created := EventCreated(session, k, ev))
  }

  function LocalRun(session: Session, id: string, events: seq<Event>): Local
  {
    if events == [] then ALONE
    else LocalNext(session, id, LocalRun(session, id, events[..|events| - 1]), events[|events| - 1])
  }

  /** The events of one swap among those of all. */
  function Mine(events: seq<Event>, id: string): seq<Event>
  {
    if events == [] then []
    else
      var before := Mine(events[..|events| - 1], id);
      if Target(events[|events| - 1]) == id then before + [events[|events| - 1]] else before
  }

  /** A response that hears its own updates only. */
  function Filtered(live: Option<Live>, id: string): Option<Live>
  {
    if live.Some? then Some(live.value.(rx := Own(live.value.rx, id))) else None
  }

  /** One swap's share of the session. */
  function Share(sys: Sys, id: string): Local
  {
    var k := sys.Known(id);
    Local(Filtered(k.live, id), k.record, id in Pending(sys.entries), id in Completed(sys.entries),
          sys.MovesOf(id), k.created)
  }

  // ------------------------------------------------------------------ non-interference

  lemma OwnLast(xs: seq<Update>, u: Update, id: string)
    ensures Own(xs + [u], id) == if u.id == id then Own(xs, id) + [u] else Own(xs, id)
  {
    assert (xs + [u])[..|xs|] == xs;
  }

  /** `advance` depends on the swap's own updates only. */
  lemma PollOwn(id: string, live: Live, a: Answers)
    ensures var p, q := Poll(id, live, a), Poll(id, live.(rx := Own(live.rx, id)), a);
      q == p.(live := p.live.(rx := Own(p.live.rx, id)))
  {
    NextOwnIsHead(live.rx, id);
    var own := Own(live.rx, id);
    OwnOnly(live.rx, id);
    if own != [] {
      assert own[0] in own;
    }
  }

  /** So does every other event. */
  lemma EventOwn(session: Session, id: string, k: Facts, ev: Event)
    requires Target(ev) == id
    ensures var own := k.(live := Filtered(k.live, id));
      && EventOps(session, id, own, ev) == EventOps(session, id, k, ev)
      && EventLive(session, id, own, ev) == Filtered(EventLive(session, id, k, ev), id)
      && EventMoves(id, own, ev) == EventMoves(id, k, ev)
      && EventCreated(session, own, ev) == EventCreated(session, k, ev)
      && EventResult(id, own, ev) == EventResult(id, k, ev)
  {
    if k.live.Some? {
      if ev.Advance? { PollOwn(id, k.live.value, ev.answers); }
      if ev.Publish? { OwnLast(k.live.value.rx, ev.update, id); }
      OwnOnly(k.live.value.rx, id);
    }
  }

  /** The local state tells what the store holds about the swap. */
  predicate Tracks(l: Local, e: Entries, id: string)
  {
    l.record == RecordOf(e, id) && l.pending == (id in Pending(e)) && l.completed == (id in Completed(e))
  }

  lemma OwnWrite(e: Entries, op: Op, id: string, l: Local)
    requires Tracks(l, e, id) && op.id == id
    ensures Tracks(LocalOp(l, op), Apply(e, op), id)
  {
    WithoutMembers(Pending(e), id, id);
    WithoutMembers(Completed(e), id, id);
  }

  lemma {:induction false} OwnWrites(e: Entries, ops: seq<Op>, id: string, l: Local)
    requires Tracks(l, e, id) && forall i :: 0 <= i < |ops| ==> ops[i].id == id
    ensures Tracks(LocalOps(l, ops), ApplyAll(e, ops), id)
  {
    if ops == [] {
    } else {
      var n := |ops| - 1;
      OwnWrites(e, ops[..n], id, l);
      OwnWrite(ApplyAll(e, ops[..n]), ops[n], id, LocalOps(l, ops[..n]));
    }
  }

  /** Writes for other swaps leave a swap's record and its places on the lists alone. */
  lemma {:induction false} OtherWrites(e: Entries, ops: seq<Op>, id: string, l: Local)
    requires Tracks(l, e, id) && forall i :: 0 <= i < |ops| ==> ops[i].id != id
    ensures Tracks(l, ApplyAll(e, ops), id)
  {
    if ops == [] {
    } else {
      var n := |ops| - 1;
      OtherWrites(e, ops[..n], id, l);
      var e' := ApplyAll(e, ops[..n]);
      WithoutMembers(Pending(e'), ops[n].id, id);
      WithoutMembers(Completed(e'), ops[n].id, id);
    }
  }

  /** An event writes only for the swap it is about. */
  lemma OpsConcern(session: Session, id: string, k: Facts, ev: Event)
    ensures forall i :: 0 <= i < |EventOps(session, id, k, ev)| ==> EventOps(session, id, k, ev)[i].id == id
  {}

  /** An event of another swap does not touch this one. */
  lemma OtherEvent(session: Session, sys: Sys, ev: Event, id: string)
    requires Target(ev) != id
    ensures Share(Next(session, sys, ev), id) == Share(sys, id)
  {
    hide EventOps, EventLive, EventMoves, EventCreated, ApplyAll, RecordOf, Pending, Completed, Own;
    OpsConcern(session, Target(ev), sys.Known(Target(ev)), ev);
    if ev.Publish? && id in sys.live { OwnLast(sys.live[id].rx, ev.update, id); }
    OtherWrites(sys.entries, Ops(session, sys, ev), id, Share(sys, id));
  }

  /** An event of the swap itself has its local effect. */
  lemma OwnEvent(session: Session, sys: Sys, ev: Event, id: string)
    requires Target(ev) == id
    ensures Share(Next(session, sys, ev), id) == LocalNext(session, id, Share(sys, id), ev)
    ensures EventResult(id, Share(sys, id).Known(), ev) == EventResult(id, sys.Known(id), ev)
  {
    hide EventOps, EventLive, EventMoves, EventResult, ApplyAll, LocalOps, RecordOf, Pending, Completed, Own;
    OpsConcern(session, id, sys.Known(id), ev);
    EventOwn(session, id, sys.Known(id), ev);
    PublishLive(session, id, sys.Known(id), ev);
    OwnWrites(sys.entries, Ops(session, sys, ev), id, Share(sys, id));
  }

  lemma PublishLive(session: Session, id: string, k: Facts, ev: Event)
    ensures ev.Publish? ==>
      EventLive(session, id, k, ev) ==
        (if k.live.Some? then Some(k.live.value.(rx := k.live.value.rx + [ev.update])) else None)
  {}

  /**
   Non-interference: however many swaps share the broadcast and the store, each one's data,
   receiver, record, transactions and places on the lists are those of that swap running
   alone on its own events, and so is what its next call of `advance` returns.
   */
  lemma {:induction false} SwapsDoNotInterfere(session: Session, events: seq<Event>, id: string)
    ensures Share(Run(session, events), id) == LocalRun(session, id, Mine(events, id))
    ensures forall a :: EventResult(id, Run(session, events).Known(id), Advance(id, a)) ==
                        EventResult(id, LocalRun(session, id, Mine(events, id)).Known(), Advance(id, a))
  {
    if events == [] {
    } else {
      var before, ev := events[..|events| - 1], events[|events| - 1];
      SwapsDoNotInterfere(session, before, id);
      var sys := Run(session, before);
      if Target(ev) == id {
        OwnEvent(session, sys, ev, id);
        hide Next, LocalNext, Share;
        assert Mine(events, id)[..|Mine(before, id)|] == Mine(before, id);
      } else {
        OtherEvent(session, sys, ev, id);
      }
    }
    forall a
      ensures EventResult(id, Run(session, events).Known(id), Advance(id, a)) ==
              EventResult(id, LocalRun(session, id, Mine(events, id)).Known(), Advance(id, a))
    {
      EventOwn(session, id, Run(session, events).Known(id), Advance(id, a));
      hide EventResult, Run, LocalRun;
    }
  }
}
