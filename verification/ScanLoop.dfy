/**
 The handshake between the scanner thread and the callers of `scan` (lwk_app/src/lib.rs): two
 counters and a flag under one lock. Each step is what one thread does between two locks.
 */
module ScanLoop {
  import opened Prelude

  const STOP_INTERVAL: nat := 100

  /** Where the scanner is. */
  datatype Pc =
    | Checking                                                       // about to look at the flags
    | Sleeping
    | Ready                                                          // about to begin a loop
    | Scanning(names: seq<string>, done: nat, fetched: bool, failed: bool)
    | Exited

  datatype Caller = Waiting(required: nat) | Returned

  datatype Scan = Scan(
    started: nat,
    completed: nat,
    interruptWait: bool,
    running: bool,                     // `is_scanning`: false once the app is stopped
    interval: nat,                     // what is left of the wait
    pc: Pc,
    wallets: set<string>,
    callers: map<nat, Caller>)

  datatype Event =
    // the scanner
    | Check | Wake | Begin(names: seq<string>) | Fetch | Apply | NoClient | Complete
    // the callers
    | Call(caller: nat) | Poll(caller: nat)
    // the other requests
    | Load(name: string) | Unload(name: string) | Stop
  {
    predicate OfScanner()
    {
      Check? || Wake? || Begin? || Fetch? || Apply? || NoClient? || Complete?
    }
  }

  function Start(wallets: set<string>): Scan
  {
    Scan(0, 0, false, true, 0, Checking, wallets, map[])
  }

  /** One step of the scanner; `None` where it is not its turn. */
  function ScannerStep(period: nat, s: Scan, e: Event): Option<Scan>
    requires e.OfScanner()
  {
    match (e, s.pc)
    case (Check, Checking) =>
      if !s.running then Some(s.(pc := Exited))
      else if s.interval == 0 || s.interruptWait then Some(s.(interval := period, pc := Ready))
      else Some(s.(pc := Sleeping))
    case (Wake, Sleeping) =>
      Some(s.(interval := if s.interval < STOP_INTERVAL then 0 else s.interval - STOP_INTERVAL, pc := Checking))
    case (Begin(names), Ready) =>
      if Enumerates(names, s.wallets)
      then Some(s.(interruptWait := false, started := s.started + 1, pc := Scanning(names, 0, false, false)))
      else None
    case (Fetch, Scanning(names, done, false, false)) =>
      if done >= |names| then None
      else if names[done] in s.wallets then Some(s.(pc := Scanning(names, done, true, false)))
      else Some(s.(pc := Scanning(names, done + 1, false, false)))
    case (Apply, Scanning(names, done, true, false)) => Some(s.(pc := Scanning(names, done + 1, false, false)))
    case (NoClient, Scanning(names, 0, false, false)) => Some(s.(pc := Scanning(names, 0, false, true)))
    case (Complete, Scanning(names, done, false, failed)) =>
      if failed || done == |names| then Some(s.(completed := s.completed + 1, pc := Checking)) else None
    case _ => None
  }

  /** What a call to `scan` asks for: the loops to wait for are all those begun so far, and one more. */
  function Required(s: Scan): nat
  {
    s.completed + if s.completed != s.started then 1 else 0
  }

  function Step(period: nat, s: Scan, e: Event): Option<Scan>
  {
    if e.OfScanner() then ScannerStep(period, s, e)
    else match e
      case Call(k) =>
        if k in s.callers then None
        else Some(s.(interruptWait := true, callers := s.callers[k := Waiting(Required(s))]))
      case Poll(k) =>
        if k !in s.callers || s.callers[k].Returned? then None
        else if s.completed > s.callers[k].required then Some(s.(callers := s.callers[k := Returned]))
        else Some(s)
      case Load(n) => Some(s.(wallets := s.wallets + {n}))
      case Unload(n) => Some(s.(wallets := s.wallets - {n}))
      case Stop => Some(s.(running := false))
  }

  /** An interleaving of all threads, in which every step is taken in turn. */
  predicate IsTrace(period: nat, states: seq<Scan>, events: seq<Event>)
  {
    && |states| == |events| + 1
    && states[0] == Start(states[0].wallets)
    && forall i | 0 <= i < |events| :: Step(period, states[i], events[i]) == Some(states[i + 1])
  }

  // ------------------------------------------------------------------ what every step keeps

  predicate PcOk(s: Scan)
  {
    && s.started == s.completed + (if s.pc.Scanning? then 1 else 0)
    && (s.pc.Scanning? ==> s.pc.done <= |s.pc.names| && (s.pc.fetched ==> s.pc.done < |s.pc.names| && !s.pc.failed))
  }

  /** Whoever waits for a loop that has not begun has its wake-up pending. */
  predicate CallerOk(s: Scan, k: nat)
    requires k in s.callers
  {
    s.callers[k].Waiting? ==>
      s.callers[k].required <= s.started && (s.callers[k].required == s.started ==> s.interruptWait)
  }

  predicate Inv(s: Scan)
  {
    PcOk(s) && forall k | k in s.callers :: CallerOk(s, k)
  }

  lemma StepInv(period: nat, s: Scan, e: Event)
    requires Inv(s) && Step(period, s, e).Some?
    ensures Inv(Step(period, s, e).value)
  {
    var s' := Step(period, s, e).value;
    forall k | k in s'.callers ensures CallerOk(s', k) {
      if k in s.callers {
        assert CallerOk(s, k);
      }
    }
  }

  lemma {:induction false} InvAt(period: nat, states: seq<Scan>, events: seq<Event>, i: nat)
    requires IsTrace(period, states, events) && i < |states|
    ensures Inv(states[i])
  {
    if i == 0 {
    } else {
      hide Step, Inv;
      InvAt(period, states, events, i - 1);
      assert Step(period, states[i - 1], events[i - 1]) == Some(states[i]);
      StepInv(period, states[i - 1], events[i - 1]);
    }
  }

  /** A call waits for one loop more than have begun. */
  lemma RequiredIsStarted(s: Scan)
    requires Inv(s)
    ensures Required(s) == s.started
  {}

  lemma StepCounts(period: nat, s: Scan, e: Event)
    requires Step(period, s, e).Some?
    ensures var s' := Step(period, s, e).value;
      && s'.started == s.started + (if e.Begin? then 1 else 0)
      && s'.completed == s.completed + (if e.Complete? then 1 else 0)
  {}

  lemma {:induction false} CountersGrow(period: nat, states: seq<Scan>, events: seq<Event>, i: nat, j: nat)
    requires IsTrace(period, states, events) && i <= j < |states|
    ensures states[i].started <= states[j].started && states[i].completed <= states[j].completed
  {
    if i == j {
    } else {
      CountersGrow(period, states, events, i, j - 1);
      assert Step(period, states[j - 1], events[j - 1]) == Some(states[j]);
      StepCounts(period, states[j - 1], events[j - 1]);
    }
  }

  /** Between a call and its return, the caller waits for the number it was given. */
  lemma {:induction false} CallerWaits(period: nat, states: seq<Scan>, events: seq<Event>, k: nat, c: nat, j: nat)
    requires IsTrace(period, states, events) && c < j < |states| && events[c] == Call(k)
    ensures k in states[j].callers
    ensures states[j].callers[k] == Returned || states[j].callers[k] == Waiting(states[c].started)
  {
    if j == c + 1 {
      InvAt(period, states, events, c);
      RequiredIsStarted(states[c]);
    } else {
      CallerWaits(period, states, events, k, c, j - 1);
      assert Step(period, states[j - 1], events[j - 1]) == Some(states[j]);
    }
  }

  // ------------------------------------------------------------------ a whole loop between call and return

  /** The step at which loop number `v + 1` begins. */
  lemma {:induction false} BeginOf(period: nat, states: seq<Scan>, events: seq<Event>, i: nat, j: nat, v: nat)
    returns (b: nat)
    requires IsTrace(period, states, events) && i <= j < |states|
    requires states[i].started <= v < states[j].started
    ensures i <= b < j && events[b].Begin? && states[b].started == v
  {
    StepCounts(period, states[j - 1], events[j - 1]);
    if states[j - 1].started <= v {
      b := j - 1;
    } else {
      b := BeginOf(period, states, events, i, j - 1, v);
    }
  }

  /** The step at which loop number `v + 1` completes. */
  lemma {:induction false} CompletionOf(period: nat, states: seq<Scan>, events: seq<Event>, i: nat, j: nat, v: nat)
    returns (e: nat)
    requires IsTrace(period, states, events) && i <= j < |states|
    requires states[i].completed <= v < states[j].completed
    ensures i <= e < j && events[e].Complete? && states[e].completed == v
  {
    StepCounts(period, states[j - 1], events[j - 1]);
    if states[j - 1].completed <= v {
      e := j - 1;
    } else {
      e := CompletionOf(period, states, events, i, j - 1, v);
    }
  }

  /** From `b` to `e` one and the same loop runs over the wallets that were loaded when it began. */
  predicate WholeLoop(states: seq<Scan>, events: seq<Event>, b: nat, e: nat)
    requires |states| == |events| + 1
  {
    && b < e < |events| && events[b].Begin? && events[e].Complete?
    && Enumerates(events[b].names, states[b].wallets)
    && forall j | b < j <= e :: states[j].pc.Scanning? && states[j].pc.names == events[b].names
  }

  /** The loop that begins at `b` has on its list every wallet loaded since `c`. */
  predicate ListsLoaded(states: seq<Scan>, events: seq<Event>, c: nat, b: nat)
    requires |states| == |events| + 1 && c <= b < |events| && events[b].Begin?
  {
    forall n | n in states[c].wallets && (forall j | c <= j < b :: events[j] != Unload(n)) :: n in events[b].names
  }

  lemma StepKeepsNames(period: nat, s: Scan, e: Event)
    requires s.pc.Scanning? && Step(period, s, e).Some? && !e.Complete?
    ensures var s' := Step(period, s, e).value; s'.pc.Scanning? && s'.pc.names == s.pc.names
  {}

  lemma StepBegins(period: nat, s: Scan, e: Event)
    requires e.Begin? && Step(period, s, e).Some?
    ensures Step(period, s, e).value.pc == Scanning(e.names, 0, false, false) && Enumerates(e.names, s.wallets)
  {}

  lemma {:induction false} LoopRuns(period: nat, states: seq<Scan>, events: seq<Event>, b: nat, e: nat, j: nat)
    requires IsTrace(period, states, events) && b < j <= e < |events|
    requires events[b].Begin? && events[e].Complete? && states[b].started == states[e].completed
    ensures states[j].pc.Scanning? && states[j].pc.names == events[b].names
    ensures states[j].started == states[b].started + 1
  {
    hide Step, CallerOk;
    assert Step(period, states[b], events[b]) == Some(states[b + 1]);
    StepBegins(period, states[b], events[b]);
    StepCounts(period, states[b], events[b]);
    if j > b + 1 {
      LoopRuns(period, states, events, b, e, j - 1);
      CountersGrow(period, states, events, j, e);
      InvAt(period, states, events, j - 1);
      InvAt(period, states, events, j);
      assert Step(period, states[j - 1], events[j - 1]) == Some(states[j]);
      StepCounts(period, states[j - 1], events[j - 1]);
      if !events[j - 1].Complete? {
        StepKeepsNames(period, states[j - 1], events[j - 1]);
      }
    }
  }

  lemma {:induction false} StaysLoaded(period: nat, states: seq<Scan>, events: seq<Event>, n: string, c: nat, b: nat)
    requires IsTrace(period, states, events) && c <= b < |states| && n in states[c].wallets
    requires forall j | c <= j < b :: events[j] != Unload(n)
    ensures n in states[b].wallets
  {
    if c == b {
    } else {
      StaysLoaded(period, states, events, n, c, b - 1);
      assert Step(period, states[b - 1], events[b - 1]) == Some(states[b]);
    }
  }

  /** What a step does to the wallets is what its request asks for. */
  lemma {:induction false} LoadedIff(period: nat, states: seq<Scan>, events: seq<Event>, n: string, c: nat, j: nat)
    requires IsTrace(period, states, events) && c < j < |states|
    requires events[c] == Load(n) || events[c] == Unload(n)
    requires forall i | c < i < j :: events[i] != Load(n) && events[i] != Unload(n)
    ensures n in states[j].wallets <==> events[c].Load?
  {
    var h := j - 1;
    assert Step(period, states[h], events[h]) == Some(states[j]);
    if h > c {
      LoadedIff(period, states, events, n, c, h);
    }
  }

  /**
   When `scan` returns, some loop began after the call and was completed before the return, over
   at least the wallets that were loaded at the call and not unloaded before the loop began.
   */
  lemma ScanWaitsForWholeLoop(period: nat, states: seq<Scan>, events: seq<Event>, k: nat, c: nat, r: nat)
    requires IsTrace(period, states, events) && c < r < |events|
    requires events[c] == Call(k) && events[r] == Poll(k) && k in states[r + 1].callers
    requires states[r + 1].callers[k].Returned?
    ensures exists b: nat, e: nat ::
      c < b && e < r && WholeLoop(states, events, b, e) && ListsLoaded(states, events, c, b)
  {
    var v := states[c].started;
    CallerWaits(period, states, events, k, c, r);
    assert Step(period, states[r], events[r]) == Some(states[r + 1]);
    InvAt(period, states, events, c);
    InvAt(period, states, events, r);
    var b := BeginOf(period, states, events, c, r, v);
    var e := CompletionOf(period, states, events, c, r, v);
    InvAt(period, states, events, e);
    assert Step(period, states[e], events[e]) == Some(states[e + 1]);
    if e < b {
      CountersGrow(period, states, events, e, b);
    }
    assert b != c && b < e;
    forall j | b < j <= e ensures states[j].pc.Scanning? && states[j].pc.names == events[b].names {
      LoopRuns(period, states, events, b, e, j);
    }
    assert Step(period, states[b], events[b]) == Some(states[b + 1]);
    assert WholeLoop(states, events, b, e);
    assert ListsLoaded(states, events, c, b) by {
      forall n | n in states[c].wallets && (forall j | c <= j < b :: events[j] != Unload(n))
        ensures n in events[b].names
      {
        StaysLoaded(period, states, events, n, c, b);
      }
    }
  }

  /** The step takes up wallet `i` of the list: it is scanned if it is still loaded, and passed over otherwise. */
  predicate Looks(states: seq<Scan>, f: nat, i: nat)
    requires f + 1 < |states|
  {
    var s, s' := states[f].pc, states[f + 1].pc;
    && s.Scanning? && s'.Scanning? && s.done == i < |s.names|
    && (s'.fetched <==> s.names[i] in states[f].wallets)
    && s'.done == if s'.fetched then i else i + 1
  }

  /** How far a loop has come: two steps a wallet. */
  function Progress(s: Scan): nat
  {
    if s.pc.Scanning? then 2 * s.pc.done + (if s.pc.fetched then 1 else 0) else 0
  }

  lemma ProgressStep(period: nat, s: Scan, e: Event, i: nat)
    requires s.pc.Scanning? && Step(period, s, e).Some? && Step(period, s, e).value.pc.Scanning?
    requires Progress(s) <= 2 * i < Progress(Step(period, s, e).value)
    ensures e.Fetch? && s.pc.done == i
    ensures Looks([s, Step(period, s, e).value], 0, i)
  {}

  lemma {:induction false} FetchOf(period: nat, states: seq<Scan>, events: seq<Event>, b: nat, j: nat, i: nat)
    returns (f: nat)
    requires IsTrace(period, states, events) && b < j < |events|
    requires forall x | b < x <= j :: states[x].pc.Scanning?
    requires Progress(states[b + 1]) == 0 && 2 * i < Progress(states[j])
    ensures b < f < j && events[f].Fetch? && Looks(states, f, i)
  {
    hide Step, Progress;
    var h := j - 1;
    assert h > b && states[h].pc.Scanning? && states[j].pc.Scanning?;
    assert Step(period, states[h], events[h]) == Some(states[j]);
    if Progress(states[h]) <= 2 * i {
      ProgressStep(period, states[h], events[h], i);
      f := h;
    } else {
      f := FetchOf(period, states, events, b, h, i);
    }
  }

  lemma {:induction false} NotFailed(period: nat, states: seq<Scan>, events: seq<Event>, b: nat, e: nat, j: nat)
    requires IsTrace(period, states, events) && WholeLoop(states, events, b, e) && b < j <= e
    requires forall x | b < x < e :: !events[x].NoClient?
    ensures states[j].pc.Scanning? && !states[j].pc.failed
  {
    if j == b + 1 {
      assert Step(period, states[b], events[b]) == Some(states[b + 1]);
      StepBegins(period, states[b], events[b]);
    } else {
      NotFailed(period, states, events, b, e, j - 1);
      assert Step(period, states[j - 1], events[j - 1]) == Some(states[j]);
    }
  }

  /**
   A whole loop looks at every wallet on its list, unless there was no client to scan with: it scans those still
   loaded and passes over the others.
   */
  lemma WholeLoopVisitsAll(period: nat, states: seq<Scan>, events: seq<Event>, b: nat, e: nat, i: nat)
    requires IsTrace(period, states, events) && WholeLoop(states, events, b, e) && i < |events[b].names|
    requires forall x | b < x < e :: !events[x].NoClient?
    ensures exists f: nat ::
      b < f < e && events[f].Fetch? && Looks(states, f, i) && states[f].pc.names == events[b].names
  {
    assert Step(period, states[b], events[b]) == Some(states[b + 1]);
    assert Step(period, states[e], events[e]) == Some(states[e + 1]);
    NotFailed(period, states, events, b, e, e);
    var f := FetchOf(period, states, events, b, e, i);
  }

  // ------------------------------------------------------------------ no wake-up is lost

  /** As long as a caller's loop has not begun, the flag is up, and the scanner does not go back to sleep. */
  lemma NoLostWakeUp(period: nat, states: seq<Scan>, events: seq<Event>, k: nat, c: nat, j: nat)
    requires IsTrace(period, states, events) && c < j < |events| && events[c] == Call(k)
    requires states[j].started == states[c].started
    ensures states[j].interruptWait
    ensures events[j].Check? && states[j].running ==> states[j + 1].pc.Ready?
  {
    CallerWaits(period, states, events, k, c, j);
    InvAt(period, states, events, j);
    InvAt(period, states, events, c);
    CountersGrow(period, states, events, c, j);
    assert CallerOk(states[j], k);
    assert Step(period, states[j], events[j]) == Some(states[j + 1]);
    if states[j].callers[k].Returned? {
      NotReturnedYet(period, states, events, k, c, j);
    }
  }

  lemma {:induction false} NotReturnedYet(period: nat, states: seq<Scan>, events: seq<Event>, k: nat, c: nat, j: nat)
    requires IsTrace(period, states, events) && c < j < |states| && events[c] == Call(k)
    requires states[j].completed <= states[c].started
    ensures k in states[j].callers && states[j].callers[k] == Waiting(states[c].started)
  {
    CallerWaits(period, states, events, k, c, j);
    if j == c + 1 {
      assert Step(period, states[c], events[c]) == Some(states[j]);
    } else {
      CountersGrow(period, states, events, j - 1, j);
      NotReturnedYet(period, states, events, k, c, j - 1);
      assert Step(period, states[j - 1], events[j - 1]) == Some(states[j]);
    }
  }

  /**
   A poll returns exactly when enough loops completed since the call: one if the scanner was idle, two
   if it was scanning.
   */
  lemma ReleasedIff(period: nat, states: seq<Scan>, events: seq<Event>, k: nat, c: nat, r: nat)
    requires IsTrace(period, states, events) && c < r < |events| && events[c] == Call(k) && events[r] == Poll(k)
    ensures k in states[r + 1].callers
    ensures states[r + 1].callers[k].Returned? <==>
      states[r].completed >= states[c].completed + (if states[c].pc.Scanning? then 2 else 1)
  {
    CallerWaits(period, states, events, k, c, r);
    CallerWaits(period, states, events, k, c, r + 1);
    InvAt(period, states, events, c);
    assert Step(period, states[r], events[r]) == Some(states[r + 1]);
  }

  /** The most steps the scanner takes before it begins the next loop, when it is not to wait. */
  function Distance(s: Scan): nat
    requires PcOk(s)
  {
    match s.pc
    case Exited => 0
    case Ready => 1
    case Checking => 2
    case Sleeping => 3
    case Scanning(names, done, fetched, failed) =>
      if failed then 3 else 4 + 2 * (|names| - done) - (if fetched then 1 else 0)
  }

  lemma DistanceShrinks(period: nat, s: Scan, e: Event)
    requires Inv(s) && Step(period, s, e).Some? && s.running && s.interruptWait && !e.Begin?
    ensures var s' := Step(period, s, e).value;
      PcOk(s') && Distance(s') + (if e.OfScanner() then 1 else 0) <= Distance(s)
  {
    StepInv(period, s, e);
  }

  function ScannerSteps(events: seq<Event>): nat
  {
    if events == [] then 0
    else ScannerSteps(events[..|events| - 1]) + if events[|events| - 1].OfScanner() then 1 else 0
  }

  /**
   Whatever all the others do, the scanner begins the caller's loop after a number of its own steps
   known at the call.
   */
  lemma {:induction false} LoopBeginsSoon(period: nat, states: seq<Scan>, events: seq<Event>, k: nat, c: nat, j: nat)
    requires IsTrace(period, states, events) && c < j < |states| && events[c] == Call(k)
    requires states[j].started == states[c].started && forall i | c < i <= j :: states[i].running
    ensures PcOk(states[c]) && PcOk(states[j])
    ensures ScannerSteps(events[c + 1..j]) + Distance(states[j]) <= Distance(states[c])
  {
    hide Step, CallerOk;
    InvAt(period, states, events, c);
    InvAt(period, states, events, j);
    if j == c + 1 {
      assert Step(period, states[c], events[c]) == Some(states[j]);
      CallsStayPut(period, states[c], events[c]);
    } else {
      var i := j - 1;
      CountersGrow(period, states, events, c, i);
      CountersGrow(period, states, events, i, j);
      LoopBeginsSoon(period, states, events, k, c, i);
      NoLostWakeUp(period, states, events, k, c, i);
      InvAt(period, states, events, i);
      assert Step(period, states[i], events[i]) == Some(states[j]);
      StepCounts(period, states[i], events[i]);
      DistanceShrinks(period, states[i], events[i]);
      assert events[c + 1..j][..|events[c + 1..j]| - 1] == events[c + 1..i];
    }
  }

  lemma CallsStayPut(period: nat, s: Scan, e: Event)
    requires e.Call? && Step(period, s, e).Some?
    ensures Step(period, s, e).value.pc == s.pc
  {}

  /** The most steps the scanner takes before it completes the loop it is in. */
  function Remaining(s: Scan): nat
    requires PcOk(s) && s.pc.Scanning?
  {
    if s.pc.failed then 1 else 2 * (|s.pc.names| - s.pc.done) - (if s.pc.fetched then 1 else 0) + 2
  }

  lemma RemainingShrinks(period: nat, s: Scan, e: Event)
    requires Inv(s) && s.pc.Scanning? && Step(period, s, e).Some? && !e.Complete?
    ensures var s' := Step(period, s, e).value;
      && PcOk(s') && s'.pc.Scanning?
      && Remaining(s') + (if e.OfScanner() then 1 else 0) <= Remaining(s)
  {
    StepInv(period, s, e);
    hide CallerOk;
  }

  /** A loop that has begun completes within two steps of the scanner for each wallet and two more, stopped or not. */
  lemma {:induction false} LoopEndsSoon(period: nat, states: seq<Scan>, events: seq<Event>, b: nat, j: nat)
    requires IsTrace(period, states, events) && b < j < |states| && events[b].Begin?
    requires states[j].completed == states[b].completed
    ensures PcOk(states[j]) && states[j].pc.Scanning?
    ensures ScannerSteps(events[b + 1..j]) + Remaining(states[j]) <= 2 * |events[b].names| + 2
  {
    hide Step, CallerOk;
    InvAt(period, states, events, j);
    if j == b + 1 {
      assert Step(period, states[b], events[b]) == Some(states[j]);
      StepBegins(period, states[b], events[b]);
    } else {
      var i := j - 1;
      CountersGrow(period, states, events, b, i);
      CountersGrow(period, states, events, i, j);
      LoopEndsSoon(period, states, events, b, i);
      InvAt(period, states, events, i);
      assert Step(period, states[i], events[i]) == Some(states[j]);
      StepCounts(period, states[i], events[i]);
      RemainingShrinks(period, states[i], events[i]);
      assert events[b + 1..j][..|events[b + 1..j]| - 1] == events[b + 1..i];
    }
  }

  lemma {:induction false} StepsAdd(a: seq<Event>, b: seq<Event>)
    ensures ScannerSteps(a + b) == ScannerSteps(a) + ScannerSteps(b)
  {
    if b == [] {
      assert a + b == a;
    } else {
      StepsAdd(a, b[..|b| - 1]);
      assert (a + b)[..|a + b| - 1] == a + b[..|b| - 1];
    }
  }

  lemma StepsAround(events: seq<Event>, c: nat, b: nat, r: nat)
    requires c < b < r <= |events| && events[b].Begin?
    ensures ScannerSteps(events[c + 1..r]) == ScannerSteps(events[c + 1..b]) + 1 + ScannerSteps(events[b + 1..r])
  {
    assert events[c + 1..r] == events[c + 1..b] + ([events[b]] + events[b + 1..r]);
    StepsAdd(events[c + 1..b], [events[b]] + events[b + 1..r]);
    StepsAdd([events[b]], events[b + 1..r]);
    assert [events[b]][..0] == [];
  }

  /**
   Whatever all the others do, as long as the app is not stopped before the caller's loop begins, the loop the caller
   waits for is completed after a number of the scanner's own steps: those known at the call, and
   two for each wallet on the list of that loop and two more. From then on the caller's next poll returns.
   */
  lemma ReleasedSoon(period: nat, states: seq<Scan>, events: seq<Event>, k: nat, c: nat, r: nat)
    requires IsTrace(period, states, events) && c < r < |states| && events[c] == Call(k)
    requires forall i | c < i <= r && states[i].started == states[c].started :: states[i].running
    requires states[r].completed <= states[c].started
    ensures PcOk(states[c])
    ensures states[r].started == states[c].started ==> ScannerSteps(events[c + 1..r]) <= Distance(states[c])
    ensures states[r].started > states[c].started ==>
      exists b :: c < b < r && events[b].Begin? && states[b].started == states[c].started
        && ScannerSteps(events[c + 1..r]) < Distance(states[c]) + 2 * |events[b].names| + 2
  {
    hide Step, CallerOk;
    InvAt(period, states, events, c);
    CountersGrow(period, states, events, c, r);
    if states[r].started == states[c].started {
      SameSoFar(period, states, events, c, r);
      LoopBeginsSoon(period, states, events, k, c, r);
    } else {
      var b := BeginOf(period, states, events, c, r, states[c].started);
      assert b != c;
      SameSoFar(period, states, events, c, b);
      LoopBeginsSoon(period, states, events, k, c, b);
      assert Step(period, states[b], events[b]) == Some(states[b + 1]);
      BeginsWhenReady(period, states[b], events[b]);
      InvAt(period, states, events, b);
      CountersGrow(period, states, events, b, r);
      LoopEndsSoon(period, states, events, b, r);
      StepsAround(events, c, b, r);
    }
  }

  lemma BeginsWhenReady(period: nat, s: Scan, e: Event)
    requires e.Begin? && Step(period, s, e).Some?
    ensures s.pc.Ready?
  {}

  /** The counter of begun loops stands still in between if it is the same at both ends. */
  lemma SameSoFar(period: nat, states: seq<Scan>, events: seq<Event>, c: nat, r: nat)
    requires IsTrace(period, states, events) && c <= r < |states| && states[r].started == states[c].started
    ensures forall i | c <= i <= r :: states[i].started == states[c].started
  {
    hide Step;
    forall i | c <= i <= r ensures states[i].started == states[c].started {
      CountersGrow(period, states, events, c, i);
      CountersGrow(period, states, events, i, r);
    }
  }

  lemma {:induction false} Listing(all: set<string>) returns (order: seq<string>)
    ensures Enumerates(order, all)
    decreases |all|
  {
    if all == {} {
      order := [];
    } else {
      var x :| x in all;
      var rest := Listing(all - {x});
      order := rest + [x];
    }
  }

  /** The scanner is never stuck: until it has left, some step of its own can be taken. */
  lemma ScannerCanStep(period: nat, s: Scan) returns (e: Event)
    requires Inv(s) && !s.pc.Exited?
    ensures e.OfScanner() && Step(period, s, e).Some?
  {
    match s.pc
    case Checking => e := Check;
    case Sleeping => e := Wake;
    case Ready =>
      var names := Listing(s.wallets);
      e := Begin(names);
    case Scanning(names, done, fetched, failed) =>
      e := if fetched then Apply else if failed || done == |names| then Complete else Fetch;
  }

  /** A loop that finds no client to scan with ends at once, and counts as completed. */
  lemma NoClientEndsLoop(period: nat, s: Scan)
    requires s.pc.Scanning? && s.pc.done == 0 && !s.pc.fetched && !s.pc.failed
    ensures var failed := Step(period, s, NoClient);
      && failed.Some? && (forall e: Event | e.OfScanner() :: Step(period, failed.value, e).Some? <==> e.Complete?)
      && Step(period, failed.value, Complete) == Some(s.(completed := s.completed + 1, pc := Checking))
  {}

  // ------------------------------------------------------------------ the periodic wait

  /** How many times the scanner sleeps to wait for this long: once for each started 100 ms. */
  function Sleeps(wait: nat): nat
  {
    (wait + 99) / 100
  }

  predicate TimeOk(period: nat, s: Scan)
  {
    && s.interval <= period
    && (s.pc.Sleeping? ==> s.interval > 0)
    && (s.pc.Exited? ==> !s.running)
  }

  lemma StepTimeOk(period: nat, s: Scan, e: Event)
    requires TimeOk(period, s) && Step(period, s, e).Some?
    ensures TimeOk(period, Step(period, s, e).value)
  {}

  lemma {:induction false} TimeOkAt(period: nat, states: seq<Scan>, events: seq<Event>, i: nat)
    requires IsTrace(period, states, events) && i < |states|
    ensures TimeOk(period, states[i])
  {
    if i == 0 {
    } else {
      hide Step, TimeOk;
      TimeOkAt(period, states, events, i - 1);
      assert Step(period, states[i - 1], events[i - 1]) == Some(states[i]);
      StepTimeOk(period, states[i - 1], events[i - 1]);
    }
  }

  /** The most steps the scanner takes before it begins the next loop, waiting for what is left of the interval. */
  function ToNext(s: Scan): nat
    requires PcOk(s)
  {
    match s.pc
    case Exited => 0
    case Ready => 1
    case Checking => 2 * Sleeps(s.interval) + 2
    case Sleeping => 2 * Sleeps(s.interval) + 1
    case Scanning(_, _, _, _) => Remaining(s) + 2 * Sleeps(s.interval) + 2
  }

  lemma ToNextShrinks(period: nat, s: Scan, e: Event)
    requires Inv(s) && TimeOk(period, s) && Step(period, s, e).Some? && s.running && !e.Begin?
    ensures var s' := Step(period, s, e).value;
      PcOk(s') && ToNext(s') + (if e.OfScanner() then 1 else 0) <= ToNext(s)
  {
    hide CallerOk;
    StepInv(period, s, e);
  }

  lemma ToNextBounds(period: nat, s: Scan)
    requires PcOk(s) && TimeOk(period, s) && s.running
    ensures 0 < ToNext(s) <= 2 * Sleeps(period) + 2 + if s.pc.Scanning? then Remaining(s) else 0
  {}

  /**
   With or without calls, as long as the app runs, the scanner begins its next loop within a number of its own steps:
   two for each started 100 ms of the period, two more, and those left of the loop it is in.
   */
  lemma NextLoopBegins(period: nat, states: seq<Scan>, events: seq<Event>, c: nat, j: nat)
    requires IsTrace(period, states, events) && c <= j < |states|
    requires states[j].started == states[c].started && forall i | c <= i <= j :: states[i].running
    ensures PcOk(states[c])
    ensures ScannerSteps(events[c..j])
      < 2 * Sleeps(period) + 2 + if states[c].pc.Scanning? then Remaining(states[c]) else 0
  {
    hide Step, CallerOk, ToNext;
    InvAt(period, states, events, c);
    TimeOkAt(period, states, events, c);
    ToNextBounds(period, states[c]);
    TowardsNext(period, states, events, c, j);
    TimeOkAt(period, states, events, j);
    ToNextBounds(period, states[j]);
  }

  lemma {:induction false} TowardsNext(period: nat, states: seq<Scan>, events: seq<Event>, c: nat, j: nat)
    requires IsTrace(period, states, events) && c <= j < |states|
    requires states[j].started == states[c].started && forall i | c <= i <= j :: states[i].running
    ensures PcOk(states[c]) && PcOk(states[j])
    ensures ScannerSteps(events[c..j]) + ToNext(states[j]) <= ToNext(states[c])
  {
    hide Step, CallerOk, ToNext, TimeOk;
    InvAt(period, states, events, j);
    if j == c {
    } else {
      var i := j - 1;
      CountersGrow(period, states, events, c, i);
      CountersGrow(period, states, events, i, j);
      TowardsNext(period, states, events, c, i);
      InvAt(period, states, events, i);
      TimeOkAt(period, states, events, i);
      assert Step(period, states[i], events[i]) == Some(states[j]);
      StepCounts(period, states[i], events[i]);
      ToNextShrinks(period, states[i], events[i]);
      assert events[c..j][..|events[c..j]| - 1] == events[c..i];
    }
  }

  function Wakes(events: seq<Event>): nat
  {
    if events == [] then 0
    else Wakes(events[..|events| - 1]) + if events[|events| - 1].Wake? then 1 else 0
  }

  /** The sleeps taken since the loop began, and those left, make up the period. */
  predicate Slept(period: nat, s: Scan, wakes: nat)
  {
    && !s.interruptWait
    && match s.pc
       case Scanning(_, _, _, _) => wakes == 0 && s.interval == period
       case Ready => wakes == Sleeps(period)
       case Exited => true
       case _ => wakes + Sleeps(s.interval) == Sleeps(period)
  }

  lemma StepSlept(period: nat, s: Scan, e: Event, wakes: nat)
    requires TimeOk(period, s) && Step(period, s, e).Some? && Slept(period, s, wakes) && !e.Begin? && !e.Call?
    ensures Slept(period, Step(period, s, e).value, wakes + if e.Wake? then 1 else 0)
  {}

  /** The wait is set when a loop is about to begin. */
  predicate IntervalSet(period: nat, s: Scan)
  {
    s.pc.Ready? ==> s.interval == period
  }

  lemma StepIntervalSet(period: nat, s: Scan, e: Event)
    requires IntervalSet(period, s) && Step(period, s, e).Some?
    ensures IntervalSet(period, Step(period, s, e).value)
  {}

  lemma {:induction false} IntervalSetAt(period: nat, states: seq<Scan>, events: seq<Event>, i: nat)
    requires IsTrace(period, states, events) && i < |states|
    ensures IntervalSet(period, states[i])
  {
    if i == 0 {
    } else {
      hide Step, IntervalSet;
      IntervalSetAt(period, states, events, i - 1);
      assert Step(period, states[i - 1], events[i - 1]) == Some(states[i]);
      StepIntervalSet(period, states[i - 1], events[i - 1]);
    }
  }

  lemma BeginSlept(period: nat, s: Scan, e: Event)
    requires e.Begin? && IntervalSet(period, s) && Step(period, s, e).Some?
    ensures Slept(period, Step(period, s, e).value, 0)
  {}

  lemma {:induction false} SleptSince(period: nat, states: seq<Scan>, events: seq<Event>, b: nat, j: nat)
    requires IsTrace(period, states, events) && b < j < |states| && events[b].Begin?
    requires forall i | b < i < j :: !events[i].Begin? && !events[i].Call?
    ensures Slept(period, states[j], Wakes(events[b + 1..j]))
  {
    hide Step, Slept, TimeOk, IntervalSet;
    var h := j - 1;
    assert Step(period, states[h], events[h]) == Some(states[j]);
    if h == b {
      IntervalSetAt(period, states, events, b);
      BeginSlept(period, states[b], events[b]);
    } else {
      SleptSince(period, states, events, b, h);
      TimeOkAt(period, states, events, h);
      assert events[b + 1..j][..|events[b + 1..j]| - 1] == events[b + 1..h];
      StepSlept(period, states[h], events[h], Wakes(events[b + 1..h]));
    }
  }

  /** Without a call, the scanner sleeps exactly the period out between one loop and the next. */
  lemma PeriodIsSleptOut(period: nat, states: seq<Scan>, events: seq<Event>, b: nat, next: nat)
    requires IsTrace(period, states, events) && b < next < |events| && events[b].Begin? && events[next].Begin?
    requires forall i | b < i < next :: !events[i].Begin? && !events[i].Call?
    ensures Wakes(events[b + 1..next]) == Sleeps(period)
  {
    hide Step, Sleeps;
    SleptSince(period, states, events, b, next);
    assert Step(period, states[next], events[next]) == Some(states[next + 1]);
    BeginsWhenReady(period, states[next], events[next]);
  }

  /** The first loop is not waited for. */
  lemma {:induction false} FirstLoopDoesNotWait(period: nat, states: seq<Scan>, events: seq<Event>, j: nat)
    requires IsTrace(period, states, events) && j < |states| && states[j].started == 0
    ensures states[j].pc.Ready? || states[j].pc.Exited? || (states[j].pc.Checking? && states[j].interval == 0)
  {
    if j == 0 {
    } else {
      var h := j - 1;
      CountersGrow(period, states, events, h, j);
      FirstLoopDoesNotWait(period, states, events, h);
      assert Step(period, states[h], events[h]) == Some(states[j]);
    }
  }

  // ------------------------------------------------------------------ stopping

  /** The most steps the scanner of a stopped app takes before it leaves. */
  function ToExit(s: Scan): nat
    requires PcOk(s)
  {
    match s.pc
    case Exited => 0
    case Ready => 0
    case Checking => 1
    case Sleeping => 2
    case Scanning(_, _, _, _) => Remaining(s) + 1
  }

  lemma ToExitShrinks(period: nat, s: Scan, e: Event)
    requires Inv(s) && Step(period, s, e).Some? && !s.running && !s.pc.Ready?
    ensures var s' := Step(period, s, e).value;
      && PcOk(s') && !s'.running && !s'.pc.Ready? && s'.started == s.started
      && ToExit(s') + (if e.OfScanner() then 1 else 0) <= ToExit(s)
  {
    hide CallerOk;
    StepInv(period, s, e);
  }

  /**
   Once the app is stopped, the scanner begins no loop, other than the one it was about to begin, and leaves within
   the steps left of the loop it is in and one, or within two if it is in none.
   */
  lemma {:induction false} StoppedScannerLeaves(period: nat, states: seq<Scan>, events: seq<Event>, c: nat, j: nat)
    requires IsTrace(period, states, events) && c <= j < |states| && !states[c].running && !states[c].pc.Ready?
    ensures PcOk(states[c]) && PcOk(states[j])
    ensures !states[j].running && !states[j].pc.Ready? && states[j].started == states[c].started
    ensures ScannerSteps(events[c..j]) + ToExit(states[j]) <= ToExit(states[c])
    ensures ToExit(states[j]) == 0 <==> states[j].pc.Exited?
  {
    hide Step, CallerOk;
    InvAt(period, states, events, j);
    if j == c {
    } else {
      var i := j - 1;
      StoppedScannerLeaves(period, states, events, c, i);
      InvAt(period, states, events, i);
      assert Step(period, states[i], events[i]) == Some(states[j]);
      ToExitShrinks(period, states[i], events[i]);
      assert events[c..j][..|events[c..j]| - 1] == events[c..i];
    }
  }

  /** Once the app is stopped, a caller whose loop did not complete waits for ever. */
  lemma {:induction false} StoppedScanNeverReturns(period: nat, states: seq<Scan>, events: seq<Event>, k: nat,
                          i: nat, j: nat)
    requires IsTrace(period, states, events) && i <= j < |states| && states[i].pc.Exited?
    requires k in states[i].callers && states[i].callers[k].Waiting?
    requires states[i].completed <= states[i].callers[k].required
    ensures states[j].pc.Exited? && states[j].completed == states[i].completed
    ensures k in states[j].callers && states[j].callers[k] == states[i].callers[k]
  {
    if i == j {
    } else {
      StoppedScanNeverReturns(period, states, events, k, i, j - 1);
      assert Step(period, states[j - 1], events[j - 1]) == Some(states[j]);
    }
  }

  /** It happens: a call while the app is being stopped, before the first loop. */
  lemma StoppedScanHangs(period: nat) returns (states: seq<Scan>, events: seq<Event>)
    ensures IsTrace(period, states, events) && |events| == 3
    ensures states[3].pc.Exited? && 0 in states[3].callers && states[3].callers[0] == Waiting(0)
    ensures states[3].completed == 0
  {
    events := [Call(0), Stop, Check];
    var s0 := Start({});
    var s1 := Step(period, s0, Call(0)).value;
    var s2 := Step(period, s1, Stop).value;
    var s3 := Step(period, s2, Check).value;
    states := [s0, s1, s2, s3];
  }

  // ------------------------------------------------------------------ the critical sections

  /** What the lock protects, changed only between taking and releasing it. */
  class Shared {
    var started: nat
    var completed: nat
    var interruptWait: bool
    var wallets: set<string>

    /** The lock's part of a state of the protocol. */
    predicate Fits(s: Scan)
      reads this
    {
      started == s.started && completed == s.completed && interruptWait == s.interruptWait && wallets == s.wallets
    }

    constructor (wallets: set<string>)
      ensures Fits(Start(wallets))
    {
      this.started, this.completed, this.interruptWait, this.wallets := 0, 0, false, wallets;
    }

    method BeginLoop(ghost period: nat, ghost s: Scan) returns (names: seq<string>)
      requires Fits(s) && s.pc.Ready?
      modifies this`started, this`interruptWait
      ensures Step(period, s, Begin(names)).Some? && Fits(Step(period, s, Begin(names)).value)
    {
      interruptWait := false;
      started := started + 1;
      names := Iterate(wallets);
    }

    method EndLoop(ghost period: nat, ghost s: Scan)
      requires Fits(s) && Step(period, s, Complete).Some?
      modifies this`completed
      ensures Fits(Step(period, s, Complete).value)
    {
      completed := completed + 1;
    }

    method MustSleep(interval: nat) returns (sleep: bool)
      ensures forall period, s: Scan | Fits(s) && s.pc.Checking? && s.running && s.interval == interval ::
        Step(period, s, Check).value.pc == if sleep then Sleeping else Ready
    {
      sleep := interval != 0 && !interruptWait;
    }

    /** The first half of `scan`; the number is the caller's to keep. */
    method RequestScan(ghost period: nat, ghost s: Scan, ghost k: nat) returns (required: nat)
      requires Fits(s) && k !in s.callers
      modifies this`interruptWait
      ensures Step(period, s, Call(k)).Some? && Fits(Step(period, s, Call(k)).value)
      ensures Step(period, s, Call(k)).value.callers[k] == Waiting(required)
    {
      interruptWait := true;
      var isScanning := completed != started;
      required := completed + if isScanning then 1 else 0;
    }

    /** The second half of `scan`: one look at the counter. */
    method Released(required: nat, ghost period: nat, ghost s: Scan, ghost k: nat) returns (released: bool)
      requires Fits(s) && k in s.callers && s.callers[k] == Waiting(required)
      ensures Step(period, s, Poll(k)).Some? && Fits(Step(period, s, Poll(k)).value)
      ensures released <==> Step(period, s, Poll(k)).value.callers[k].Returned?
    {
      var current := completed;
      released := current > required;
    }
  }
}
