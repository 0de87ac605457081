/**
 Restarting the app gives back the state it had: for every run of requests, compactions and
 restarts, and whatever order snapshots were written in (lwk_app/src/state.rs, lib.rs).
 */
module AppReplay {
  import opened Prelude
  import opened AppModel
  import opened AppInvariants
  import opened AppSnapshot

  // ------------------------------------------------------------------ logs

  /** The requests a log may hold: none of them takes anything away. */
  predicate Constructive(r: Request)
  {
    || r.WalletLoad? || r.LoadsSigner() || r.WalletSetTxMemo? || r.WalletSetAddrMemo? || r.AssetInsert?
  }

  predicate ConstructiveLog(log: seq<Request>)
  {
    forall r | r in log :: Constructive(r)
  }

  /** The emulator a line connects to can be reached. */
  predicate Connects(w: World, r: Request)
  {
    r.SignerLoadJade? && r.emulator.Some? ==> r.emulator.value in w.emulators
  }

  predicate Reachable(w: World, log: seq<Request>)
  {
    forall r | r in log :: Connects(w, r)
  }

  /** A world in which no device and no server answers. */
  const NOBODY: World := World(map[], None, false, false)

  // ------------------------------------------------------------------ the two halves of a log

  /** The lines that load no signer. */
  function Bare(log: seq<Request>): seq<Request>
  {
    if log == [] then []
    else Bare(log[..|log| - 1]) + if log[|log| - 1].LoadsSigner() then [] else [log[|log| - 1]]
  }

  /** What the lines that load no signer stand for; they need no answer from anyone. */
  function Base(env: Env, log: seq<Request>): Option<State>
  {
    Boot(env, NOBODY, Bare(log))
  }

  /** The signers the lines make in a world, whether or not they clash. */
  function Made(env: Env, w: World, log: seq<Request>): map<string, AppSigner>
  {
    if log == [] then map[]
    else
      var before, r := Made(env, w, log[..|log| - 1]), log[|log| - 1];
      if r.LoadsSigner() && SignerOf(env, w, r).Some? then before[r.name := SignerOf(env, w, r).value] else before
  }

  /** The signer of a line, before any device is connected. */
  function Unconnected(env: Env, r: Request): Option<AppSigner>
    requires r.LoadsSigner()
  {
    SignerOf(env, NOBODY, if r.SignerLoadJade? then r.(emulator := None) else r)
  }

  /** The signers of a log, before any device is connected. */
  function MadeCold(env: Env, log: seq<Request>): map<string, AppSigner>
  {
    if log == [] then map[]
    else
      var before, r := MadeCold(env, log[..|log| - 1]), log[|log| - 1];
      if r.LoadsSigner() && Unconnected(env, r).Some? then before[r.name := Unconnected(env, r).value] else before
  }

  /** The names under which a log loads signers. */
  function LoggedSigners(log: seq<Request>): set<string>
  {
    set r | r in log && r.LoadsSigner() :: r.name
  }

  /** Every signer line can be read, and no two have the same name. */
  predicate SignerLinesOk(env: Env, log: seq<Request>)
  {
    log != [] ==>
      var before, r := log[..|log| - 1], log[|log| - 1];
      SignerLinesOk(env, before) && (r.LoadsSigner() ==> Unconnected(env, r).Some? && r.name !in LoggedSigners(before))
  }

  lemma LastLine(log: seq<Request>)
    requires log != []
    ensures var log', r := log[..|log| - 1], log[|log| - 1];
      && log == log' + [r] && r in log
      && LoggedSigners(log) == LoggedSigners(log') + (if r.LoadsSigner() then {r.name} else {})
  {
    var log', r := log[..|log| - 1], log[|log| - 1];
    assert log == log' + [r];
  }

  lemma ConnectingIsAllThereIs(env: Env, w: World, r: Request)
    requires r.LoadsSigner()
    ensures SignerOf(env, w, r).Some? <==> Connects(w, r) && Unconnected(env, r).Some?
    ensures SignerOf(env, w, r).Some? ==> Cold(SignerOf(env, w, r).value) == Unconnected(env, r).value
  {}

  lemma {:induction false} MadeKeys(env: Env, w: World, log: seq<Request>)
    requires SignerLinesOk(env, log)
    ensures MadeCold(env, log).Keys == LoggedSigners(log)
    ensures Made(env, w, log).Keys <= LoggedSigners(log)
    ensures Reachable(w, log) ==> Made(env, w, log).Keys == LoggedSigners(log)
  {
    if log == [] {
    } else {
      hide SignerOf, Unconnected, LoggedSigners;
      LastLine(log);
      var log', r := log[..|log| - 1], log[|log| - 1];
      MadeKeys(env, w, log');
      if r.LoadsSigner() {
        ConnectingIsAllThereIs(env, w, r);
      }
    }
  }

  lemma ColdsUpdate(signers: map<string, AppSigner>, name: string, s: AppSigner)
    ensures Colds(signers[name := s]) == Colds(signers)[name := Cold(s)]
  {}

  /** Where all emulators are reachable, the signers made differ from the unconnected ones in connections only. */
  lemma {:induction false} MadeUpToConnections(env: Env, w: World, log: seq<Request>)
    requires SignerLinesOk(env, log) && Reachable(w, log)
    ensures Colds(Made(env, w, log)) == MadeCold(env, log)
  {
    if log == [] {
      assert Colds(map[]) == map[];
    } else {
      hide SignerOf, Unconnected, LoggedSigners, Colds, Cold;
      LastLine(log);
      var log', r := log[..|log| - 1], log[|log| - 1];
      MadeUpToConnections(env, w, log');
      if r.LoadsSigner() {
        ConnectingIsAllThereIs(env, w, r);
        ColdsUpdate(Made(env, w, log'), r.name, SignerOf(env, w, r).value);
      }
    }
  }

  // ------------------------------------------------------------------ when a log boots

  /** The lines that load no signer do the same whatever signers there are, and whatever the world answers. */
  lemma BlindToSigners(env: Env, w: World, s: State, r: Request, signers: map<string, AppSigner>)
    requires Constructive(r) && !r.LoadsSigner()
    ensures var e, f := Handle(env, w, s.(signers := signers), r), Handle(env, NOBODY, s, r);
      e.ok == f.ok && e.state == f.state.(signers := signers) && f.state.signers == s.signers
  {
    hide InsertWollet, SetMemo, InsertAsset;
  }

  lemma {:induction false} BaseHasNoSigners(env: Env, log: seq<Request>)
    requires ConstructiveLog(log)
    ensures Base(env, log).Some? ==> Base(env, log).value.signers == map[]
  {
    if log == [] {
    } else {
      hide Handle;
      LastLine(log);
      var log', r := log[..|log| - 1], log[|log| - 1];
      BaseHasNoSigners(env, log');
      BaseOneMore(env, log', r);
      if Base(env, log').Some? && !r.LoadsSigner() {
        BlindToSigners(env, NOBODY, Base(env, log').value, r, map[]);
      }
    }
  }

  lemma BaseOneMore(env: Env, log: seq<Request>, r: Request)
    ensures Base(env, log + [r])
      == if r.LoadsSigner() then Base(env, log)
         else match Base(env, log)
           case None => None
           case Some(s) => var e := Handle(env, NOBODY, s, r); if e.ok then Some(e.state) else None
  {
    hide Handle;
    assert (log + [r])[..|log + [r]| - 1] == log;
    assert Bare(log) + [] == Bare(log);
    ReplayOneMore(env, NOBODY, Initial(env), Bare(log), r);
  }

  lemma InsertDistinct(env: Env, signers: map<string, AppSigner>, name: string, s: AppSigner)
    requires name !in signers
    ensures DistinctSigners(env, signers[name := s]) <==>
      DistinctSigners(env, signers) && InsertSigner(env, signers, name, s) == Some(signers[name := s])
  {
    var m := signers[name := s];
    if DistinctSigners(env, m) {
      assert forall n :: n in signers ==> n in m && m[n] == signers[n];
      assert DistinctSigners(env, signers);
      assert forall n :: n in signers ==> n in m && name in m && n != name;
    }
  }

  /** One signer line: it loads its signer if that can be made and clashes with none. */
  lemma SignerLineStep(env: Env, w: World, s: State, r: Request)
    requires r.LoadsSigner() && r.name !in s.signers && Unconnected(env, r).Some? && DistinctSigners(env, s.signers)
    ensures var e := Handle(env, w, s, r);
      && (e.ok <==> Connects(w, r) && DistinctSigners(env, s.signers[r.name := SignerOf(env, w, r).value]))
      && (e.ok ==> e.state == s.(signers := s.signers[r.name := SignerOf(env, w, r).value]))
  {
    hide SignerOf, Unconnected, InsertSigner, DistinctSigners;
    ConnectingIsAllThereIs(env, w, r);
    if Connects(w, r) {
      InsertDistinct(env, s.signers, r.name, SignerOf(env, w, r).value);
      InsertIsUpdate(env, s.signers, r.name, SignerOf(env, w, r).value);
    }
  }

  lemma InsertIsUpdate(env: Env, signers: map<string, AppSigner>, name: string, s: AppSigner)
    ensures var r := InsertSigner(env, signers, name, s); r.Some? ==> r.value == signers[name := s]
  {}

  /**
   A log boots if and only if its emulators are reachable and no two of the signers it makes have the same
   fingerprint; it then gives these signers, beside what its other lines stand for.
   */
  lemma {:induction false} BootIff(env: Env, w: World, log: seq<Request>)
    requires ConstructiveLog(log) && SignerLinesOk(env, log) && Base(env, log).Some?
    ensures Boot(env, w, log)
      == if Reachable(w, log) && DistinctSigners(env, Made(env, w, log))
         then Some(Base(env, log).value.(signers := Made(env, w, log))) else None
  {
    if log == [] {
    } else {
      hide Handle, Base, DistinctSigners, SignerOf, Unconnected, LoggedSigners;
      LastLine(log);
      var log', r := log[..|log| - 1], log[|log| - 1];
      BaseOneMore(env, log', r);
      BootIff(env, w, log');
      MadeKeys(env, w, log');
      ReplayOneMore(env, w, Initial(env), log', r);
      assert Reachable(w, log) <==> Reachable(w, log') && Connects(w, r);
      if r.LoadsSigner() {
        ConnectingIsAllThereIs(env, w, r);
        if Boot(env, w, log').Some? {
          SignerLineStep(env, w, Boot(env, w, log').value, r);
        } else if Connects(w, r) {
          InsertDistinct(env, Made(env, w, log'), r.name, SignerOf(env, w, r).value);
        }
      } else if Boot(env, w, log').Some? {
        BlindToSigners(env, w, Base(env, log').value, r, Made(env, w, log'));
      }
    }
  }

  // ------------------------------------------------------------------ log and state agree

  /** The log keeps every signer, except software signers that asked not to be persisted. */
  predicate SignersKept(logged: map<string, AppSigner>, live: map<string, AppSigner>)
  {
    && (forall n | n in logged :: n in live && logged[n] == Cold(live[n]))
    && (forall n | n in live && n !in logged :: live[n].inner.Software? && !live[n].persist)
  }

  /** `r` has the wallets and memos of the state, and its registered assets beside their tokens. */
  ghost predicate SameRest(env: Env, r: State, s: State)
  {
    && r.wollets == s.wollets && r.txMemos == s.txMemos && r.addrMemos == s.addrMemos
    && Holds(env, r.assets, Registry(s.assets))
  }

  /** The log stands for the state. */
  ghost predicate Logged(env: Env, s: State, log: seq<Request>)
  {
    && ConstructiveLog(log) && SignerLinesOk(env, log)
    && Base(env, log).Some? && SameRest(env, Base(env, log).value, s)
    && SignersKept(MadeCold(env, log), s.signers)
  }

  lemma SignerKept(logged: map<string, AppSigner>, live: map<string, AppSigner>, name: string, s: AppSigner)
    requires SignersKept(logged, live) && name !in live
    ensures SignersKept(logged[name := Cold(s)], live[name := s])
    ensures s.inner.Software? && !s.persist ==> SignersKept(logged, live[name := s])
  {}

  /** What a request that loads a signer does, whatever device it connects to. */
  lemma SignerLoadDoes(env: Env, w: World, s: State, q: Request)
    requires q.LoadsSigner() && HandleSignerLoad(env, w, s, q).ok
    ensures var e, x := HandleSignerLoad(env, w, s, q), SignerOf(env, w, q);
      && x.Some? && q.name !in s.signers && e.state == s.(signers := s.signers[q.name := x.value])
      && e.write == if x.value.inner.Software? && !x.value.persist then Keep else Append(q)
  {
    hide SignerFingerprint;
  }

  /** A signer that is loaded live is in the log from then on, unless it asked not to be. */
  lemma SignerLoadAgrees(env: Env, w: World, s: State, log: seq<Request>, q: Request)
    requires q.LoadsSigner() && HandleSignerLoad(env, w, s, q).ok && Logged(env, s, log)
    ensures var e := HandleSignerLoad(env, w, s, q);
      Logged(env, e.state, if e.write.Keep? then log else log + [q])
  {
    hide HandleSignerLoad, SignerOf, Unconnected, Cold, SignersKept, Base, Holds, LoggedSigners, Constructive;
    SignerLoadDoes(env, w, s, q);
    var x := SignerOf(env, w, q);
    ConnectingIsAllThereIs(env, w, q);
    SignerKept(MadeCold(env, log), s.signers, q.name, x.value);
    LoadsAreConstructive(q);
    var log' := log + [q];
    assert log'[..|log'| - 1] == log;
    BaseOneMore(env, log, q);
    NotLogged(env, log, s.signers, q.name);
  }

  lemma LoadsAreConstructive(q: Request)
    requires q.LoadsSigner()
    ensures Constructive(q)
  {}

  lemma NotLogged(env: Env, log: seq<Request>, live: map<string, AppSigner>, name: string)
    requires SignerLinesOk(env, log) && SignersKept(MadeCold(env, log), live) && name !in live
    ensures name !in LoggedSigners(log)
  {
    MadeKeys(env, NOBODY, log);
  }

  lemma ConnectionKept(logged: map<string, AppSigner>, live: map<string, AppSigner>, name: string, s: AppSigner)
    requires SignersKept(logged, live) && name in live && Cold(s) == Cold(live[name]) && !s.inner.Software?
    ensures SignersKept(logged, live[name := s])
  {}

  /** Connecting and disconnecting Jades never touches the log, nor what it stands for. */
  lemma GetAvailableAgrees(env: Env, w: World, s: State, logged: map<string, AppSigner>, name: string)
    requires MarksOk(s.signers) && SignersKept(logged, s.signers)
    ensures var e := GetAvailable(env, w, s, name);
      e.write.Keep? && SignersKept(logged, e.state.signers) && e.state == s.(signers := e.state.signers)
  {
    var signers := GetAvailable(env, w, s, name).state.signers;
    if signers != s.signers {
      assert Cold(signers[name]) == Cold(s.signers[name]);
      ConnectionKept(logged, s.signers, name, signers[name]);
    }
    hide SignersKept, Cold;
  }

  lemma AssetInsertAgrees(env: Env, assets: map<AssetId, AppAsset>, live: map<AssetId, AppAsset>, d: AssetData)
    requires env.Lawful() && AssetsOk(env, live) && Holds(env, assets, Registry(live))
    requires env.issues(d.id, d.tx, d.contract)
    ensures Holds(env, InsertAsset(env, assets, d), Registry(InsertAsset(env, live, d)))
  {
    InsertAssetOk(env, assets, d);
    InsertAssetTied(env, assets, d);
    InsertAssetRegistry(env, assets, d);
    InsertAssetRegistry(env, live, d);
    hide InsertAsset, Tied, AssetsOk, Registry;
  }

  /** An asset that came from the registry is logged with all it takes to insert it again. */
  lemma AssetRequestsAgree(env: Env, w: World, s: State, r: State, q: Request)
    requires env.Lawful() && AssetsOk(env, s.assets) && Holds(env, r.assets, Registry(s.assets))
    requires q.AssetInsert? || q.AssetFromRegistry?
    requires Handle(env, w, s, q).ok
    ensures var e := Handle(env, w, s, q);
      && e.write.Append? && e.write.request.AssetInsert? && e.state == s.(assets := e.state.assets)
      && var f := Handle(env, NOBODY, r, e.write.request);
         f.ok && f.state == r.(assets := f.state.assets) && Holds(env, f.state.assets, Registry(e.state.assets))
  {
    var id := env.assetIds.parse(q.assetId).value;
    var d := if q.AssetInsert?
      then AssetData(id, env.transactions.parse(q.issuanceTx).value, env.contracts.parse(q.contract).value)
      else AssetData(id, w.registry.value.1, w.registry.value.0);
    AssetInsertAgrees(env, r.assets, s.assets, d);
    hide InsertAsset, Holds, Registry, AssetsOk;
  }

  /** A wallet or memo that is accepted live is accepted from the log. */
  lemma WalletRequestsAgree(env: Env, w: World, s: State, r: State, q: Request)
    requires q.WalletLoad? || q.WalletSetTxMemo? || q.WalletSetAddrMemo?
    requires r.wollets == s.wollets && r.txMemos == s.txMemos && r.addrMemos == s.addrMemos
    requires Handle(env, w, s, q).ok
    ensures var e, f := Handle(env, w, s, q), Handle(env, NOBODY, r, q);
      && e.write == Append(q) && f.ok
      && f.state == e.state.(signers := r.signers, assets := r.assets)
      && e.state.signers == s.signers && e.state.assets == s.assets
  {
    hide InsertWollet, SetMemo;
  }

  lemma RefusalKeeps(env: Env, w: World, s: State, q: Request)
    requires !Handle(env, w, s, q).ok
    ensures Handle(env, w, s, q).write.Keep?
    ensures !q.UseSigner? ==> Handle(env, w, s, q).state == s
  {
    hide InsertWollet, SetMemo, InsertAsset, InsertSigner;
  }

  /** The requests that add to wallets, memos or assets. */
  predicate AddsToRest(q: Request)
  {
    q.WalletLoad? || q.WalletSetTxMemo? || q.WalletSetAddrMemo? || q.AssetInsert? || q.AssetFromRegistry?
  }

  lemma RestAgrees(env: Env, w: World, s: State, r: State, q: Request)
    requires env.Lawful() && AssetsOk(env, s.assets) && SameRest(env, r, s)
    requires AddsToRest(q) && Handle(env, w, s, q).ok
    ensures var e := Handle(env, w, s, q);
      && e.write.Append? && Constructive(e.write.request) && !e.write.request.LoadsSigner()
      && e.state.signers == s.signers
      && var f := Handle(env, NOBODY, r, e.write.request); f.ok && SameRest(env, f.state, e.state)
  {
    hide Holds, AssetsOk, Handle, Registry;
    if q.AssetInsert? || q.AssetFromRegistry? {
      AssetRequestsAgree(env, w, s, r, q);
    } else {
      WalletRequestsAgree(env, w, s, r, q);
    }
  }

  lemma AddingAgrees(env: Env, w: World, s: State, log: seq<Request>, q: Request)
    requires env.Lawful() && AssetsOk(env, s.assets) && Logged(env, s, log)
    requires AddsToRest(q) && Handle(env, w, s, q).ok
    ensures var e := Handle(env, w, s, q); e.write.Append? && Logged(env, e.state, log + [e.write.request])
  {
    hide Handle, Base, SameRest, SignersKept, AssetsOk, LoggedSigners, Constructive;
    RestAgrees(env, w, s, Base(env, log).value, q);
    var r := Handle(env, w, s, q).write.request;
    BaseOneMore(env, log, r);
    var log' := log + [r];
    assert log'[..|log'| - 1] == log;
  }

  // ------------------------------------------------------------------ compaction

  /** Lines that load no signer and take nothing away. */
  predicate Plain(log: seq<Request>)
  {
    forall r | r in log :: Constructive(r) && !r.LoadsSigner()
  }

  lemma {:induction false} WolletLinesPlain(env: Env, s: State, order: seq<string>)
    requires forall n | n in order :: n in s.wollets
    ensures Plain(WolletLines(env, s, order))
  {
    if order == [] {
    } else {
      WolletLinesPlain(env, s, order[..|order| - 1]);
    }
  }

  lemma {:induction false} TxMemoLinesPlain(env: Env, s: State, order: seq<(string, Txid)>)
    requires forall p | p in order :: p in Pairs(s.txMemos)
    ensures Plain(TxMemoLines(env, s, order))
  {
    if order == [] {
    } else {
      TxMemoLinesPlain(env, s, order[..|order| - 1]);
    }
  }

  lemma {:induction false} AddrMemoLinesPlain(env: Env, s: State, order: seq<(string, Address)>)
    requires forall p | p in order :: p in Pairs(s.addrMemos)
    ensures Plain(AddrMemoLines(env, s, order))
  {
    if order == [] {
    } else {
      AddrMemoLinesPlain(env, s, order[..|order| - 1]);
    }
  }

  lemma {:induction false} AssetLinesPlain(env: Env, s: State, order: seq<AssetId>)
    requires forall a | a in order :: a in Registry(s.assets)
    ensures Plain(AssetLines(env, s, order))
  {
    if order == [] {
    } else {
      AssetLinesPlain(env, s, order[..|order| - 1]);
    }
  }

  /** Plain lines are all there is to a log without signers. */
  lemma {:induction false} PlainHalves(env: Env, a: seq<Request>, b: seq<Request>)
    requires Plain(b)
    ensures Bare(a + b) == Bare(a) + b && MadeCold(env, a + b) == MadeCold(env, a)
    ensures LoggedSigners(a + b) == LoggedSigners(a) && (SignerLinesOk(env, a) ==> SignerLinesOk(env, a + b))
  {
    if b == [] {
      assert a + b == a && Bare(a) + b == Bare(a);
    } else {
      hide LoggedSigners, Constructive, Unconnected;
      var b', r := b[..|b| - 1], b[|b| - 1];
      assert b == b' + [r] && r in b && Plain(b');
      PlainHalves(env, a, b');
      var ab := a + b;
      assert ab[..|ab| - 1] == a + b' && ab[|ab| - 1] == r;
      LastLine(ab);
      assert Bare(a) + b == Bare(a) + b' + [r];
    }
  }

  /** One more signer line, of a new name. */
  lemma SignerLineHalves(env: Env, log: seq<Request>, r: Request, x: AppSigner)
    requires SignerLinesOk(env, log) && r.LoadsSigner() && Constructive(r) && r.name !in LoggedSigners(log)
    requires Unconnected(env, r) == Some(x)
    ensures Bare(log + [r]) == Bare(log) && MadeCold(env, log + [r]) == MadeCold(env, log)[r.name := x]
    ensures LoggedSigners(log + [r]) == LoggedSigners(log) + {r.name} && SignerLinesOk(env, log + [r])
    ensures ConstructiveLog(log) ==> ConstructiveLog(log + [r])
  {
    hide LoggedSigners, Constructive, Unconnected;
    var log' := log + [r];
    assert log'[..|log'| - 1] == log;
    LastLine(log');
    assert Bare(log) + [] == Bare(log);
  }

  /** What the halves of a log come to that makes these signers and whose other lines are these. */
  ghost predicate Halves(env: Env, log: seq<Request>, bare: seq<Request>, cold: map<string, AppSigner>)
  {
    && Bare(log) == bare && MadeCold(env, log) == cold && LoggedSigners(log) == cold.Keys
    && SignerLinesOk(env, log) && ConstructiveLog(log)
  }

  lemma SignerLinesGrow(env: Env, s: State, a: seq<Request>, order: seq<string>)
    requires order != [] && forall n | n in order :: n in s.signers
    ensures var order', n := order[..|order| - 1], order[|order| - 1];
      a + SignerLines(env, s, order) == a + SignerLines(env, s, order') + [SignerRequest(env, s, n)]
  {}

  /** The signer lines of a snapshot make exactly its signers, unconnected. */
  lemma {:induction false} SignerLinesHalves(env: Env, s: State, a: seq<Request>, order: seq<string>)
    requires env.Lawful() && MarksOk(s.signers) && Halves(env, a, a, map[])
    requires Distinct(order) && forall n | n in order :: n in s.signers
    ensures Halves(env, a + SignerLines(env, s, order), a, Take(Colds(s.signers), order))
  {
    if order == [] {
      assert a + [] == a && Take(Colds(s.signers), order) == map[];
    } else {
      hide LoggedSigners, Constructive, SignerOf, Cold, Take, Colds, Bare, MadeCold, SignerLinesOk, ConstructiveLog,
        SignerRequest, Unconnected;
      PrefixOf(order);
      var order', n := order[..|order| - 1], order[|order| - 1];
      SignerLinesHalves(env, s, a, order');
      var r := SignerRequest(env, s, n);
      SignerRequestIs(env, s, n);
      SignerRequestMakes(env, NOBODY, s, n);
      TakeMoreColds(s.signers, order', n);
      var log' := a + SignerLines(env, s, order');
      hide SignerLines, Distinct;
      SignerLineHalves(env, log', r, Cold(s.signers[n]));
      SignerLinesGrow(env, s, a, order);
    }
  }

  lemma TakeMoreColds(signers: map<string, AppSigner>, order: seq<string>, n: string)
    requires n in signers
    ensures Take(Colds(signers), order + [n]) == Take(Colds(signers), order)[n := Cold(signers[n])]
    ensures n !in order ==> n !in Take(Colds(signers), order)
  {
    TakeMore(Colds(signers), order, n);
  }

  lemma SignerRequestIs(env: Env, s: State, n: string)
    requires n in s.signers
    ensures var r := SignerRequest(env, s, n);
      r.LoadsSigner() && r.name == n && Constructive(r) && Unconnected(env, r) == SignerOf(env, NOBODY, r)
  {}

  /** The other lines of a snapshot stand for the rest of the state. */
  lemma SnapshotBase(env: Env, s: State, o: Order)
    requires env.Lawful() && StateOk(env, s) && o.Of(s)
    ensures var b := Boot(env, NOBODY, FrontLines(env, s, o) + AssetLines(env, s, o.assets));
      b.Some? && SameRest(env, b.value, s)
  {
    hide Replay, FrontLines, AssetLines, Take, Holds, WolletsOk, MarksOk, MemosOk, AssetsOk;
    var front := FrontLines(env, s, o);
    var e := AssetLines(env, s, o.assets);
    WalletPartReplay(env, NOBODY, s, o);
    var s3 := Boot(env, NOBODY, front).value;
    InitialAssets(env);
    AssetLinesReplay(env, NOBODY, s, s3, o.assets);
    TakeAll(Registry(s.assets), o.assets);
    ReplaySplit(env, NOBODY, Initial(env), front, e);
  }

  lemma FrontPlain(env: Env, s: State, o: Order)
    requires o.Of(s)
    ensures Plain(FrontLines(env, s, o))
  {
    WolletLinesPlain(env, s, o.wollets);
    TxMemoLinesPlain(env, s, o.txMemos);
    AddrMemoLinesPlain(env, s, o.addrMemos);
  }

  /** What the halves of a snapshot are. */
  lemma SnapshotHalves(env: Env, s: State, o: Order)
    requires env.Lawful() && StateOk(env, s) && o.Of(s)
    ensures Halves(env, Snapshot(env, s, o), FrontLines(env, s, o) + AssetLines(env, s, o.assets), Colds(s.signers))
  {
    hide Bare, MadeCold, LoggedSigners, SignerLinesOk, FrontLines, SignerLines, AssetLines, Take, Colds,
       WolletsOk, MarksOk, MemosOk, AssetsOk, Constructive;
    var front := FrontLines(env, s, o);
    var d, e := SignerLines(env, s, o.signers), AssetLines(env, s, o.assets);
    FrontPlain(env, s, o);
    EmptyHalves(env);
    PlainHalves(env, [], front);
    assert [] + front == front;
    SignerLinesHalves(env, s, front, o.signers);
    TakeAllColds(s.signers, o.signers);
    AssetLinesPlain(env, s, o.assets);
    PlainHalves(env, front + d, e);
  }

  lemma EmptyHalves(env: Env)
    ensures Halves(env, [], [], map[])
  {}

  /** A snapshot stands for the state, in whatever order it was written, and holds every live signer. */
  lemma SnapshotAgrees(env: Env, s: State, log: seq<Request>)
    requires env.Lawful() && StateOk(env, s) && IsSnapshot(env, s, log)
    ensures Logged(env, s, log) && LoggedSigners(log) == s.signers.Keys
  {
    hide StateOk, Snapshot, SameRest, SignersKept, Bare, MadeCold, LoggedSigners, SignerLinesOk, ConstructiveLog;
    var o: Order :| o.Of(s) && log == Snapshot(env, s, o);
    SnapshotHalves(env, s, o);
    SnapshotBase(env, s, o);
    ColdsKept(s.signers);
  }

  lemma ColdsKept(signers: map<string, AppSigner>)
    ensures SignersKept(Colds(signers), signers)
  {}

  /** Whatever a request does, the log it leaves still stands for the state. */
  lemma RequestAgrees(env: Env, w: World, s: State, log: seq<Request>, q: Request, log': seq<Request>)
    requires env.Lawful() && StateOk(env, s) && Logged(env, s, log)
    requires Writes(env, true, log, Handle(env, w, s, q), log')
    ensures Logged(env, Handle(env, w, s, q).state, log')
  {
    hide Logged, HandleWalletLoad, HandleTxMemo, HandleAddrMemo, HandleAssetInsert, HandleAssetFromRegistry,
      HandleSignerLoad, GetAvailable, WolletsOk, MarksOk, MemosOk, AssetsOk, IsSnapshot;
    var e := Handle(env, w, s, q);
    if e.write.Compact? {
      HandleKeepsOk(env, w, s, q);
      SnapshotAgrees(env, e.state, log');
    } else if q.UseSigner? {
      UseAgrees(env, w, s, log, q.name);
    } else if !e.ok {
      RefusalKeeps(env, w, s, q);
    } else if q.LoadsSigner() {
      SignerLoadAgrees(env, w, s, log, q);
      SignerLoadDoes(env, w, s, q);
    } else {
      AddingAgrees(env, w, s, log, q);
    }
  }

  lemma UseAgrees(env: Env, w: World, s: State, log: seq<Request>, name: string)
    requires StateOk(env, s) && Logged(env, s, log)
    ensures GetAvailable(env, w, s, name).write.Keep? && Logged(env, GetAvailable(env, w, s, name).state, log)
  {
    hide GetAvailable, SignersKept, Base, Holds, MadeCold, MarksOk, WolletsOk, MemosOk, AssetsOk, SignerLinesOk;
    GetAvailableAgrees(env, w, s, MadeCold(env, log), name);
  }

  // ------------------------------------------------------------------ runs

  /** A request is served, or the app is stopped and started again. */
  datatype AppEvent = Rpc(world: World, request: Request) | Restart(world: World)

  ghost predicate AppStep(env: Env, app: App, e: AppEvent, app': App)
  {
    match e
    case Rpc(w, q) => RpcStep(env, w, app, q, app')
    case Restart(w) => Boot(env, w, app.file).Some? && app' == App(Boot(env, w, app.file).value, true, app.file)
  }

  /** A run of the app from an empty log. */
  ghost predicate IsRun(env: Env, apps: seq<App>, events: seq<AppEvent>)
  {
    && |apps| == |events| + 1
    && apps[0] == App(Initial(env), true, [])
    && forall i | 0 <= i < |events| :: AppStep(env, apps[i], events[i], apps[i + 1])
  }

  ghost predicate Inv(env: Env, app: App)
  {
    app.doPersist && StateOk(env, app.state) && Logged(env, app.state, app.file)
  }

  lemma InvInitially(env: Env)
    requires env.Lawful()
    ensures Inv(env, App(Initial(env), true, []))
  {
    InitialAssets(env);
    assert Registry(Initial(env).assets) == map[];
  }

  lemma {:induction false} BootKeepsOk(env: Env, w: World, log: seq<Request>)
    requires env.Lawful()
    ensures var b := Boot(env, w, log); b.Some? ==> StateOk(env, b.value)
  {
    if log == [] {
    } else {
      hide Handle, StateOk;
      var log', r := log[..|log| - 1], log[|log| - 1];
      BootKeepsOk(env, w, log');
      if Boot(env, w, log').Some? {
        HandleKeepsOk(env, w, Boot(env, w, log').value, r);
      }
    }
  }

  /** A restart keeps the agreement of log and state, whatever the devices then report. */
  lemma InvRestart(env: Env, w: World, app: App)
    requires env.Lawful() && Inv(env, app) && Boot(env, w, app.file).Some?
    ensures Inv(env, App(Boot(env, w, app.file).value, true, app.file))
  {
    hide Boot, StateOk, SignersKept, Colds, ConstructiveLog, SignerLinesOk, Made, MadeCold, Holds, Base,
      DistinctSigners;
    BootIff(env, w, app.file);
    BootKeepsOk(env, w, app.file);
    MadeUpToConnections(env, w, app.file);
    ColdsKept(Made(env, w, app.file));
    HoldsItself(env, Base(env, app.file).value.assets, Registry(app.state.assets));
  }

  lemma HoldsItself(env: Env, assets: map<AssetId, AppAsset>, registry: map<AssetId, AssetData>)
    requires Holds(env, assets, registry)
    ensures Registry(assets) == registry && Tied(env, assets)
  {}

  lemma {:induction false} InvAlways(env: Env, apps: seq<App>, events: seq<AppEvent>, i: nat)
    requires env.Lawful() && IsRun(env, apps, events) && i < |apps|
    ensures Inv(env, apps[i])
  {
    if i == 0 {
      InvInitially(env);
    } else {
      hide Handle, Boot, StateOk, Logged, Writes;
      InvAlways(env, apps, events, i - 1);
      var app, e := apps[i - 1], events[i - 1];
      assert AppStep(env, app, e, apps[i]);
      match e
      case Rpc(w, q) =>
        HandleKeepsOk(env, w, app.state, q);
        RequestAgrees(env, w, app.state, app.file, q, apps[i].file);
      case Restart(w) => InvRestart(env, w, app);
    }
  }

  // ------------------------------------------------------------------ main results

  /**
   At any point of any run, a restart succeeds if and only if the emulators the log mentions are
   reachable and no two of the signers the log then makes have the same fingerprint. It gives back
   exactly the wallets, the memos, the registered assets and, but for connections, the signers whose
   load is in the log; only software signers that asked not to be persisted may be missing there.
   */
  lemma RestartRestores(env: Env, apps: seq<App>, events: seq<AppEvent>, i: nat, w: World)
    requires env.Lawful() && IsRun(env, apps, events) && i < |apps|
    ensures var file := apps[i].file;
      Boot(env, w, file).Some? <==> Reachable(w, file) && DistinctSigners(env, Made(env, w, file))
    ensures Boot(env, w, apps[i].file).Some? ==>
      var live, b := apps[i].state, Boot(env, w, apps[i].file).value;
      && b.wollets == live.wollets && b.txMemos == live.txMemos && b.addrMemos == live.addrMemos
      && Registry(b.assets) == Registry(live.assets)
      && (b.assets == live.assets <==> Tied(env, live.assets))
      && b.signers == Made(env, w, apps[i].file) && b.signers.Keys == LoggedSigners(apps[i].file)
      && SignersKept(Colds(b.signers), live.signers)
  {
    hide Boot, Registry, StateOk, Tied, ConstructiveLog, Reachable, SignersKept, Base, Holds, Made, MadeCold, Colds,
      SignerLinesOk, LoggedSigners, DistinctSigners;
    InvAlways(env, apps, events, i);
    var app := apps[i];
    BootIff(env, w, app.file);
    if Boot(env, w, app.file).Some? {
      MadeKeys(env, w, app.file);
      MadeUpToConnections(env, w, app.file);
      var b := Boot(env, w, app.file).value;
      HoldsItself(env, b.assets, Registry(app.state.assets));
      if Tied(env, app.state.assets) {
        TiedUnique(env, b.assets, app.state.assets);
      }
    }
  }

  /** The state with every Jade unconnected. */
  function Cool(s: State): State
  {
    s.(signers := Colds(s.signers))
  }

  /** Restarting again, with whatever devices at hand, changes nothing but connections. */
  lemma RestartAgain(env: Env, apps: seq<App>, events: seq<AppEvent>, i: nat, w: World, w': World)
    requires env.Lawful() && IsRun(env, apps, events) && i < |apps|
    requires Boot(env, w, apps[i].file).Some? && Boot(env, w', apps[i].file).Some?
    ensures Cool(Boot(env, w, apps[i].file).value) == Cool(Boot(env, w', apps[i].file).value)
  {
    hide Boot, StateOk, Base, Made, MadeCold, Colds, SignerLinesOk, DistinctSigners;
    InvAlways(env, apps, events, i);
    BootIff(env, w, apps[i].file);
    BootIff(env, w', apps[i].file);
    MadeUpToConnections(env, w, apps[i].file);
    MadeUpToConnections(env, w', apps[i].file);
  }

  /** The log never holds a request that takes something away. */
  lemma LogOnlyAdds(env: Env, apps: seq<App>, events: seq<AppEvent>, i: nat)
    requires env.Lawful() && IsRun(env, apps, events) && i < |apps|
    ensures ConstructiveLog(apps[i].file)
  {
    InvAlways(env, apps, events, i);
  }

  /** Taking an asset out is the one thing a restart does not bring back as it was. */
  lemma AssetRemovalIsForgotten(env: Env, w: World, app: App, assetId: string, app': App, w': World)
    requires env.Lawful() && Inv(env, app) && Tied(env, app.state.assets)
    requires RpcStep(env, w, app, AssetRemove(assetId), app')
    requires Handle(env, w, app.state, AssetRemove(assetId)).ok
    ensures !Tied(env, app'.state.assets)
    ensures Boot(env, w', app'.file).Some? ==> Boot(env, w', app'.file).value.assets != app'.state.assets
  {
    hide Boot, Snapshot, StateOk, Tied, Colds, DistinctSigners;
    var s, s', q := app.state, app'.state, AssetRemove(assetId);
    HandleKeepsOk(env, w, s, q);
    StateHasAssets(env, s);
    RemovalUnties(env, s.assets, env.assetIds.parse(assetId).value);
    var o: Order :| o.Of(s') && app'.file == Snapshot(env, s', o);
    SnapshotBoots(env, w', s', o);
  }

  lemma StateHasAssets(env: Env, s: State)
    requires StateOk(env, s)
    ensures AssetsOk(env, s.assets)
  {}
}
