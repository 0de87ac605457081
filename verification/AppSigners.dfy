/**
 What becomes of signers over runs of the app: when their fingerprints stay apart, when a restart
 can trust its emulators, and when the log holds a signer that asked not to be persisted
 (lwk_app/src/state.rs, lib.rs).
 */
module AppSigners {
  import opened AppModel
  import opened AppInvariants
  import opened AppSnapshot
  import opened AppReplay

  // ------------------------------------------------------------------ connecting and disconnecting

  /** The fingerprints a signer can show: the one it reports, and the one of its id once it is unconnected. */
  function Faces(env: Env, s: AppSigner): set<Fingerprint>
  {
    {SignerFingerprint(env, s), SignerFingerprint(env, Cold(s))}
  }

  predicate FacesApart(env: Env, signers: map<string, AppSigner>)
  {
    forall m, n :: m in signers && n in signers && m != n ==> Faces(env, signers[m]) !! Faces(env, signers[n])
  }

  /** The state after methods asked for signers; each in a world where Jades may come and go. */
  function AfterUses(env: Env, s: State, uses: seq<(World, string)>): State
  {
    if uses == [] then s
    else
      var (w, name) := uses[|uses| - 1];
      GetAvailable(env, w, AfterUses(env, s, uses[..|uses| - 1]), name).state
  }

  lemma UseShowsAFace(env: Env, w: World, s: State, name: string)
    ensures var signers := GetAvailable(env, w, s, name).state.signers;
      && signers.Keys == s.signers.Keys
      && forall n | n in signers :: Faces(env, signers[n]) <= Faces(env, s.signers[n])
  {}

  lemma {:induction false} FacesStay(env: Env, s: State, uses: seq<(World, string)>)
    ensures var signers := AfterUses(env, s, uses).signers;
      && signers.Keys == s.signers.Keys
      && forall n | n in signers :: Faces(env, signers[n]) <= Faces(env, s.signers[n])
  {
    if uses == [] {
    } else {
      hide GetAvailable, Faces;
      var uses', u := uses[..|uses| - 1], uses[|uses| - 1];
      FacesStay(env, s, uses');
      UseShowsAFace(env, u.0, AfterUses(env, s, uses'), u.1);
    }
  }

  /** Uses of one signer that bring out a face of it. */
  function Bring(env: Env, s: State, name: string, f: Fingerprint): seq<(World, string)>
    requires name in s.signers
  {
    if SignerFingerprint(env, s.signers[name]) == f then [] else [(NOBODY, name)]
  }

  lemma BringShows(env: Env, s: State, name: string, f: Fingerprint)
    requires name in s.signers && f in Faces(env, s.signers[name])
    ensures var signers := AfterUses(env, s, Bring(env, s, name, f)).signers;
      && name in signers && SignerFingerprint(env, signers[name]) == f
      && signers - {name} == s.signers - {name}
  {
    assert [(NOBODY, name)][..0] == [];
  }

  lemma {:induction false} AfterUsesSplit(env: Env, s: State, a: seq<(World, string)>, b: seq<(World, string)>)
    ensures AfterUses(env, s, a + b) == AfterUses(env, AfterUses(env, s, a), b)
  {
    if b == [] {
      assert a + b == a;
    } else {
      hide GetAvailable;
      AfterUsesSplit(env, s, a, b[..|b| - 1]);
      assert (a + b)[..|a + b| - 1] == a + b[..|b| - 1];
    }
  }

  lemma SharedFaceClashes(env: Env, s: State, m: string, n: string, f: Fingerprint)
    requires m in s.signers && n in s.signers && m != n
    requires f in Faces(env, s.signers[m]) && f in Faces(env, s.signers[n])
    ensures exists uses :: !DistinctSigners(env, AfterUses(env, s, uses).signers)
  {
    hide Faces, Bring, AfterUses;
    BringShows(env, s, m, f);
    var a := Bring(env, s, m, f);
    var s' := AfterUses(env, s, a);
    assert n in s'.signers - {m} && (s'.signers - {m})[n] == (s.signers - {m})[n];
    BringShows(env, s', n, f);
    var b := Bring(env, s', n, f);
    AfterUsesSplit(env, s, a, b);
    var s'' := AfterUses(env, s, a + b);
    assert m in s''.signers - {n} && (s''.signers - {n})[m] == (s'.signers - {n})[m];
    assert SignerFingerprint(env, s''.signers[m]) == f && SignerFingerprint(env, s''.signers[n]) == f;
  }

  /**
   Signers stay apart through all connects and disconnects if and only if no two of them share a
   face: a fingerprint that the one reports or falls back to, and the other too.
   */
  lemma StayApartIff(env: Env, s: State)
    ensures (forall uses :: DistinctSigners(env, AfterUses(env, s, uses).signers)) <==> FacesApart(env, s.signers)
  {
    if FacesApart(env, s.signers) {
      forall uses ensures DistinctSigners(env, AfterUses(env, s, uses).signers) {
        FacesStay(env, s, uses);
        ApartIsDistinct(env, AfterUses(env, s, uses).signers, s.signers);
      }
    } else {
      var m, n :| m in s.signers && n in s.signers && m != n && !(Faces(env, s.signers[m]) !! Faces(env, s.signers[n]));
      var f :| f in Faces(env, s.signers[m]) && f in Faces(env, s.signers[n]);
      SharedFaceClashes(env, s, m, n, f);
    }
  }

  lemma ApartIsDistinct(env: Env, signers: map<string, AppSigner>, wider: map<string, AppSigner>)
    requires signers.Keys == wider.Keys && FacesApart(env, wider)
    requires forall n | n in signers :: Faces(env, signers[n]) <= Faces(env, wider[n])
    ensures DistinctSigners(env, signers)
  {
    forall m, n | m in signers && n in signers && m != n
      ensures SignerFingerprint(env, signers[m]) != SignerFingerprint(env, signers[n])
    {
      assert SignerFingerprint(env, signers[m]) in Faces(env, wider[m]);
      assert SignerFingerprint(env, signers[n]) in Faces(env, wider[n]);
    }
  }

  // ------------------------------------------------------------------ signers apart along a run

  /** An event brings no face that is taken already: a caller can tell from the state and the devices. */
  predicate BringsOwnFaces(env: Env, app: App, e: AppEvent)
  {
    match e
    case Restart(w) => FacesApart(env, Made(env, w, app.file))
    case Rpc(w, q) =>
      q.LoadsSigner() && Handle(env, w, app.state, q).ok && SignerOf(env, w, q).Some? ==>
        forall n | n in app.state.signers :: Faces(env, SignerOf(env, w, q).value) !! Faces(env, app.state.signers[n])
  }

  lemma InsertApartIff(env: Env, signers: map<string, AppSigner>, name: string, s: AppSigner)
    requires FacesApart(env, signers) && name !in signers
    ensures FacesApart(env, signers[name := s]) <==> forall n | n in signers :: Faces(env, s) !! Faces(env, signers[n])
  {
    hide Faces;
    var m := signers[name := s];
    if FacesApart(env, m) {
      assert forall n :: n in signers ==> n in m && name in m && n != name;
    }
  }

  lemma ShrinkApart(env: Env, signers: map<string, AppSigner>, wider: map<string, AppSigner>)
    requires FacesApart(env, wider) && signers.Keys <= wider.Keys
    requires forall n | n in signers :: Faces(env, signers[n]) <= Faces(env, wider[n])
    ensures FacesApart(env, signers)
  {
    hide Faces;
  }

  /** The requests that load no signer keep signers apart. */
  lemma OtherRequestsKeepApart(env: Env, w: World, s: State, q: Request)
    requires FacesApart(env, s.signers) && !q.LoadsSigner()
    ensures FacesApart(env, Handle(env, w, s, q).state.signers)
  {
    hide FacesApart, Faces, GetAvailable, InsertWollet, SetMemo, InsertAsset;
    if q.UseSigner? {
      UseShowsAFace(env, w, s, q.name);
    }
    ShrinkApart(env, Handle(env, w, s, q).state.signers, s.signers);
  }

  lemma StepApartIff(env: Env, app: App, e: AppEvent, app': App)
    requires env.Lawful() && Inv(env, app) && AppStep(env, app, e, app') && FacesApart(env, app.state.signers)
    ensures FacesApart(env, app'.state.signers) <==> BringsOwnFaces(env, app, e)
  {
    hide FacesApart, Faces, StateOk, Handle, Made, Boot, Base, SignerOf, Reachable, DistinctSigners;
    match e
    case Restart(w) => BootIff(env, w, app.file);
    case Rpc(w, q) =>
      if !q.LoadsSigner() {
        OtherRequestsKeepApart(env, w, app.state, q);
      } else if !Handle(env, w, app.state, q).ok {
        RefusalKeeps(env, w, app.state, q);
      } else {
        LoadIsHandled(env, w, app.state, q);
        SignerLoadDoes(env, w, app.state, q);
        InsertApartIff(env, app.state.signers, q.name, SignerOf(env, w, q).value);
      }
  }

  lemma LoadIsHandled(env: Env, w: World, s: State, q: Request)
    requires q.LoadsSigner()
    ensures Handle(env, w, s, q) == HandleSignerLoad(env, w, s, q)
  {}

  /**
   In every run: no two signers share a face at any point if and only if no load and no restart
   brings a face that is taken already.
   */
  lemma ApartAlongRunIff(env: Env, apps: seq<App>, events: seq<AppEvent>)
    requires env.Lawful() && IsRun(env, apps, events)
    ensures (forall i | 0 <= i < |apps| :: FacesApart(env, apps[i].state.signers)) <==>
      (forall i | 0 <= i < |events| :: BringsOwnFaces(env, apps[i], events[i]))
  {
    hide FacesApart, BringsOwnFaces, AppStep, Inv;
    if forall i | 0 <= i < |apps| :: FacesApart(env, apps[i].state.signers) {
      forall i | 0 <= i < |events| ensures BringsOwnFaces(env, apps[i], events[i]) {
        InvAlways(env, apps, events, i);
        assert FacesApart(env, apps[i].state.signers) && FacesApart(env, apps[i + 1].state.signers);
        StepApartIff(env, apps[i], events[i], apps[i + 1]);
      }
    }
    if forall i | 0 <= i < |events| :: BringsOwnFaces(env, apps[i], events[i]) {
      forall i | 0 <= i < |apps| ensures FacesApart(env, apps[i].state.signers) {
        OwnFacesKeepApart(env, apps, events, i);
      }
    }
  }

  lemma {:induction false} OwnFacesKeepApart(env: Env, apps: seq<App>, events: seq<AppEvent>, i: nat)
    requires env.Lawful() && IsRun(env, apps, events) && i < |apps|
    requires forall j | 0 <= j < |events| :: BringsOwnFaces(env, apps[j], events[j])
    ensures FacesApart(env, apps[i].state.signers)
  {
    hide FacesApart, BringsOwnFaces, AppStep, Inv;
    if i == 0 {
      NoneClash(env);
    } else {
      var h := i - 1;
      OwnFacesKeepApart(env, apps, events, h);
      InvAlways(env, apps, events, h);
      assert BringsOwnFaces(env, apps[h], events[h]);
      assert AppStep(env, apps[h], events[h], apps[i]);
      StepApartIff(env, apps[h], events[h], apps[i]);
    }
  }

  lemma NoneClash(env: Env)
    ensures FacesApart(env, map[]) && DistinctSigners(env, map[])
  {}

  /** The event disconnects a Jade whose id has the fingerprint that another signer shows. */
  predicate FallsBackOnTaken(env: Env, app: App, e: AppEvent)
  {
    var signers := app.state.signers;
    && e.Rpc? && e.request.UseSigner? && e.request.name in signers
    && signers[e.request.name].inner.Jade? && !e.world.jadeUnlocks
    && exists n :: n in signers && n != e.request.name
         && SignerFingerprint(env, signers[n]) == env.idFingerprint(signers[e.request.name].inner.id)
  }

  lemma ReplaceDistinctIff(env: Env, signers: map<string, AppSigner>, name: string, s: AppSigner)
    requires DistinctSigners(env, signers) && name in signers
    ensures DistinctSigners(env, signers[name := s]) <==>
      !exists n :: n in signers && n != name && SignerFingerprint(env, signers[n]) == SignerFingerprint(env, s)
  {
    var m := signers[name := s];
    if n :| n in signers && n != name && SignerFingerprint(env, signers[n]) == SignerFingerprint(env, s) {
      assert n in m && name in m && m[n] == signers[n] && m[name] == s;
    }
  }

  lemma UseDistinctIff(env: Env, w: World, app: App, name: string)
    requires DistinctSigners(env, app.state.signers)
    ensures DistinctSigners(env, GetAvailable(env, w, app.state, name).state.signers) <==>
      !FallsBackOnTaken(env, app, Rpc(w, UseSigner(name)))
  {
    var signers := app.state.signers;
    if name in signers {
      match signers[name].inner
      case JadeRef(id) =>
        var s := AppSigner(Jade(id, env.idFingerprint(id)), true);
        ReplaceDistinctIff(env, signers, name, s);
        assert SignerFingerprint(env, s) == SignerFingerprint(env, signers[name]);
      case Jade(id, _) => ReplaceDistinctIff(env, signers, name, AppSigner(JadeRef(id), true));
      case _ =>
    }
    hide DistinctSigners;
  }

  lemma DropDistinct(env: Env, signers: map<string, AppSigner>, name: string)
    requires DistinctSigners(env, signers)
    ensures DistinctSigners(env, signers - {name})
  {}

  /** The requests about signers, but for their use. */
  lemma OthersKeepDistinct(env: Env, w: World, s: State, q: Request)
    requires DistinctSigners(env, s.signers) && !q.UseSigner?
    ensures DistinctSigners(env, Handle(env, w, s, q).state.signers)
  {
    hide DistinctSigners, InsertWollet, SetMemo, InsertAsset, InsertSigner, SignerOf;
    if q.SignerUnload? {
      DropDistinct(env, s.signers, q.name);
    } else if q.LoadsSigner() && SignerOf(env, w, q).Some? {
      InsertKeepsDistinct(env, s.signers, q.name, SignerOf(env, w, q).value);
    }
  }

  lemma InsertKeepsDistinct(env: Env, signers: map<string, AppSigner>, name: string, s: AppSigner)
    requires DistinctSigners(env, signers)
    ensures var r := InsertSigner(env, signers, name, s); r.Some? ==> DistinctSigners(env, r.value)
  {}

  lemma StepDistinctIff(env: Env, app: App, e: AppEvent, app': App)
    requires env.Lawful() && Inv(env, app) && AppStep(env, app, e, app') && DistinctSigners(env, app.state.signers)
    ensures DistinctSigners(env, app'.state.signers) <==> !FallsBackOnTaken(env, app, e)
  {
    hide DistinctSigners, StateOk, Made, Boot, Base, Reachable, GetAvailable, HandleSignerLoad;
    match e
    case Restart(w) => BootIff(env, w, app.file);
    case Rpc(w, q) =>
      if q.UseSigner? {
        UseDistinctIff(env, w, app, q.name);
      } else {
        OthersKeepDistinct(env, w, app.state, q);
      }
      hide Handle;
  }

  /**
   In every run: signers have distinct fingerprints at every point if and only if no Jade is ever disconnected whose
   id has the fingerprint that another signer shows.
   */
  lemma DistinctAlongRunIff(env: Env, apps: seq<App>, events: seq<AppEvent>)
    requires env.Lawful() && IsRun(env, apps, events)
    ensures (forall i | 0 <= i < |apps| :: DistinctSigners(env, apps[i].state.signers)) <==>
      (forall i | 0 <= i < |events| :: !FallsBackOnTaken(env, apps[i], events[i]))
  {
    hide DistinctSigners, FallsBackOnTaken, AppStep, Inv;
    if forall i | 0 <= i < |apps| :: DistinctSigners(env, apps[i].state.signers) {
      forall i | 0 <= i < |events| ensures !FallsBackOnTaken(env, apps[i], events[i]) {
        InvAlways(env, apps, events, i);
        assert DistinctSigners(env, apps[i].state.signers) && DistinctSigners(env, apps[i + 1].state.signers);
        StepDistinctIff(env, apps[i], events[i], apps[i + 1]);
      }
    }
    if forall i | 0 <= i < |events| :: !FallsBackOnTaken(env, apps[i], events[i]) {
      forall i | 0 <= i < |apps| ensures DistinctSigners(env, apps[i].state.signers) {
        DistinctSoFar(env, apps, events, i);
      }
    }
  }

  lemma {:induction false} DistinctSoFar(env: Env, apps: seq<App>, events: seq<AppEvent>, i: nat)
    requires env.Lawful() && IsRun(env, apps, events) && i < |apps|
    requires forall j | 0 <= j < |events| :: !FallsBackOnTaken(env, apps[j], events[j])
    ensures DistinctSigners(env, apps[i].state.signers)
  {
    hide DistinctSigners, FallsBackOnTaken, AppStep, Inv;
    if i == 0 {
      NoneClash(env);
    } else {
      var h := i - 1;
      DistinctSoFar(env, apps, events, h);
      InvAlways(env, apps, events, h);
      assert !FallsBackOnTaken(env, apps[h], events[h]);
      assert AppStep(env, apps[h], events[h], apps[i]);
      StepDistinctIff(env, apps[h], events[h], apps[i]);
    }
  }

  /** No two wallets ever share their first address, whatever devices report. */
  lemma WalletsAlwaysApart(env: Env, apps: seq<App>, events: seq<AppEvent>, i: nat, m: string, n: string)
    requires env.Lawful() && IsRun(env, apps, events) && i < |apps|
    requires m in apps[i].state.wollets && n in apps[i].state.wollets && m != n
    ensures env.firstAddress(apps[i].state.wollets[m]) != env.firstAddress(apps[i].state.wollets[n])
  {
    InvAlways(env, apps, events, i);
  }

  // ------------------------------------------------------------------ honest emulators

  predicate HonestLog(env: Env, w: World, log: seq<Request>)
  {
    forall r | r in log :: Honest(env, w, r)
  }

  /** Emulators that answer are what they claim to be, whenever they are asked. */
  predicate Trusted(env: Env, app: App, e: AppEvent)
  {
    match e
    case Rpc(w, q) => Honest(env, w, q)
    case Restart(w) => HonestLog(env, w, app.file)
  }

  ghost predicate IsHonestRun(env: Env, apps: seq<App>, events: seq<AppEvent>)
  {
    IsRun(env, apps, events) && forall i | 0 <= i < |events| :: Trusted(env, apps[i], events[i])
  }

  lemma {:induction false} HonestSigners(env: Env, w: World, log: seq<Request>)
    requires HonestLog(env, w, log)
    ensures forall n | n in Made(env, w, log) :: Genuine(env, Made(env, w, log)[n])
  {
    if log == [] {
    } else {
      LastLine(log);
      HonestSigners(env, w, log[..|log| - 1]);
    }
  }

  lemma HonestStep(env: Env, app: App, e: AppEvent, app': App)
    requires env.Lawful() && Inv(env, app) && SignersOk(env, app.state.signers)
    requires Trusted(env, app, e) && AppStep(env, app, e, app')
    ensures SignersOk(env, app'.state.signers)
  {
    hide Handle, Boot, StateOk, Made, Base, Writes, Reachable, DistinctSigners, Genuine, Honest;
    match e
    case Rpc(w, q) => HandleKeepsSigners(env, w, app.state, q);
    case Restart(w) =>
      BootIff(env, w, app.file);
      HonestSigners(env, w, app.file);
  }

  /** Where emulators are honest, signers are what they claim to be, and apart, in every state. */
  lemma {:induction false} HonestSignersApart(env: Env, apps: seq<App>, events: seq<AppEvent>, i: nat)
    requires env.Lawful() && IsHonestRun(env, apps, events) && i < |apps|
    ensures SignersOk(env, apps[i].state.signers)
  {
    hide AppStep, Trusted, SignersOk, Inv;
    if i == 0 {
      NoSignersOk(env);
    } else {
      var h := i - 1;
      HonestSignersApart(env, apps, events, h);
      InvAlways(env, apps, events, h);
      assert Trusted(env, apps[h], events[h]);
      assert AppStep(env, apps[h], events[h], apps[i]);
      HonestStep(env, apps[h], events[h], apps[i]);
    }
  }

  lemma NoSignersOk(env: Env)
    ensures SignersOk(env, map[])
  {}

  /** Where emulators are honest, a restart succeeds if and only if those in the log are reachable. */
  lemma HonestRestart(env: Env, apps: seq<App>, events: seq<AppEvent>, i: nat, w: World)
    requires env.Lawful() && IsHonestRun(env, apps, events) && i < |apps| && HonestLog(env, w, apps[i].file)
    ensures Boot(env, w, apps[i].file).Some? <==> Reachable(w, apps[i].file)
  {
    hide Boot, StateOk, Made, MadeCold, Base, Reachable, Registry, Colds, SignerLinesOk, Holds;
    var app := apps[i];
    HonestSignersApart(env, apps, events, i);
    InvAlways(env, apps, events, i);
    BootIff(env, w, app.file);
    if Reachable(w, app.file) {
      MadeUpToConnections(env, w, app.file);
      HonestSigners(env, w, app.file);
      GenuineAndKept(env, Made(env, w, app.file), app.state.signers);
    }
  }

  lemma GenuineAndKept(env: Env, made: map<string, AppSigner>, live: map<string, AppSigner>)
    requires SignersOk(env, live) && SignersKept(Colds(made), live)
    requires forall n | n in made :: Genuine(env, made[n])
    ensures DistinctSigners(env, made)
  {
    forall n | n in made ensures n in live && SignerFingerprint(env, made[n]) == SignerFingerprint(env, live[n]) {
      assert n in Colds(made) && Cold(made[n]) == Cold(live[n]);
    }
  }

  // ------------------------------------------------------------------ dishonest emulators

  /** Two loads of Jades under ids of one fingerprint, by emulators that report different ones. */
  predicate Mislabelled(env: Env, w: World, a: Request, b: Request)
  {
    && a.SignerLoadJade? && b.SignerLoadJade? && a.name != b.name && a.emulator.Some? && b.emulator.Some?
    && a.emulator.value in w.emulators && b.emulator.value in w.emulators
    && env.jadeIds.parse(a.jadeId).Some? && env.jadeIds.parse(b.jadeId).Some?
    && env.idFingerprint(env.jadeIds.parse(a.jadeId).value) == env.idFingerprint(env.jadeIds.parse(b.jadeId).value)
    && w.emulators[a.emulator.value] != w.emulators[b.emulator.value]
  }

  lemma EmulatorLoads(env: Env, w: World, s: State, r: Request)
    requires r.SignerLoadJade? && r.name !in s.signers && r.emulator.Some? && r.emulator.value in w.emulators
    requires env.jadeIds.parse(r.jadeId).Some?
    requires forall n | n in s.signers :: SignerFingerprint(env, s.signers[n]) != w.emulators[r.emulator.value]
    ensures var id, f := env.jadeIds.parse(r.jadeId).value, w.emulators[r.emulator.value];
      Handle(env, w, s, r) == Effect(s.(signers := s.signers[r.name := AppSigner(Jade(id, f), true)]), Append(r), true)
  {}

  lemma JadeGoes(env: Env, s: State, name: string)
    requires name in s.signers && s.signers[name].inner.Jade?
    ensures var s' := s.(signers := s.signers[name := AppSigner(JadeRef(s.signers[name].inner.id), true)]);
      Handle(env, NOBODY, s, UseSigner(name)) == Effect(s', Keep, false)
  {}

  /** Both are accepted; once both are away, two signers of one run have the same fingerprint. */
  lemma MislabelledClash(env: Env, w: World, a: Request, b: Request) returns (apps: seq<App>, events: seq<AppEvent>)
    requires Mislabelled(env, w, a, b)
    ensures IsRun(env, apps, events) && |events| == 4
    ensures var signers := apps[4].state.signers;
      && a.name in signers && b.name in signers
      && SignerFingerprint(env, signers[a.name]) == SignerFingerprint(env, signers[b.name])
  {
    hide Handle, GetAvailable, InsertSigner;
    var s0 := Initial(env);
    EmulatorLoads(env, w, s0, a);
    var s1 := Handle(env, w, s0, a).state;
    EmulatorLoads(env, w, s1, b);
    var s2 := Handle(env, w, s1, b).state;
    JadeGoes(env, s2, a.name);
    var s3 := Handle(env, NOBODY, s2, UseSigner(a.name)).state;
    JadeGoes(env, s3, b.name);
    var s4 := Handle(env, NOBODY, s3, UseSigner(b.name)).state;
    events := [Rpc(w, a), Rpc(w, b), Rpc(NOBODY, UseSigner(a.name)), Rpc(NOBODY, UseSigner(b.name))];
    var log := [a, b];
    apps := [App(s0, true, []), App(s1, true, [a]), App(s2, true, log), App(s3, true, log), App(s4, true, log)];
    assert [a] + [b] == [a, b] && [] + [a] == [a];
  }

  /** And any snapshot taken after the loads cannot be read back by anyone. */
  lemma MislabelledSnapshot(env: Env, w: World, s: State, a: Request, b: Request, o: Order, w': World)
    requires env.Lawful() && StateOk(env, s) && Mislabelled(env, w, a, b)
    requires a.name !in s.signers && b.name !in s.signers
    requires forall n | n in s.signers :: SignerFingerprint(env, s.signers[n]) !in w.emulators.Values
    requires o.Of(Handle(env, w, Handle(env, w, s, a).state, b).state)
    ensures Handle(env, w, s, a).ok && Handle(env, w, Handle(env, w, s, a).state, b).ok
    ensures Boot(env, w', Snapshot(env, Handle(env, w, Handle(env, w, s, a).state, b).state, o)).None?
  {
    hide Boot, Snapshot, StateOk, Handle;
    HandleKeepsOk(env, w, s, a);
    EmulatorLoads(env, w, s, a);
    var s1 := Handle(env, w, s, a).state;
    HandleKeepsOk(env, w, s1, b);
    EmulatorLoads(env, w, s1, b);
    var s2 := Handle(env, w, s1, b).state;
    var c := Colds(s2.signers);
    assert SignerFingerprint(env, c[a.name]) == SignerFingerprint(env, c[b.name]);
    SnapshotBoots(env, w', s2, o);
  }

  // ------------------------------------------------------------------ signers that asked not to be persisted

  /** The event rewrote the log. */
  predicate Compacts(env: Env, app: App, e: AppEvent)
  {
    e.Rpc? && Handle(env, e.world, app.state, e.request).write.Compact?
  }

  predicate Unpersisted(signers: map<string, AppSigner>, name: string)
  {
    name in signers && signers[name].inner.Software? && !signers[name].persist
  }

  /** A compaction at `j`, and the signer was live in every state since. */
  predicate LiveSinceCompaction(env: Env, apps: seq<App>, events: seq<AppEvent>, name: string, j: nat, i: nat)
    requires |apps| == |events| + 1 && i < |apps|
  {
    j < i && Compacts(env, apps[j], events[j]) && forall k | j < k <= i :: name in apps[k].state.signers
  }

  lemma LineLogged(log: seq<Request>, r: Request)
    ensures LoggedSigners(log + [r]) == LoggedSigners(log) + if r.LoadsSigner() then {r.name} else {}
  {}

  /** Requests that do not load the signer itself leave it alone. */
  lemma OtherRequestLeaves(env: Env, w: World, s: State, q: Request, name: string)
    requires Unpersisted(Handle(env, w, s, q).state.signers, name) && !(q.LoadsSigner() && q.name == name)
    ensures name in s.signers && s.signers[name] == Handle(env, w, s, q).state.signers[name]
  {
    hide InsertWollet, SetMemo, InsertAsset, SignerOf;
  }

  lemma WhatIsAppended(env: Env, w: World, s: State, q: Request)
    requires Handle(env, w, s, q).write.Append?
    ensures Handle(env, w, s, q).write.request.LoadsSigner() ==> Handle(env, w, s, q).write.request == q
  {
    hide InsertWollet, SetMemo, InsertAsset, InsertSigner, SignerOf;
  }

  /** One event without compaction neither logs nor forgets an unpersisted signer. */
  lemma RequestLogs(env: Env, w: World, app: App, q: Request, app': App, name: string)
    requires Inv(env, app) && RpcStep(env, w, app, q, app') && Unpersisted(app'.state.signers, name)
    requires !Handle(env, w, app.state, q).write.Compact?
    ensures name in LoggedSigners(app'.file) <==> name in LoggedSigners(app.file)
    ensures name in app.state.signers ==> Unpersisted(app.state.signers, name)
    ensures name !in app.state.signers ==> name !in LoggedSigners(app.file)
  {
    hide Handle, StateOk, LoggedSigners, SignerLinesOk, MadeCold, Base, SameRest, SignersKept;
    var e := Handle(env, w, app.state, q);
    if name !in app.state.signers {
      NotLogged(env, app.file, app.state.signers, name);
    }
    if e.write.Append? {
      LineLogged(app.file, e.write.request);
      WhatIsAppended(env, w, app.state, q);
    }
    if q.LoadsSigner() && q.name == name {
      LoadIsHandled(env, w, app.state, q);
      if e.ok {
        SignerLoadDoes(env, w, app.state, q);
      } else {
        RefusalKeeps(env, w, app.state, q);
      }
    } else {
      OtherRequestLeaves(env, w, app.state, q, name);
    }
  }

  lemma RestartLogs(env: Env, w: World, app: App, name: string)
    requires Inv(env, app) && Boot(env, w, app.file).Some? && Unpersisted(Boot(env, w, app.file).value.signers, name)
    ensures name in LoggedSigners(app.file) && Unpersisted(app.state.signers, name)
  {
    hide Boot, StateOk, LoggedSigners, SignerLinesOk, Base, SameRest, Reachable, Made, MadeCold;
    BootIff(env, w, app.file);
    MadeKeys(env, w, app.file);
    MadeUpToConnections(env, w, app.file);
    var made := Made(env, w, app.file);
    assert name in Colds(made) && Cold(made[name]) == Cold(app.state.signers[name]);
  }

  /**
   At any point of any run, a live software signer that asked not to be persisted is in the log all the
   same if and only if the log was rewritten at some point since which the signer was live all along.
   */
  lemma {:induction false} UnpersistedIsLoggedIff(env: Env, apps: seq<App>, events: seq<AppEvent>, i: nat, name: string)
    requires env.Lawful() && IsRun(env, apps, events) && i < |apps| && Unpersisted(apps[i].state.signers, name)
    ensures name in LoggedSigners(apps[i].file) <==>
      exists j: nat :: j < i && LiveSinceCompaction(env, apps, events, name, j, i)
  {
    hide Handle, Boot, StateOk, LoggedSigners, Inv, Compacts, AppStep;
    if i == 0 {
    } else {
      var h := i - 1;
      InvAlways(env, apps, events, h);
      var app, e := apps[h], events[h];
      assert AppStep(env, app, e, apps[i]);
      LogStep(env, app, e, apps[i], name);
      if Compacts(env, app, e) {
        assert LiveSinceCompaction(env, apps, events, name, h, i);
      } else {
        if name in app.state.signers {
          UnpersistedIsLoggedIff(env, apps, events, h, name);
          if j: nat :| j < h && LiveSinceCompaction(env, apps, events, name, j, h) {
            assert LiveSinceCompaction(env, apps, events, name, j, i);
          }
        }
        if j: nat :| j < i && LiveSinceCompaction(env, apps, events, name, j, i) {
          assert name in app.state.signers && LiveSinceCompaction(env, apps, events, name, j, h);
        }
      }
    }
  }

  lemma LogStep(env: Env, app: App, e: AppEvent, app': App, name: string)
    requires env.Lawful() && Inv(env, app) && AppStep(env, app, e, app') && Unpersisted(app'.state.signers, name)
    ensures Compacts(env, app, e) ==> name in LoggedSigners(app'.file)
    ensures !Compacts(env, app, e) ==> (name in LoggedSigners(app'.file) <==> name in LoggedSigners(app.file))
    ensures !Compacts(env, app, e) && name in app.state.signers ==> Unpersisted(app.state.signers, name)
    ensures !Compacts(env, app, e) && name !in app.state.signers ==> name !in LoggedSigners(app.file)
  {
    hide Handle, Boot, StateOk, LoggedSigners, Logged, Unpersisted;
    match e
    case Restart(w) =>
      RestartLogs(env, w, app, name);
      UnpersistedIsLive(app.state.signers, name);
    case Rpc(w, q) =>
      if Compacts(env, app, e) {
        HandleKeepsOk(env, w, app.state, q);
        SnapshotAgrees(env, app'.state, app'.file);
        UnpersistedIsLive(app'.state.signers, name);
      } else {
        RequestLogs(env, w, app, q, app', name);
      }
  }

  lemma UnpersistedIsLive(signers: map<string, AppSigner>, name: string)
    requires Unpersisted(signers, name)
    ensures name in signers
  {}

  /** It happens: load such a signer, then take any asset out. */
  lemma UnpersistedGetsLogged(env: Env, name: string, m: Mnemonic) returns (apps: seq<App>, events: seq<AppEvent>)
    requires env.Lawful()
    ensures IsRun(env, apps, events) && |events| == 2
    ensures Unpersisted(apps[2].state.signers, name) && name in LoggedSigners(apps[2].file)
  {
    var load := SignerLoadSoftware(name, env.mnemonics.show(m), false);
    var remove := AssetRemove(env.assetIds.show(env.policyAsset));
    events := [Rpc(NOBODY, load), Rpc(NOBODY, remove)];
    var s0 := Initial(env);
    var s1 := s0.(signers := map[name := AppSigner(Software(m), false)]);
    var s2 := s1.(assets := map[]);
    assert Handle(env, NOBODY, s0, load) == Effect(s1, Keep, true);
    assert Handle(env, NOBODY, s1, remove) == Effect(s2, Compact, true);
    var o := Order([], [], [], [name], []);
    assert o.Of(s2);
    apps := [App(s0, true, []), App(s1, true, []), App(s2, true, Snapshot(env, s2, o))];
    hide Handle, Snapshot, LoggedSigners;
    assert IsRun(env, apps, events);
    assert LiveSinceCompaction(env, apps, events, name, 1, 2);
    UnpersistedIsLoggedIff(env, apps, events, 2, name);
  }

  // ------------------------------------------------------------------ signers and wallets that were unloaded

  /** The event asks for a signer of this name to be loaded. */
  predicate LoadsSignerNamed(e: AppEvent, name: string)
  {
    e.Rpc? && e.request.LoadsSigner() && e.request.name == name
  }

  /** Neither live nor logged. */
  predicate SignerGone(app: App, name: string)
  {
    name !in app.state.signers && name !in LoggedSigners(app.file)
  }

  lemma GoneIsNotLogged(env: Env, app: App, name: string)
    requires Inv(env, app) && name !in app.state.signers
    ensures SignerGone(app, name)
  {
    hide StateOk, LoggedSigners, SignerLinesOk, MadeCold, Base, SameRest, SignersKept;
    NotLogged(env, app.file, app.state.signers, name);
  }

  lemma NewSignersAreLoaded(env: Env, w: World, s: State, q: Request, name: string)
    requires name !in s.signers && !(q.LoadsSigner() && q.name == name)
    ensures name !in Handle(env, w, s, q).state.signers
  {
    hide InsertWollet, SetMemo, InsertAsset, SignerOf;
  }

  lemma StaysGone(env: Env, app: App, e: AppEvent, app': App, name: string)
    requires env.Lawful() && Inv(env, app) && Inv(env, app') && AppStep(env, app, e, app')
    requires SignerGone(app, name) && !LoadsSignerNamed(e, name)
    ensures SignerGone(app', name)
  {
    hide Handle, Boot, StateOk, LoggedSigners, Base, Reachable, DistinctSigners, Made, SignerLinesOk, SameRest,
      SignersKept;
    match e {
      case Rpc(w, q) =>
        NewSignersAreLoaded(env, w, app.state, q, name);
      case Restart(w) =>
        BootIff(env, w, app.file);
        MadeKeys(env, w, app.file);
    }
    GoneIsNotLogged(env, app', name);
  }

  /**
   In every run, a signer that is unloaded is gone from the state and from the log, and no request, compaction or
   restart brings it back until it is loaded again.
   */
  lemma {:induction false} UnloadedSignerStaysGone(env: Env, apps: seq<App>, events: seq<AppEvent>, i: nat, j: nat,
                                                   name: string)
    requires env.Lawful() && IsRun(env, apps, events) && i < j < |apps|
    requires events[i].Rpc? && events[i].request == SignerUnload(name)
    requires forall k | i < k < j :: !LoadsSignerNamed(events[k], name)
    ensures SignerGone(apps[j], name)
  {
    hide Inv, AppStep, SignerGone, LoadsSignerNamed;
    var h := j - 1;
    InvAlways(env, apps, events, h);
    InvAlways(env, apps, events, j);
    assert AppStep(env, apps[h], events[h], apps[j]);
    if h == i {
      UnloadStep(env, apps[h], events[h], apps[j], name);
      GoneIsNotLogged(env, apps[j], name);
    } else {
      UnloadedSignerStaysGone(env, apps, events, i, h, name);
      StaysGone(env, apps[h], events[h], apps[j], name);
    }
  }

  lemma UnloadStep(env: Env, app: App, e: AppEvent, app': App, name: string)
    requires AppStep(env, app, e, app') && e.Rpc? && e.request == SignerUnload(name)
    ensures name !in app'.state.signers
  {
    SignerUnloadIff(app.state, name);
    hide HandleSignerUnload;
  }

  predicate LoadsWalletNamed(e: AppEvent, name: string)
  {
    e.Rpc? && e.request.WalletLoad? && e.request.name == name
  }

  /** Not loaded, and without memos. */
  predicate WalletGone(s: State, name: string)
  {
    name !in s.wollets && name !in s.txMemos && name !in s.addrMemos
  }

  lemma UnloadedHasNoMemos(env: Env, s: State, name: string)
    requires StateOk(env, s) && name !in s.wollets
    ensures WalletGone(s, name)
  {}

  lemma NewWalletsAreLoaded(env: Env, w: World, s: State, q: Request, name: string)
    requires name !in s.wollets && !(q.WalletLoad? && q.name == name)
    ensures name !in Handle(env, w, s, q).state.wollets
  {
    hide SetMemo, InsertAsset, InsertSigner, SignerOf;
  }

  lemma WalletStaysGone(env: Env, app: App, e: AppEvent, app': App, name: string)
    requires env.Lawful() && Inv(env, app) && AppStep(env, app, e, app')
    requires name !in app.state.wollets && !LoadsWalletNamed(e, name)
    ensures name !in app'.state.wollets
  {
    hide Handle, Boot, StateOk, Base, Reachable, DistinctSigners, Made, SignerLinesOk, SignersKept;
    match e
    case Rpc(w, q) => NewWalletsAreLoaded(env, w, app.state, q, name);
    case Restart(w) => BootIff(env, w, app.file);
  }

  /** So of a wallet and all its memos. */
  lemma {:induction false} UnloadedWalletStaysGone(env: Env, apps: seq<App>, events: seq<AppEvent>, i: nat, j: nat,
                                                   name: string)
    requires env.Lawful() && IsRun(env, apps, events) && i < j < |apps|
    requires events[i].Rpc? && events[i].request == WalletUnload(name)
    requires forall k | i < k < j :: !LoadsWalletNamed(events[k], name)
    ensures WalletGone(apps[j].state, name)
  {
    hide AppStep, WalletGone, LoadsWalletNamed, Logged, StateOk;
    var h := j - 1;
    InvAlways(env, apps, events, h);
    InvAlways(env, apps, events, j);
    assert AppStep(env, apps[h], events[h], apps[j]);
    if h == i {
      WalletUnloadStep(env, apps[h], events[h], apps[j], name);
    } else {
      UnloadedWalletStaysGone(env, apps, events, i, h, name);
      GoneIsNotLoaded(apps[h].state, name);
      WalletStaysGone(env, apps[h], events[h], apps[j], name);
    }
    UnloadedHasNoMemos(env, apps[j].state, name);
  }

  lemma GoneIsNotLoaded(s: State, name: string)
    requires WalletGone(s, name)
    ensures name !in s.wollets
  {}

  lemma WalletUnloadStep(env: Env, app: App, e: AppEvent, app': App, name: string)
    requires AppStep(env, app, e, app') && e.Rpc? && e.request == WalletUnload(name)
    ensures name !in app'.state.wollets
  {}
}
