/** The state of the app server and how requests change it (lwk_app/src/state.rs, lib.rs). */
module AppModel {
  import opened Prelude

  type Descriptor(==, !new)
  type Mnemonic(==, !new)
  type JadeId(==, !new)
  type Fingerprint(==, !new)
  type Txid(==, !new)
  type Address(==, !new)
  type AssetId(==, !new)
  type Contract(==, !new)
  type Transaction(==, !new)

  /** The configuration, and what the wallet and signer libraries compute. */
  datatype Env = Env(
    mainnet: bool,
    descriptors: Codec<Descriptor>,
    isMainnet: Descriptor -> bool,
    firstAddress: Descriptor -> Option<Address>,
    mnemonics: Codec<Mnemonic>,
    softwareFingerprint: Mnemonic -> Fingerprint,
    jadeIds: Codec<JadeId>,
    idFingerprint: JadeId -> Fingerprint,
    fingerprints: Codec<Fingerprint>,
    txids: Codec<Txid>,
    addresses: Codec<Address>,
    assetIds: Codec<AssetId>,
    contracts: Codec<Contract>,
    transactions: Codec<Transaction>,
    issues: (AssetId, Transaction, Contract) -> bool,   // the transaction issues the asset under the contract
    token: AssetId -> AssetId,                          // the reissuance token of an asset
    policyAsset: AssetId)
  {
    /** Texts read back; tokens of different assets differ, and are neither issued assets nor the policy asset. */
    ghost predicate Lawful()
    {
      && RoundTrips(descriptors) && RoundTrips(mnemonics) && RoundTrips(jadeIds) && RoundTrips(fingerprints)
      && RoundTrips(txids) && RoundTrips(addresses)
      && RoundTrips(assetIds) && RoundTrips(contracts) && RoundTrips(transactions)
      && (forall a, b :: token(a) == token(b) ==> a == b)
      && (forall a, t, c :: issues(a, t, c) ==> a != policyAsset && forall b :: token(b) != a)
      && (forall a :: token(a) != policyAsset)
    }
  }

  // ------------------------------------------------------------------ state

  datatype Inner =
    | JadeRef(id: JadeId)                             // a Jade that is not connected
    | Jade(id: JadeId, device: Fingerprint)           // a connected Jade; the fingerprint is the device's own
    | Software(mnemonic: Mnemonic)
    | External(fingerprint: Fingerprint)

  datatype AppSigner = AppSigner(inner: Inner, persist: bool)

  datatype AssetData = AssetData(id: AssetId, tx: Transaction, contract: Contract)

  datatype AppAsset = PolicyAsset | RegistryAsset(data: AssetData) | ReissuanceToken(data: AssetData)

  type Memos<K> = map<string, map<K, string>>

  datatype State = State(
    wollets: map<string, Descriptor>,
    signers: map<string, AppSigner>,
    assets: map<AssetId, AppAsset>,
    txMemos: Memos<Txid>,
    addrMemos: Memos<Address>)

  function Initial(env: Env): State
  {
    State(map[], map[], map[env.policyAsset := PolicyAsset], map[], map[])
  }

  // ------------------------------------------------------------------ requests

  /** The requests that change the state; `UseSigner` is any method that needs an available signer. */
  datatype Request =
    | WalletLoad(descriptor: string, name: string)
    | WalletUnload(name: string)
    | SignerLoadSoftware(name: string, mnemonic: string, persist: bool)
    | SignerLoadJade(name: string, jadeId: string, emulator: Option<string>)
    | SignerLoadExternal(name: string, fingerprint: string)
    | SignerUnload(name: string)
    | WalletSetTxMemo(name: string, txid: string, memo: string)
    | WalletSetAddrMemo(name: string, address: string, memo: string)
    | AssetInsert(assetId: string, contract: string, issuanceTx: string)
    | AssetRemove(assetId: string)
    | AssetFromRegistry(assetId: string)
    | UseSigner(name: string)
  {
    predicate LoadsSigner()
    {
      SignerLoadSoftware? || SignerLoadJade? || SignerLoadExternal?
    }
  }

  /** What the outside world answers to a request. */
  datatype World = World(
    emulators: map<string, Fingerprint>,              // reachable emulators and the fingerprint each reports
    registry: Option<(Contract, Transaction)>,        // what registry and chain return for an asset
    jadeFound: bool,                                  // a Jade with the wanted id is found on a serial port
    jadeUnlocks: bool)                                // a connected Jade still answers

  /** What a request does to the log: nothing, a line at its end, or a fresh snapshot. */
  datatype Write = Keep | Append(request: Request) | Compact

  datatype Effect = Effect(state: State, write: Write, ok: bool)

  function Refuse(s: State): Effect
  {
    Effect(s, Keep, false)
  }

  // ------------------------------------------------------------------ wallets

  function InsertWollet(env: Env, wollets: map<string, Descriptor>, name: string,
                        d: Descriptor): Option<map<string, Descriptor>>
  {
    if name in wollets || env.firstAddress(d).None? then None
    else if exists n :: n in wollets && env.firstAddress(wollets[n]).None? then None
    else if exists n :: n in wollets && env.firstAddress(wollets[n]) == env.firstAddress(d) then None
    else Some(wollets[name := d])
  }

  function SetMemo<K>(memos: Memos<K>, name: string, key: K, memo: string): Memos<K>
  {
    if name in memos then memos[name := memos[name][key := memo]] else memos[name := map[key := memo]]
  }

  /** The memos of a wallet, as they are read: none, if the wallet never had any. */
  function ForWollet<K>(memos: Memos<K>, name: string): map<K, string>
  {
    if name in memos then memos[name] else map[]
  }

  // ------------------------------------------------------------------ signers

  function SignerFingerprint(env: Env, s: AppSigner): Fingerprint
  {
    match s.inner
    case JadeRef(id) => env.idFingerprint(id)
    case Jade(_, device) => device
    case Software(m) => env.softwareFingerprint(m)
    case External(f) => f
  }

  function InsertSigner(env: Env, signers: map<string, AppSigner>, name: string,
                        s: AppSigner): Option<map<string, AppSigner>>
  {
    if name in signers then None
    else if exists n :: n in signers && SignerFingerprint(env, signers[n]) == SignerFingerprint(env, s) then None
    else Some(signers[name := s])
  }

  /** `get_available`: connect a Jade that is away, or notice that a connected one is gone. */
  function GetAvailable(env: Env, w: World, s: State, name: string): Effect
  {
    if name !in s.signers then Refuse(s)
    else match s.signers[name].inner
      case JadeRef(id) =>
        if w.jadeFound
        then Effect(s.(signers := s.signers[name := AppSigner(Jade(id, env.idFingerprint(id)), true)]), Keep, true)
        else Refuse(s)
      case Jade(id, _) =>
        if w.jadeUnlocks then Effect(s, Keep, true)
        else Refuse(s.(signers := s.signers[name := AppSigner(JadeRef(id), true)]))
      case Software(_) => Effect(s, Keep, true)
      case External(_) => Refuse(s)
  }

  // ------------------------------------------------------------------ assets

  function InsertAsset(env: Env, assets: map<AssetId, AppAsset>, d: AssetData): map<AssetId, AppAsset>
  {
    assets[d.id := RegistryAsset(d)][env.token(d.id) := ReissuanceToken(d)]
  }

  /** The request that inserts an asset from its data alone. */
  function InsertRequest(env: Env, d: AssetData): Request
  {
    AssetInsert(env.assetIds.show(d.id), env.contracts.show(d.contract), env.transactions.show(d.tx))
  }

  // ------------------------------------------------------------------ the request handler

  function HandleWalletUnload(s: State, name: string): Effect
  {
    if name !in s.wollets then Refuse(s)
    else
      var s' := s.(wollets := s.wollets - {name}, txMemos := s.txMemos - {name}, addrMemos := s.addrMemos - {name});
      Effect(s', Compact, true)
  }

  /** The signer a request asks for; a Jade behind an emulator is connected at once, without a look at its identity. */
  function SignerOf(env: Env, w: World, r: Request): Option<AppSigner>
    requires r.LoadsSigner()
  {
    match r
    case SignerLoadSoftware(_, mnemonic, persist) =>
      (match env.mnemonics.parse(mnemonic)
       case None => None
       case Some(m) => Some(AppSigner(Software(m), persist)))
    case SignerLoadExternal(_, fingerprint) =>
      (match env.fingerprints.parse(fingerprint)
       case None => None
       case Some(f) => Some(AppSigner(External(f), false)))
    case SignerLoadJade(_, id, emulator) =>
      (match env.jadeIds.parse(id)
       case None => None
       case Some(jadeId) =>
         if emulator.None? then Some(AppSigner(JadeRef(jadeId), true))
         else if emulator.value in w.emulators then Some(AppSigner(Jade(jadeId, w.emulators[emulator.value]), true))
         else None)
  }

  function HandleSignerLoad(env: Env, w: World, s: State, r: Request): Effect
    requires r.LoadsSigner()
  {
    match SignerOf(env, w, r)
    case None => Refuse(s)
    case Some(signer) =>
      match InsertSigner(env, s.signers, r.name, signer)
      case None => Refuse(s)
      case Some(signers) =>
        Effect(s.(signers := signers), if r.SignerLoadSoftware? && !r.persist then Keep else Append(r), true)
  }

  function HandleSignerUnload(s: State, name: string): Effect
  {
    if name !in s.signers then Refuse(s) else Effect(s.(signers := s.signers - {name}), Compact, true)
  }

  function HandleTxMemo(env: Env, s: State, name: string, txid: string, memo: string): Effect
  {
    if name !in s.wollets || env.txids.parse(txid).None? then Refuse(s)
    else
      var memos := SetMemo(s.txMemos, name, env.txids.parse(txid).value, memo);
      Effect(s.(txMemos := memos), Append(WalletSetTxMemo(name, txid, memo)), true)
  }

  function HandleAddrMemo(env: Env, s: State, name: string, address: string, memo: string): Effect
  {
    if name !in s.wollets || env.addresses.parse(address).None? then Refuse(s)
    else
      var memos := SetMemo(s.addrMemos, name, env.addresses.parse(address).value, memo);
      Effect(s.(addrMemos := memos), Append(WalletSetAddrMemo(name, address, memo)), true)
  }

  /** Only the entry named goes; the one of a token, or of the asset it belongs to, stays. */
  function HandleAssetRemove(env: Env, s: State, assetId: string): Effect
  {
    var id := env.assetIds.parse(assetId);
    if id.None? || id.value !in s.assets then Refuse(s)
    else Effect(s.(assets := s.assets - {id.value}), Compact, true)
  }

  function HandleWalletLoad(env: Env, s: State, descriptor: string, name: string): Effect
  {
    match env.descriptors.parse(descriptor)
    case None => Refuse(s)
    case Some(d) =>
      if env.isMainnet(d) != env.mainnet then Refuse(s)
      else match InsertWollet(env, s.wollets, name, d)
        case None => Refuse(s)
        case Some(wollets) => Effect(s.(wollets := wollets), Append(WalletLoad(descriptor, name)), true)
  }

  function HandleAssetInsert(env: Env, s: State, assetId: string, contract: string, tx: string): Effect
  {
    match (env.assetIds.parse(assetId), env.contracts.parse(contract), env.transactions.parse(tx))
    case (Some(id), Some(c), Some(t)) =>
      if !env.issues(id, t, c) then Refuse(s)
      else
        var assets := InsertAsset(env, s.assets, AssetData(id, t, c));
        Effect(s.(assets := assets), Append(AssetInsert(assetId, contract, tx)), true)
    case _ => Refuse(s)
  }

  /** What is logged is an insertion, so that reading the log back needs no network. */
  function HandleAssetFromRegistry(env: Env, w: World, s: State, assetId: string): Effect
  {
    match (env.assetIds.parse(assetId), w.registry)
    case (Some(id), Some((c, t))) =>
      if id in s.assets || !env.issues(id, t, c) then Refuse(s)
      else
        var d := AssetData(id, t, c);
        Effect(s.(assets := InsertAsset(env, s.assets, d)), Append(InsertRequest(env, d)), true)
    case _ => Refuse(s)
  }

  function Handle(env: Env, w: World, s: State, r: Request): Effect
  {
    match r
    case WalletLoad(descriptor, name) => HandleWalletLoad(env, s, descriptor, name)
    case WalletUnload(name) => HandleWalletUnload(s, name)
    case SignerLoadSoftware(_, _, _) => HandleSignerLoad(env, w, s, r)
    case SignerLoadJade(_, _, _) => HandleSignerLoad(env, w, s, r)
    case SignerLoadExternal(_, _) => HandleSignerLoad(env, w, s, r)
    case SignerUnload(name) => HandleSignerUnload(s, name)
    case WalletSetTxMemo(name, txid, memo) => HandleTxMemo(env, s, name, txid, memo)
    case WalletSetAddrMemo(name, address, memo) => HandleAddrMemo(env, s, name, address, memo)
    case AssetInsert(assetId, contract, tx) => HandleAssetInsert(env, s, assetId, contract, tx)
    case AssetRemove(assetId) => HandleAssetRemove(env, s, assetId)
    case AssetFromRegistry(assetId) => HandleAssetFromRegistry(env, w, s, assetId)
    case UseSigner(name) => GetAvailable(env, w, s, name)
  }

  // ------------------------------------------------------------------ snapshots

  function Registry(assets: map<AssetId, AppAsset>): map<AssetId, AssetData>
  {
    map a | a in assets && assets[a].RegistryAsset? :: assets[a].data
  }

  /** All pairs of a wallet and a memo key. */
  function Pairs<K(==)>(memos: Memos<K>): set<(string, K)>
  {
    set n, k | n in memos && k in memos[n] :: (n, k)
  }

  /** The orders in which the hash maps happen to be iterated. */
  datatype Order = Order(
    wollets: seq<string>, txMemos: seq<(string, Txid)>, addrMemos: seq<(string, Address)>,
    signers: seq<string>, assets: seq<AssetId>)
  {
    predicate Of(s: State)
    {
      && Enumerates(wollets, s.wollets.Keys)
      && Enumerates(txMemos, Pairs(s.txMemos))
      && Enumerates(addrMemos, Pairs(s.addrMemos))
      && Enumerates(signers, s.signers.Keys)
      && Enumerates(assets, Registry(s.assets).Keys)
    }
  }

  function WolletRequest(env: Env, s: State, n: string): Request
    requires n in s.wollets
  {
    WalletLoad(env.descriptors.show(s.wollets[n]), n)
  }

  function TxMemoRequest(env: Env, s: State, p: (string, Txid)): Request
    requires p in Pairs(s.txMemos)
  {
    WalletSetTxMemo(p.0, env.txids.show(p.1), s.txMemos[p.0][p.1])
  }

  function AddrMemoRequest(env: Env, s: State, p: (string, Address)): Request
    requires p in Pairs(s.addrMemos)
  {
    WalletSetAddrMemo(p.0, env.addresses.show(p.1), s.addrMemos[p.0][p.1])
  }

  /** Signers are written whether or not they asked to be persisted; a Jade comes back unconnected. */
  function SignerRequest(env: Env, s: State, n: string): Request
    requires n in s.signers
  {
    var signer := s.signers[n];
    match signer.inner
    case JadeRef(id) => SignerLoadJade(n, env.jadeIds.show(id), None)
    case Jade(id, _) => SignerLoadJade(n, env.jadeIds.show(id), None)
    case Software(m) => SignerLoadSoftware(n, env.mnemonics.show(m), signer.persist)
    case External(f) => SignerLoadExternal(n, env.fingerprints.show(f))
  }

  function AssetRequest(env: Env, s: State, a: AssetId): Request
    requires a in Registry(s.assets)
  {
    InsertRequest(env, Registry(s.assets)[a])
  }

  function WolletLines(env: Env, s: State, order: seq<string>): seq<Request>
    requires forall n | n in order :: n in s.wollets
  {
    if order == [] then [] else
      WolletLines(env, s, order[..|order| - 1]) + [WolletRequest(env, s, order[|order| - 1])]
  }

  function TxMemoLines(env: Env, s: State, order: seq<(string, Txid)>): seq<Request>
    requires forall p | p in order :: p in Pairs(s.txMemos)
  {
    if order == [] then [] else
      TxMemoLines(env, s, order[..|order| - 1]) + [TxMemoRequest(env, s, order[|order| - 1])]
  }

  function AddrMemoLines(env: Env, s: State, order: seq<(string, Address)>): seq<Request>
    requires forall p | p in order :: p in Pairs(s.addrMemos)
  {
    if order == [] then [] else
      AddrMemoLines(env, s, order[..|order| - 1]) + [AddrMemoRequest(env, s, order[|order| - 1])]
  }

  function SignerLines(env: Env, s: State, order: seq<string>): seq<Request>
    requires forall n | n in order :: n in s.signers
  {
    if order == [] then [] else
      SignerLines(env, s, order[..|order| - 1]) + [SignerRequest(env, s, order[|order| - 1])]
  }

  function AssetLines(env: Env, s: State, order: seq<AssetId>): seq<Request>
    requires forall a | a in order :: a in Registry(s.assets)
  {
    if order == [] then [] else
      AssetLines(env, s, order[..|order| - 1]) + [AssetRequest(env, s, order[|order| - 1])]
  }

  /** The lines of a snapshot up to the signers. */
  function FrontLines(env: Env, s: State, o: Order): seq<Request>
    requires o.Of(s)
  {
    WolletLines(env, s, o.wollets) + TxMemoLines(env, s, o.txMemos) + AddrMemoLines(env, s, o.addrMemos)
  }

  /** `as_requests`, for given iteration orders. */
  function Snapshot(env: Env, s: State, o: Order): seq<Request>
    requires o.Of(s)
  {
    FrontLines(env, s, o) + SignerLines(env, s, o.signers) + AssetLines(env, s, o.assets)
  }

  /** Some snapshot of the state, in whatever order. */
  ghost predicate IsSnapshot(env: Env, s: State, file: seq<Request>)
  {
    exists o: Order :: o.Of(s) && file == Snapshot(env, s, o)
  }

  // ------------------------------------------------------------------ the running app

  /** The state in memory, whether it is persisted yet, and the log file. */
  datatype App = App(state: State, doPersist: bool, file: seq<Request>)

  /** How an effect changes the file; writing a snapshot does not ask whether to persist. */
  ghost predicate Writes(env: Env, doPersist: bool, file: seq<Request>, e: Effect, file': seq<Request>)
  {
    match e.write
    case Keep => file' == file
    case Append(r) => file' == if doPersist then file + [r] else file
    case Compact => IsSnapshot(env, e.state, file')
  }

  ghost predicate Serves(env: Env, app: App, e: Effect, app': App)
  {
    app'.state == e.state && app'.doPersist == app.doPersist && Writes(env, app.doPersist, app.file, e, app'.file)
  }

  ghost predicate RpcStep(env: Env, w: World, app: App, r: Request, app': App)
  {
    Serves(env, app, Handle(env, w, app.state, r), app')
  }

  /** Applying the lines of a log one by one; the first refused line fails the start. */
  function Replay(env: Env, w: World, s: State, log: seq<Request>): Option<State>
  {
    if log == [] then Some(s)
    else match Replay(env, w, s, log[..|log| - 1])
      case None => None
      case Some(s') =>
        var e := Handle(env, w, s', log[|log| - 1]);
        if e.ok then Some(e.state) else None
  }

  /** What a start makes of a log. */
  function Boot(env: Env, w: World, log: seq<Request>): Option<State>
  {
    Replay(env, w, Initial(env), log)
  }
}
