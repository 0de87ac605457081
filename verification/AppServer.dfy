/** The app server as it runs: a state updated in place, an append-only log, and the start from it. */
module AppServer {
  import opened Prelude
  import opened AppModel
  import opened AppReplay

  /** All pairs of a wallet and a memo key, wallet by wallet. */
  method IteratePairs<K(==)>(memos: Memos<K>) returns (pairs: seq<(string, K)>)
    ensures Enumerates(pairs, Pairs(memos))
  {
    pairs := [];
    var names := Iterate(memos.Keys);
    for i := 0 to |names|
      invariant Distinct(pairs)
      invariant forall p | p in pairs :: p in Pairs(memos) && p.0 in names[..i]
      invariant forall p | p in Pairs(memos) && p.0 in names[..i] :: p in pairs
    {
      var name := names[i];
      var keys := Iterate(memos[name].Keys);
      ghost var before := pairs;
      for j := 0 to |keys|
        invariant Distinct(pairs)
        invariant forall p | p in pairs :: p in before || (p.0 == name && p.1 in keys[..j])
        invariant forall p | p in before :: p in pairs
        invariant forall k | k in keys[..j] :: (name, k) in pairs
      {
        assert (name, keys[j]) !in before && keys[j] !in keys[..j];
        pairs := pairs + [(name, keys[j])];
        assert keys[..j + 1] == keys[..j] + [keys[j]];
      }
      assert names[..i + 1] == names[..i] + [name];
      assert keys[..|keys|] == keys;
    }
    assert names[..|names|] == names;
  }

  class Server {
    const env: Env
    var wollets: map<string, Descriptor>
    var signers: map<string, AppSigner>
    var assets: map<AssetId, AppAsset>
    var txMemos: Memos<Txid>
    var addrMemos: Memos<Address>
    var doPersist: bool
    var file: seq<Request>

    function View(): State
      reads this
    {
      State(wollets, signers, assets, txMemos, addrMemos)
    }

    function ToApp(): App
      reads this
    {
      App(View(), doPersist, file)
    }

    constructor (env: Env, file: seq<Request>)
      ensures this.env == env && ToApp() == App(Initial(env), false, file)
    {
      this.env := env;
      this.file := file;
      wollets, signers, txMemos, addrMemos := map[], map[], map[], map[];
      assets := map[env.policyAsset := PolicyAsset];
      doPersist := false;
    }

    // ---------------------------------------------------------------- collections

    method AddWollet(name: string, d: Descriptor) returns (ok: bool)
      modifies this`wollets
      ensures match InsertWollet(env, old(wollets), name, d)
              case None => !ok && wollets == old(wollets)
              case Some(w) => ok && wollets == w
    {
      if name in wollets {
        return false;
      }
      var other := env.firstAddress(d);
      if other.None? {
        return false;
      }
      var names := Iterate(wollets.Keys);
      var ours := [];
      for i := 0 to |names|
        invariant |ours| == i
        invariant forall j | 0 <= j < i :: env.firstAddress(wollets[names[j]]) == Some(ours[j])
      {
        var a := env.firstAddress(wollets[names[i]]);
        if a.None? {
          assert exists n :: n in wollets && env.firstAddress(wollets[n]).None?;
          return false;
        }
        ours := ours + [a.value];
      }
      for i := 0 to |names|
        invariant forall j | 0 <= j < i :: ours[j] != other.value
      {
        if ours[i] == other.value {
          assert exists n :: n in wollets && env.firstAddress(wollets[n]) == env.firstAddress(d);
          return false;
        }
      }
      assert forall n | n in wollets :: n in names;
      wollets := wollets[name := d];
      ok := true;
    }

    /** The names under which a fingerprint is loaded. */
    method NamesMatchingFingerprint(f: Fingerprint) returns (matching: seq<string>)
      ensures Enumerates(matching, set n | n in signers && SignerFingerprint(env, signers[n]) == f)
    {
      var names := Iterate(signers.Keys);
      matching := [];
      for i := 0 to |names|
        invariant Distinct(matching)
        invariant forall n | n in matching :: n in names[..i] && SignerFingerprint(env, signers[n]) == f
        invariant forall j | 0 <= j < i && SignerFingerprint(env, signers[names[j]]) == f :: names[j] in matching
      {
        assert names[..i + 1] == names[..i] + [names[i]];
        if SignerFingerprint(env, signers[names[i]]) == f {
          matching := matching + [names[i]];
        }
      }
    }

    /** Two signers show this fingerprint. */
    ghost predicate Clash(f: Fingerprint)
      reads this
    {
      exists m, n :: m != n && m in signers && n in signers
        && SignerFingerprint(env, signers[m]) == f && SignerFingerprint(env, signers[n]) == f
    }

    /** The signer with a fingerprint, if there is exactly one; a warning exactly if there are several. */
    method NameFromFingerprint(f: Fingerprint) returns (name: Option<string>, warning: bool)
      ensures name.Some? ==> name.value in signers && SignerFingerprint(env, signers[name.value]) == f
      ensures name.None? && !warning <==> forall n | n in signers :: SignerFingerprint(env, signers[n]) != f
      ensures warning <==> Clash(f)
    {
      var names := NamesMatchingFingerprint(f);
      ghost var all := set n | n in signers && SignerFingerprint(env, signers[n]) == f;
      if |names| == 0 {
        name, warning := None, false;
        forall n | n in signers ensures SignerFingerprint(env, signers[n]) != f {
          assert n in all ==> n in names;
        }
      } else if |names| == 1 {
        name, warning := Some(names[0]), false;
        assert names[0] in all;
        forall n | n in signers && SignerFingerprint(env, signers[n]) == f ensures n == names[0] {
          assert n in all && n in names;
        }
      } else {
        name, warning := None, true;
        assert names[0] in names && names[1] in names && names[0] != names[1];
        assert names[0] in all && names[1] in all;
      }
    }

    method AddSigner(name: string, s: AppSigner) returns (ok: bool)
      modifies this`signers
      ensures match InsertSigner(env, old(signers), name, s)
              case None => !ok && signers == old(signers)
              case Some(m) => ok && signers == m
    {
      if name in signers {
        return false;
      }
      var names := NamesMatchingFingerprint(SignerFingerprint(env, s));
      ghost var all := set n | n in signers && SignerFingerprint(env, signers[n]) == SignerFingerprint(env, s);
      if |names| > 0 {
        assert names[0] in all;
        return false;
      }
      forall n | n in signers ensures SignerFingerprint(env, signers[n]) != SignerFingerprint(env, s) {
        assert n in all ==> n in names;
      }
      signers := signers[name := s];
      ok := true;
    }

    /** Connect a Jade that is away, or notice that a connected one is gone; then say if the signer can be used. */
    method Available(w: World, name: string) returns (ok: bool)
      modifies this`signers
      ensures View() == GetAvailable(env, w, old(View()), name).state
      ensures ok == GetAvailable(env, w, old(View()), name).ok
    {
      if name !in signers {
        return false;
      }
      var replacement: Option<Inner> := None;
      match signers[name].inner {
        case JadeRef(id) =>
          if w.jadeFound {
            replacement := Some(Jade(id, env.idFingerprint(id)));
          }
        case Jade(id, _) =>
          if !w.jadeUnlocks {
            replacement := Some(JadeRef(id));
          }
        case _ =>
      }
      if replacement.Some? {
        signers := signers[name := AppSigner(replacement.value, true)];
      }
      ok := signers[name].inner.Jade? || signers[name].inner.Software?;
    }

    method SetTxMemo(name: string, txid: Txid, memo: string)
      modifies this`txMemos
      ensures txMemos == SetMemo(old(txMemos), name, txid, memo)
    {
      if name in txMemos {
        txMemos := txMemos[name := txMemos[name][txid := memo]];
      } else {
        txMemos := txMemos[name := map[txid := memo]];
      }
    }

    method SetAddrMemo(name: string, address: Address, memo: string)
      modifies this`addrMemos
      ensures addrMemos == SetMemo(old(addrMemos), name, address, memo)
    {
      if name in addrMemos {
        addrMemos := addrMemos[name := addrMemos[name][address := memo]];
      } else {
        addrMemos := addrMemos[name := map[address := memo]];
      }
    }

    method AddAsset(d: AssetData) returns (ok: bool)
      modifies this`assets
      ensures ok == env.issues(d.id, d.tx, d.contract)
      ensures assets == if ok then InsertAsset(env, old(assets), d) else old(assets)
    {
      ok := env.issues(d.id, d.tx, d.contract);
      if ok {
        assets := assets[d.id := RegistryAsset(d)];
        assets := assets[env.token(d.id) := ReissuanceToken(d)];
      }
    }

    // ---------------------------------------------------------------- the log

    method WolletsAsRequests() returns (lines: seq<Request>, order: seq<string>)
      ensures Enumerates(order, wollets.Keys) && lines == WolletLines(env, View(), order)
    {
      var names := Iterate(wollets.Keys);
      lines := [];
      for i := 0 to |names|
        invariant lines == WolletLines(env, View(), names[..i])
      {
        assert names[..i + 1][..i] == names[..i];
        lines := lines + [WalletLoad(env.descriptors.show(wollets[names[i]]), names[i])];
      }
      assert names[..|names|] == names;
      order := names;
    }

    method TxMemosAsRequests() returns (lines: seq<Request>, order: seq<(string, Txid)>)
      ensures Enumerates(order, Pairs(txMemos)) && lines == TxMemoLines(env, View(), order)
    {
      var pairs := IteratePairs(txMemos);
      lines := [];
      for i := 0 to |pairs|
        invariant lines == TxMemoLines(env, View(), pairs[..i])
      {
        assert pairs[..i + 1][..i] == pairs[..i];
        var p := pairs[i];
        assert p in Pairs(txMemos);
        lines := lines + [WalletSetTxMemo(p.0, env.txids.show(p.1), txMemos[p.0][p.1])];
      }
      assert pairs[..|pairs|] == pairs;
      order := pairs;
    }

    method AddrMemosAsRequests() returns (lines: seq<Request>, order: seq<(string, Address)>)
      ensures Enumerates(order, Pairs(addrMemos)) && lines == AddrMemoLines(env, View(), order)
    {
      var pairs := IteratePairs(addrMemos);
      lines := [];
      for i := 0 to |pairs|
        invariant lines == AddrMemoLines(env, View(), pairs[..i])
      {
        assert pairs[..i + 1][..i] == pairs[..i];
        var p := pairs[i];
        assert p in Pairs(addrMemos);
        lines := lines + [WalletSetAddrMemo(p.0, env.addresses.show(p.1), addrMemos[p.0][p.1])];
      }
      assert pairs[..|pairs|] == pairs;
      order := pairs;
    }

    method SignersAsRequests() returns (lines: seq<Request>, order: seq<string>)
      ensures Enumerates(order, signers.Keys) && lines == SignerLines(env, View(), order)
    {
      var names := Iterate(signers.Keys);
      lines := [];
      for i := 0 to |names|
        invariant lines == SignerLines(env, View(), names[..i])
      {
        assert names[..i + 1][..i] == names[..i];
        var n := names[i];
        var r;
        match signers[n].inner {
          case JadeRef(id) => r := SignerLoadJade(n, env.jadeIds.show(id), None);
          case Jade(id, _) => r := SignerLoadJade(n, env.jadeIds.show(id), None);
          case Software(m) => r := SignerLoadSoftware(n, env.mnemonics.show(m), signers[n].persist);
          case External(f) => r := SignerLoadExternal(n, env.fingerprints.show(f));
        }
        lines := lines + [r];
      }
      assert names[..|names|] == names;
      order := names;
    }

    /** Only assets with a contract are written; the policy asset and the tokens follow from them. */
    method AssetsAsRequests() returns (lines: seq<Request>, order: seq<AssetId>)
      ensures Enumerates(order, Registry(assets).Keys) && lines == AssetLines(env, View(), order)
    {
      var ids := Iterate(assets.Keys);
      lines, order := [], [];
      ghost var registry := Registry(assets);
      for i := 0 to |ids|
        invariant Distinct(order)
        invariant forall a | a in order :: a in registry && a in ids[..i]
        invariant forall j | 0 <= j < i && ids[j] in registry :: ids[j] in order
        invariant lines == AssetLines(env, View(), order)
      {
        assert ids[..i + 1] == ids[..i] + [ids[i]];
        if assets[ids[i]].RegistryAsset? {
          assert ids[i] in registry && ids[i] !in order;
          lines := lines + [InsertRequest(env, assets[ids[i]].data)];
          var order' := order + [ids[i]];
          assert order'[..|order'| - 1] == order;
          order := order';
        }
      }
      assert forall a | a in registry :: a in ids;
    }

    /** The requests that rebuild the state, in the order the maps are iterated. */
    method AsRequests() returns (requests: seq<Request>)
      ensures IsSnapshot(env, View(), requests)
    {
      var a, wolletOrder := WolletsAsRequests();
      var b, txOrder := TxMemosAsRequests();
      var c, addrOrder := AddrMemosAsRequests();
      var d, signerOrder := SignersAsRequests();
      var e, assetOrder := AssetsAsRequests();
      requests := a + b + c + d + e;
      ghost var o := Order(wolletOrder, txOrder, addrOrder, signerOrder, assetOrder);
      assert o.Of(View()) && requests == Snapshot(env, View(), o);
    }

    method Persist(r: Request)
      modifies this`file
      ensures file == if doPersist then old(file) + [r] else old(file)
    {
      if doPersist {
        file := file + [r];
      }
    }

    method PersistAll()
      modifies this`file
      ensures IsSnapshot(env, View(), file)
    {
      file := AsRequests();
    }

    // ---------------------------------------------------------------- requests

    method LoadWallet(descriptor: string, name: string) returns (ok: bool)
      modifies this`wollets, this`file
      ensures Serves(env, old(ToApp()), HandleWalletLoad(env, old(View()), descriptor, name), ToApp())
      ensures ok == HandleWalletLoad(env, old(View()), descriptor, name).ok
    {
      var d := env.descriptors.parse(descriptor);
      if d.None? || env.isMainnet(d.value) != env.mainnet {
        return false;
      }
      ok := AddWollet(name, d.value);
      if ok {
        Persist(WalletLoad(descriptor, name));
      }
    }

    method UnloadWallet(name: string) returns (ok: bool)
      modifies this`wollets, this`txMemos, this`addrMemos, this`file
      ensures Serves(env, old(ToApp()), HandleWalletUnload(old(View()), name), ToApp())
      ensures ok == HandleWalletUnload(old(View()), name).ok
    {
      if name !in wollets {
        return false;
      }
      wollets := wollets - {name};
      txMemos := txMemos - {name};
      addrMemos := addrMemos - {name};
      PersistAll();
      ok := true;
    }

    method LoadSigner(w: World, r: Request) returns (ok: bool)
      requires r.LoadsSigner()
      modifies this`signers, this`file
      ensures Serves(env, old(ToApp()), HandleSignerLoad(env, w, old(View()), r), ToApp())
      ensures ok == HandleSignerLoad(env, w, old(View()), r).ok
    {
      var signer := SignerOf(env, w, r);
      if signer.None? {
        return false;
      }
      ok := AddSigner(r.name, signer.value);
      if ok && !(r.SignerLoadSoftware? && !r.persist) {
        Persist(r);
      }
    }

    method UnloadSigner(name: string) returns (ok: bool)
      modifies this`signers, this`file
      ensures Serves(env, old(ToApp()), HandleSignerUnload(old(View()), name), ToApp())
      ensures ok == HandleSignerUnload(old(View()), name).ok
    {
      if name !in signers {
        return false;
      }
      signers := signers - {name};
      PersistAll();
      ok := true;
    }

    method TxMemo(name: string, txid: string, memo: string) returns (ok: bool)
      modifies this`txMemos, this`file
      ensures Serves(env, old(ToApp()), HandleTxMemo(env, old(View()), name, txid, memo), ToApp())
      ensures ok == HandleTxMemo(env, old(View()), name, txid, memo).ok
    {
      var key := env.txids.parse(txid);
      if name !in wollets || key.None? {
        return false;
      }
      SetTxMemo(name, key.value, memo);
      Persist(WalletSetTxMemo(name, txid, memo));
      ok := true;
    }

    method AddrMemo(name: string, address: string, memo: string) returns (ok: bool)
      modifies this`addrMemos, this`file
      ensures Serves(env, old(ToApp()), HandleAddrMemo(env, old(View()), name, address, memo), ToApp())
      ensures ok == HandleAddrMemo(env, old(View()), name, address, memo).ok
    {
      var key := env.addresses.parse(address);
      if name !in wollets || key.None? {
        return false;
      }
      SetAddrMemo(name, key.value, memo);
      Persist(WalletSetAddrMemo(name, address, memo));
      ok := true;
    }

    method InsertAssetFrom(assetId: string, contract: string, tx: string) returns (ok: bool)
      modifies this`assets, this`file
      ensures Serves(env, old(ToApp()), HandleAssetInsert(env, old(View()), assetId, contract, tx), ToApp())
      ensures ok == HandleAssetInsert(env, old(View()), assetId, contract, tx).ok
    {
      var id, c, t := env.assetIds.parse(assetId), env.contracts.parse(contract), env.transactions.parse(tx);
      if id.None? || c.None? || t.None? {
        return false;
      }
      ok := AddAsset(AssetData(id.value, t.value, c.value));
      if ok {
        Persist(AssetInsert(assetId, contract, tx));
      }
    }

    method FetchAsset(w: World, assetId: string) returns (ok: bool)
      modifies this`assets, this`file
      ensures Serves(env, old(ToApp()), HandleAssetFromRegistry(env, w, old(View()), assetId), ToApp())
      ensures ok == HandleAssetFromRegistry(env, w, old(View()), assetId).ok
    {
      var id := env.assetIds.parse(assetId);
      if id.None? || id.value in assets || w.registry.None? {
        return false;
      }
      var (c, t) := w.registry.value;
      ok := AddAsset(AssetData(id.value, t, c));
      if ok {
        Persist(InsertRequest(env, AssetData(id.value, t, c)));
      }
    }

    method DropAsset(assetId: string) returns (ok: bool)
      modifies this`assets, this`file
      ensures Serves(env, old(ToApp()), HandleAssetRemove(env, old(View()), assetId), ToApp())
      ensures ok == HandleAssetRemove(env, old(View()), assetId).ok
    {
      var id := env.assetIds.parse(assetId);
      if id.None? || id.value !in assets {
        return false;
      }
      assets := assets - {id.value};
      PersistAll();
      ok := true;
    }

    /** One request, served: the state and the log move as one step of the app. */
    method Serve(w: World, r: Request) returns (ok: bool)
      modifies this
      ensures RpcStep(env, w, old(ToApp()), r, ToApp()) && ok == Handle(env, w, old(View()), r).ok
    {
      hide HandleWalletLoad, HandleWalletUnload, HandleTxMemo, HandleAddrMemo, HandleAssetInsert, HandleAssetRemove,
        HandleAssetFromRegistry, HandleSignerLoad, HandleSignerUnload;
      match r {
        case WalletLoad(descriptor, name) => ok := LoadWallet(descriptor, name);
        case WalletUnload(name) => ok := UnloadWallet(name);
        case SignerUnload(name) => ok := UnloadSigner(name);
        case WalletSetTxMemo(name, txid, memo) => ok := TxMemo(name, txid, memo);
        case WalletSetAddrMemo(name, address, memo) => ok := AddrMemo(name, address, memo);
        case AssetInsert(id, contract, tx) => ok := InsertAssetFrom(id, contract, tx);
        case AssetRemove(id) => ok := DropAsset(id);
        case AssetFromRegistry(id) => ok := FetchAsset(w, id);
        case UseSigner(name) => ok := Available(w, name);
        case _ => ok := LoadSigner(w, r);
      }
    }
  }

  /** Reading back a log that only adds writes nothing while persistence is off. */
  lemma ReplayWritesNothing(env: Env, w: World, app: App, r: Request, app': App)
    requires Constructive(r) && !app.doPersist && RpcStep(env, w, app, r, app')
    ensures app'.file == app.file
  {
    hide InsertWollet, SetMemo, InsertAsset, InsertSigner;
  }

  /**
   Start from a log: its lines are served one by one with persistence off, and the first one that
   is refused fails the start.
   */
  method Start(env: Env, w: World, log: seq<Request>) returns (ok: bool, server: Server)
    ensures fresh(server) && server.env == env
    ensures ok == Boot(env, w, log).Some?
    ensures ok ==> server.View() == Boot(env, w, log).value && server.doPersist
    ensures ConstructiveLog(log) ==> server.file == log
  {
    hide Handle, Boot, Writes;
    server := new Server(env, log);
    BootOfNothing(env, w);
    for i := 0 to |log|
      invariant fresh(server) && server.env == env && !server.doPersist
      invariant Boot(env, w, log[..i]) == Some(server.View())
      invariant ConstructiveLog(log) ==> server.file == log
    {
      ghost var before := server.ToApp();
      ok := server.Serve(w, log[i]);
      if ConstructiveLog(log) {
        ReplayWritesNothing(env, w, before, log[i], server.ToApp());
      }
      BootOneMore(env, w, log, i);
      if !ok {
        StartFails(env, w, log, i + 1);
        return;
      }
    }
    assert log[..|log|] == log;
    server.doPersist := true;
    ok := true;
  }

  lemma BootOfNothing(env: Env, w: World)
    ensures Boot(env, w, []) == Some(Initial(env))
  {}

  lemma BootOneMore(env: Env, w: World, log: seq<Request>, i: nat)
    requires i < |log|
    ensures Boot(env, w, log[..i + 1])
      == match Boot(env, w, log[..i])
         case None => None
         case Some(s) => if Handle(env, w, s, log[i]).ok then Some(Handle(env, w, s, log[i]).state) else None
  {
    assert log[..i + 1][..i] == log[..i];
    hide Handle;
  }

  lemma {:induction false} StartFails(env: Env, w: World, log: seq<Request>, i: nat)
    requires i <= |log| && Boot(env, w, log[..i]).None?
    ensures Boot(env, w, log).None?
    decreases |log| - i
  {
    if i < |log| {
      assert log[..i + 1][..i] == log[..i];
      StartFails(env, w, log, i + 1);
    } else {
      assert log[..i] == log;
    }
  }

}
