/** What holds in every reachable state of the app server (lwk_app/src/state.rs, lib.rs). */
module AppInvariants {
  import opened Prelude
  import opened AppModel

  // ------------------------------------------------------------------ the shape of a state

  /** Wallets are on the configured network and no two share their first address. */
  predicate WolletsOk(env: Env, wollets: map<string, Descriptor>)
  {
    && (forall n :: n in wollets ==> env.firstAddress(wollets[n]).Some? && env.isMainnet(wollets[n]) == env.mainnet)
    && (forall m, n :: m in wollets && n in wollets && m != n ==>
          env.firstAddress(wollets[m]) != env.firstAddress(wollets[n]))
  }

  /** Jades are always marked as persisted, external signers never. */
  predicate MarkOk(s: AppSigner)
  {
    && (s.inner.Jade? || s.inner.JadeRef? ==> s.persist)
    && (s.inner.External? ==> !s.persist)
  }

  predicate MarksOk(signers: map<string, AppSigner>)
  {
    forall n :: n in signers ==> MarkOk(signers[n])
  }

  /** Memos belong to loaded wallets, and a wallet without memos has no entry. */
  predicate MemosOk<K>(memos: Memos<K>, wollets: map<string, Descriptor>)
  {
    forall n :: n in memos ==> n in wollets && |memos[n]| > 0
  }

  predicate AssetsOk(env: Env, assets: map<AssetId, AppAsset>)
  {
    forall a :: a in assets && assets[a].RegistryAsset? ==>
      assets[a].data.id == a && env.issues(a, assets[a].data.tx, assets[a].data.contract)
  }

  /** What no answer of the outside world can break. */
  predicate StateOk(env: Env, s: State)
  {
    && WolletsOk(env, s.wollets) && MarksOk(s.signers)
    && MemosOk(s.txMemos, s.wollets) && MemosOk(s.addrMemos, s.wollets)
    && AssetsOk(env, s.assets)
  }

  // ------------------------------------------------------------------ the signers

  /** No two signers have the same fingerprint. */
  predicate DistinctSigners(env: Env, signers: map<string, AppSigner>)
  {
    forall m, n :: m in signers && n in signers && m != n ==>
      SignerFingerprint(env, signers[m]) != SignerFingerprint(env, signers[n])
  }

  /** A connected Jade is the one it was loaded as. */
  predicate Genuine(env: Env, s: AppSigner)
  {
    s.inner.Jade? ==> s.inner.device == env.idFingerprint(s.inner.id)
  }

  predicate SignersOk(env: Env, signers: map<string, AppSigner>)
  {
    DistinctSigners(env, signers) && forall n :: n in signers ==> Genuine(env, signers[n])
  }

  /** An emulator, if it answers, reports the fingerprint that goes with the id it is loaded under. */
  predicate Honest(env: Env, w: World, r: Request)
  {
    r.SignerLoadJade? && r.emulator.Some? && r.emulator.value in w.emulators && env.jadeIds.parse(r.jadeId).Some? ==>
      w.emulators[r.emulator.value] == env.idFingerprint(env.jadeIds.parse(r.jadeId).value)
  }

  // ------------------------------------------------------------------ requests keep the shape

  lemma SetMemoOk<K>(memos: Memos<K>, wollets: map<string, Descriptor>, name: string, key: K, memo: string)
    requires MemosOk(memos, wollets) && name in wollets
    ensures MemosOk(SetMemo(memos, name, key, memo), wollets)
  {
    var inner := if name in memos then memos[name] else map[];
    assert key in inner[key := memo];
    assert |inner[key := memo]| > 0;
  }

  lemma MemosFollow<K>(memos: Memos<K>, wollets: map<string, Descriptor>, wollets': map<string, Descriptor>,
                       name: string)
    requires MemosOk(memos, wollets)
    ensures MemosOk(memos - {name}, wollets - {name})
    ensures (forall n :: n in wollets ==> n in wollets') ==> MemosOk(memos, wollets')
  {}

  lemma InsertWolletOk(env: Env, wollets: map<string, Descriptor>, name: string, d: Descriptor)
    requires WolletsOk(env, wollets) && env.isMainnet(d) == env.mainnet
    ensures var r := InsertWollet(env, wollets, name, d);
      r.Some? ==> WolletsOk(env, r.value) && forall n :: n in wollets ==> n in r.value
  {}

  lemma InsertAssetOk(env: Env, assets: map<AssetId, AppAsset>, d: AssetData)
    requires env.Lawful() && AssetsOk(env, assets) && env.issues(d.id, d.tx, d.contract)
    ensures AssetsOk(env, InsertAsset(env, assets, d))
  {}

  lemma WalletLoadKeepsOk(env: Env, s: State, descriptor: string, name: string)
    requires StateOk(env, s)
    ensures StateOk(env, HandleWalletLoad(env, s, descriptor, name).state)
  {
    var d := env.descriptors.parse(descriptor);
    if d.Some? && env.isMainnet(d.value) == env.mainnet {
      InsertWolletOk(env, s.wollets, name, d.value);
      var wollets := InsertWollet(env, s.wollets, name, d.value);
      if wollets.Some? {
        MemosFollow(s.txMemos, s.wollets, wollets.value, name);
        MemosFollow(s.addrMemos, s.wollets, wollets.value, name);
      }
    }
    hide InsertWollet, WolletsOk, MarksOk, MemosOk, AssetsOk;
  }

  lemma WalletUnloadKeepsOk(env: Env, s: State, name: string)
    requires StateOk(env, s)
    ensures StateOk(env, HandleWalletUnload(s, name).state)
  {
    assert WolletsOk(env, s.wollets - {name});
    MemosFollow(s.txMemos, s.wollets, s.wollets, name);
    MemosFollow(s.addrMemos, s.wollets, s.wollets, name);
    hide WolletsOk, MarksOk, MemosOk, AssetsOk;
  }

  lemma TxMemoKeepsOk(env: Env, s: State, name: string, key: string, memo: string)
    requires StateOk(env, s)
    ensures StateOk(env, HandleTxMemo(env, s, name, key, memo).state)
  {
    hide SetMemo, WolletsOk, MarksOk, MemosOk, AssetsOk;
    if name in s.wollets && env.txids.parse(key).Some? {
      SetMemoOk(s.txMemos, s.wollets, name, env.txids.parse(key).value, memo);
    }
  }

  lemma AddrMemoKeepsOk(env: Env, s: State, name: string, key: string, memo: string)
    requires StateOk(env, s)
    ensures StateOk(env, HandleAddrMemo(env, s, name, key, memo).state)
  {
    hide SetMemo, WolletsOk, MarksOk, MemosOk, AssetsOk;
    if name in s.wollets && env.addresses.parse(key).Some? {
      SetMemoOk(s.addrMemos, s.wollets, name, env.addresses.parse(key).value, memo);
    }
  }

  lemma AssetInsertKeepsOk(env: Env, w: World, s: State, id: string, contract: string, tx: string)
    requires env.Lawful() && StateOk(env, s)
    ensures StateOk(env, HandleAssetInsert(env, s, id, contract, tx).state)
    ensures StateOk(env, HandleAssetFromRegistry(env, w, s, id).state)
  {
    var a, c, t := env.assetIds.parse(id), env.contracts.parse(contract), env.transactions.parse(tx);
    if a.Some? && c.Some? && t.Some? && env.issues(a.value, t.value, c.value) {
      InsertAssetOk(env, s.assets, AssetData(a.value, t.value, c.value));
    }
    if a.Some? && w.registry.Some? && env.issues(a.value, w.registry.value.1, w.registry.value.0) {
      InsertAssetOk(env, s.assets, AssetData(a.value, w.registry.value.1, w.registry.value.0));
    }
    hide InsertAsset, WolletsOk, MarksOk, MemosOk, AssetsOk;
  }

  lemma AssetRemoveKeepsOk(env: Env, s: State, id: string)
    requires StateOk(env, s)
    ensures StateOk(env, HandleAssetRemove(env, s, id).state)
  {
    var a := env.assetIds.parse(id);
    assert a.Some? ==> AssetsOk(env, s.assets - {a.value});
    hide WolletsOk, MarksOk, MemosOk, AssetsOk;
  }

  lemma SignerRequestsKeepOk(env: Env, w: World, s: State, r: Request, name: string)
    requires StateOk(env, s)
    ensures r.LoadsSigner() ==> StateOk(env, HandleSignerLoad(env, w, s, r).state)
    ensures StateOk(env, HandleSignerUnload(s, name).state)
    ensures StateOk(env, GetAvailable(env, w, s, name).state)
  {
    hide WolletsOk, MemosOk, AssetsOk;
  }

  /** Every request, answered in any way, keeps the state in shape. */
  lemma HandleKeepsOk(env: Env, w: World, s: State, r: Request)
    requires env.Lawful() && StateOk(env, s)
    ensures StateOk(env, Handle(env, w, s, r).state)
  {
    hide StateOk, HandleWalletLoad, HandleWalletUnload, HandleTxMemo, HandleAddrMemo,
      HandleAssetInsert, HandleAssetRemove, HandleAssetFromRegistry, HandleSignerLoad, HandleSignerUnload, GetAvailable;
    match r
    case WalletLoad(descriptor, name) => WalletLoadKeepsOk(env, s, descriptor, name);
    case WalletUnload(name) => WalletUnloadKeepsOk(env, s, name);
    case WalletSetTxMemo(name, txid, memo) => TxMemoKeepsOk(env, s, name, txid, memo);
    case WalletSetAddrMemo(name, address, memo) => AddrMemoKeepsOk(env, s, name, address, memo);
    case AssetInsert(id, contract, tx) => AssetInsertKeepsOk(env, w, s, id, contract, tx);
    case AssetRemove(id) => AssetRemoveKeepsOk(env, s, id);
    case AssetFromRegistry(id) => AssetInsertKeepsOk(env, w, s, id, "", "");
    case _ => SignerRequestsKeepOk(env, w, s, r, r.name);
  }

  // ------------------------------------------------------------------ requests keep the signers apart

  lemma InsertSignerOk(env: Env, signers: map<string, AppSigner>, name: string, s: AppSigner)
    requires SignersOk(env, signers) && Genuine(env, s)
    ensures var r := InsertSigner(env, signers, name, s); r.Some? ==> SignersOk(env, r.value)
  {}

  lemma DropSignerOk(env: Env, signers: map<string, AppSigner>, name: string)
    requires SignersOk(env, signers)
    ensures SignersOk(env, signers - {name})
  {}

  /** Replacing a signer by another of the same fingerprint is harmless. */
  lemma ReplaceSignerOk(env: Env, signers: map<string, AppSigner>, name: string, s: AppSigner)
    requires SignersOk(env, signers) && Genuine(env, s)
    requires name in signers && SignerFingerprint(env, s) == SignerFingerprint(env, signers[name])
    ensures SignersOk(env, signers[name := s])
  {}

  lemma SignerLoadKeepsSigners(env: Env, w: World, s: State, r: Request)
    requires SignersOk(env, s.signers) && r.LoadsSigner() && Honest(env, w, r)
    ensures SignersOk(env, HandleSignerLoad(env, w, s, r).state.signers)
  {
    var signer := SignerOf(env, w, r);
    if signer.Some? {
      assert Genuine(env, signer.value);
      InsertSignerOk(env, s.signers, r.name, signer.value);
    }
    hide SignersOk, InsertSigner, SignerOf;
  }

  lemma GetAvailableKeepsSigners(env: Env, w: World, s: State, name: string)
    requires SignersOk(env, s.signers)
    ensures SignersOk(env, GetAvailable(env, w, s, name).state.signers)
  {
    var signers := GetAvailable(env, w, s, name).state.signers;
    if signers != s.signers {
      ReplaceSignerOk(env, s.signers, name, signers[name]);
    }
    hide SignersOk;
  }

  /** Requests keep fingerprints apart, as long as emulators are what they claim to be. */
  lemma HandleKeepsSigners(env: Env, w: World, s: State, r: Request)
    requires SignersOk(env, s.signers) && Honest(env, w, r)
    ensures SignersOk(env, Handle(env, w, s, r).state.signers)
  {
    if r.LoadsSigner() {
      SignerLoadKeepsSigners(env, w, s, r);
    } else if r.SignerUnload? {
      DropSignerOk(env, s.signers, r.name);
    } else if r.UseSigner? {
      GetAvailableKeepsSigners(env, w, s, r.name);
    }
    hide SignersOk, HandleSignerLoad, GetAvailable, InsertWollet, SetMemo, InsertAsset;
  }

  // ------------------------------------------------------------------ what requests are for

  /** A memo that is set is read back, and no other memo of any wallet changes. */
  lemma MemoReadsBack<K>(memos: Memos<K>, name: string, key: K, memo: string, other: string)
    ensures ForWollet(SetMemo(memos, name, key, memo), other)
      == if other == name then ForWollet(memos, name)[key := memo] else ForWollet(memos, other)
  {}

  /**
   A wallet is accepted exactly if it is one, is on our network, every wallet has a first address, and neither its
   name nor its first address is taken.
   */
  lemma WalletLoadIff(env: Env, s: State, descriptor: string, name: string)
    ensures var d, e := env.descriptors.parse(descriptor), HandleWalletLoad(env, s, descriptor, name);
      && (e.ok <==>
            && d.Some? && env.isMainnet(d.value) == env.mainnet && env.firstAddress(d.value).Some? && name !in s.wollets
            && forall n | n in s.wollets ::
                 env.firstAddress(s.wollets[n]).Some? && env.firstAddress(s.wollets[n]) != env.firstAddress(d.value))
      && (e.ok ==> name in e.state.wollets && e.state.wollets[name] == d.value && e.state.wollets - {name} == s.wollets)
      && (!e.ok ==> e.state == s)
  {}

  /** A signer is accepted exactly if it can be made and neither its name nor its fingerprint is taken. */
  lemma SignerLoadIff(env: Env, w: World, s: State, r: Request)
    requires r.LoadsSigner()
    ensures var x, e := SignerOf(env, w, r), HandleSignerLoad(env, w, s, r);
      && (e.ok <==>
            && x.Some? && r.name !in s.signers
            && forall n | n in s.signers :: SignerFingerprint(env, s.signers[n]) != SignerFingerprint(env, x.value))
      && (e.ok ==>
            && r.name in e.state.signers && e.state.signers[r.name] == x.value
            && e.state.signers - {r.name} == s.signers)
      && (!e.ok ==> e.state == s)
  {
    hide SignerOf, SignerFingerprint;
  }

  /** Unloading undoes loading: nothing of a wallet stays behind, whatever memos it was given meanwhile. */
  lemma UnloadUndoesLoad(env: Env, s: State, descriptor: string, name: string,
                         tx: seq<(Txid, string)>, addr: seq<(Address, string)>)
    requires StateOk(env, s) && HandleWalletLoad(env, s, descriptor, name).ok
    ensures var loaded := HandleWalletLoad(env, s, descriptor, name).state;
      var noted := loaded.(txMemos := SetMemos(loaded.txMemos, name, tx),
                           addrMemos := SetMemos(loaded.addrMemos, name, addr));
      HandleWalletUnload(noted, name).ok && HandleWalletUnload(noted, name).state == s
  {
    WalletLoadIff(env, s, descriptor, name);
    SetMemosElsewhere(s.txMemos, name, tx);
    SetMemosElsewhere(s.addrMemos, name, addr);
    assert s.txMemos - {name} == s.txMemos && s.addrMemos - {name} == s.addrMemos;
    hide InsertWollet, SetMemos, WolletsOk, MemosOk;
  }

  /** Any number of memos for one wallet. */
  function SetMemos<K>(memos: Memos<K>, name: string, ms: seq<(K, string)>): Memos<K>
  {
    if ms == [] then memos
    else SetMemo(SetMemos(memos, name, ms[..|ms| - 1]), name, ms[|ms| - 1].0, ms[|ms| - 1].1)
  }

  lemma {:induction false} SetMemosElsewhere<K>(memos: Memos<K>, name: string, ms: seq<(K, string)>)
    ensures SetMemos(memos, name, ms) - {name} == memos - {name}
  {
    if ms == [] {
    } else {
      SetMemosElsewhere(memos, name, ms[..|ms| - 1]);
      SetMemoElsewhere(SetMemos(memos, name, ms[..|ms| - 1]), name, ms[|ms| - 1].0, ms[|ms| - 1].1);
      hide SetMemo;
    }
  }

  lemma SetMemoElsewhere<K>(memos: Memos<K>, name: string, key: K, memo: string)
    ensures SetMemo(memos, name, key, memo) - {name} == memos - {name}
  {}

  /** Loading undoes unloading, but for the memos. */
  lemma LoadUndoesUnload(env: Env, s: State, name: string)
    requires env.Lawful() && StateOk(env, s) && name in s.wollets
    ensures var gone := HandleWalletUnload(s, name).state;
      var back := HandleWalletLoad(env, gone, env.descriptors.show(s.wollets[name]), name);
      back.ok && back.state == s.(txMemos := s.txMemos - {name}, addrMemos := s.addrMemos - {name})
  {
    var gone := HandleWalletUnload(s, name).state;
    WalletUnloadKeepsOk(env, s, name);
    WalletLoadIff(env, gone, env.descriptors.show(s.wollets[name]), name);
    assert s.wollets == gone.wollets[name := s.wollets[name]];
  }

  /** A signer is unloaded exactly if it is loaded; then exactly that signer is gone. */
  lemma SignerUnloadIff(s: State, name: string)
    ensures var e := HandleSignerUnload(s, name);
      && (e.ok <==> name in s.signers)
      && name !in e.state.signers
      && (forall n :: n != name ==> (n in e.state.signers <==> n in s.signers))
      && (forall n | n in e.state.signers :: e.state.signers[n] == s.signers[n])
      && e.state.(signers := s.signers) == s
      && e.write == if e.ok then Compact else Keep
  {}

  /** Unloading undoes loading: of a signer nothing stays behind. */
  lemma SignerUnloadUndoesLoad(env: Env, w: World, s: State, r: Request)
    requires r.LoadsSigner() && HandleSignerLoad(env, w, s, r).ok
    ensures var e := HandleSignerUnload(HandleSignerLoad(env, w, s, r).state, r.name); e.ok && e.state == s
  {
    hide SignerOf, SignerFingerprint;
    SignerLoadIff(env, w, s, r);
  }

  /** Name and fingerprint of an unloaded signer are free again: a request that makes the same signer is accepted. */
  lemma SignerCanBeLoadedAgain(env: Env, w: World, s: State, r: Request)
    requires r.LoadsSigner() && r.name in s.signers && DistinctSigners(env, s.signers)
    requires SignerOf(env, w, r) == Some(s.signers[r.name])
    ensures var back := HandleSignerLoad(env, w, HandleSignerUnload(s, r.name).state, r); back.ok && back.state == s
  {
    hide SignerOf, SignerFingerprint, HandleSignerLoad;
    var gone := HandleSignerUnload(s, r.name).state;
    SignerLoadIff(env, w, gone, r);
    var back := HandleSignerLoad(env, w, gone, r).state;
    SignersOnly(env, w, gone, r);
    MapByParts(back.signers, s.signers, r.name);
  }

  lemma MapByParts<K, V>(a: map<K, V>, b: map<K, V>, k: K)
    requires a - {k} == b - {k} && k in a && k in b && a[k] == b[k]
    ensures a == b
  {
    forall x ensures x in a <==> x in b {
      assert x != k ==> (x in a <==> x in a - {k}) && (x in b <==> x in b - {k});
    }
    forall x | x in a ensures a[x] == b[x] {
      assert x != k ==> a[x] == (a - {k})[x] && b[x] == (b - {k})[x];
    }
  }

  lemma SignersOnly(env: Env, w: World, s: State, r: Request)
    requires r.LoadsSigner()
    ensures var e := HandleSignerLoad(env, w, s, r); e.state.(signers := s.signers) == s
  {
    hide SignerOf, InsertSigner;
  }

  /** A memo is set exactly if the wallet is loaded and the key can be read; then it alone changes and is read back. */
  lemma MemoRequestsIff(env: Env, s: State, name: string, key: string, memo: string, other: string)
    ensures var k, e := env.txids.parse(key), HandleTxMemo(env, s, name, key, memo);
      && (e.ok <==> name in s.wollets && k.Some?)
      && e.state.(txMemos := s.txMemos) == s
      && (e.ok && other != name ==> ForWollet(e.state.txMemos, other) == ForWollet(s.txMemos, other))
      && (e.ok ==> ForWollet(e.state.txMemos, name) == ForWollet(s.txMemos, name)[k.value := memo])
    ensures var k, e := env.addresses.parse(key), HandleAddrMemo(env, s, name, key, memo);
      && (e.ok <==> name in s.wollets && k.Some?)
      && e.state.(addrMemos := s.addrMemos) == s
      && (e.ok && other != name ==> ForWollet(e.state.addrMemos, other) == ForWollet(s.addrMemos, other))
      && (e.ok ==> ForWollet(e.state.addrMemos, name) == ForWollet(s.addrMemos, name)[k.value := memo])
  {
    hide SetMemo, ForWollet;
    if env.txids.parse(key).Some? {
      MemoReadsBack(s.txMemos, name, env.txids.parse(key).value, memo, other);
      MemoReadsBack(s.txMemos, name, env.txids.parse(key).value, memo, name);
    }
    if env.addresses.parse(key).Some? {
      MemoReadsBack(s.addrMemos, name, env.addresses.parse(key).value, memo, other);
      MemoReadsBack(s.addrMemos, name, env.addresses.parse(key).value, memo, name);
    }
  }

  /** The entry of an asset, if there is one. */
  function AssetEntry(s: State, a: AssetId): Option<AppAsset>
  {
    if a in s.assets then Some(s.assets[a]) else None
  }

  /** The asset and its token are found from then on, and every other entry is as it was. */
  ghost predicate Inserted(env: Env, s: State, s': State, d: AssetData)
  {
    && AssetEntry(s', d.id) == Some(RegistryAsset(d)) && AssetEntry(s', env.token(d.id)) == Some(ReissuanceToken(d))
    && (forall a :: a != d.id && a != env.token(d.id) ==> AssetEntry(s', a) == AssetEntry(s, a))
    && s'.(assets := s.assets) == s
  }

  lemma InsertAssetIs(env: Env, s: State, d: AssetData)
    requires env.Lawful() && env.issues(d.id, d.tx, d.contract)
    ensures Inserted(env, s, s.(assets := InsertAsset(env, s.assets, d)), d)
  {}

  /** An asset is inserted exactly if its texts can be read and the transaction issues it under the contract. */
  lemma AssetInsertIff(env: Env, s: State, id: string, contract: string, tx: string)
    requires env.Lawful()
    ensures var a, c, t := env.assetIds.parse(id), env.contracts.parse(contract), env.transactions.parse(tx);
      var e := HandleAssetInsert(env, s, id, contract, tx);
      && (e.ok <==> a.Some? && c.Some? && t.Some? && env.issues(a.value, t.value, c.value))
      && (e.ok ==> Inserted(env, s, e.state, AssetData(a.value, t.value, c.value)))
      && (!e.ok ==> e.state == s)
  {
    hide InsertAsset, Inserted;
    var a, c, t := env.assetIds.parse(id), env.contracts.parse(contract), env.transactions.parse(tx);
    if a.Some? && c.Some? && t.Some? && env.issues(a.value, t.value, c.value) {
      InsertAssetIs(env, s, AssetData(a.value, t.value, c.value));
    }
  }

  /** An asset is fetched exactly if it is not there, the registry knows it, and what it knows is right. */
  lemma AssetFetchIff(env: Env, w: World, s: State, id: string)
    requires env.Lawful()
    ensures var a, e := env.assetIds.parse(id), HandleAssetFromRegistry(env, w, s, id);
      && (e.ok <==> a.Some? && AssetEntry(s, a.value).None? && w.registry.Some?
                    && env.issues(a.value, w.registry.value.1, w.registry.value.0))
      && (e.ok ==> Inserted(env, s, e.state, AssetData(a.value, w.registry.value.1, w.registry.value.0)))
      && (!e.ok ==> e.state == s)
  {
    hide InsertAsset, Inserted;
    var a := env.assetIds.parse(id);
    if a.Some? && w.registry.Some? && env.issues(a.value, w.registry.value.1, w.registry.value.0) {
      InsertAssetIs(env, s, AssetData(a.value, w.registry.value.1, w.registry.value.0));
    }
  }

  /** An asset is removed exactly if there is an entry for it; then exactly that entry is gone. */
  lemma AssetRemoveIff(env: Env, s: State, id: string)
    ensures var a, e := env.assetIds.parse(id), HandleAssetRemove(env, s, id);
      && (e.ok <==> a.Some? && AssetEntry(s, a.value).Some?)
      && (e.ok ==> AssetEntry(e.state, a.value).None?)
      && (forall b :: a != Some(b) ==> AssetEntry(e.state, b) == AssetEntry(s, b))
      && e.state.(assets := s.assets) == s
  {}

  /**
   A signer can be used exactly if it is software, a Jade that still answers, or one that is found; a Jade is found
   under its id, and one that does not answer is known by its id again. Nothing else changes.
   */
  lemma UseSignerIff(env: Env, w: World, s: State, name: string)
    ensures var e := GetAvailable(env, w, s, name);
      && (e.ok <==> name in s.signers && match s.signers[name].inner
                      case JadeRef(_) => w.jadeFound
                      case Jade(_, _) => w.jadeUnlocks
                      case Software(_) => true
                      case External(_) => false)
      && e.state.signers.Keys == s.signers.Keys
      && (forall n | n in s.signers && n != name :: e.state.signers[n] == s.signers[n])
      && (name in s.signers ==> match s.signers[name].inner
            case JadeRef(id) =>
              if w.jadeFound then e.state.signers[name].inner == Jade(id, env.idFingerprint(id))
              else e.state.signers[name] == s.signers[name]
            case Jade(id, _) =>
              if w.jadeUnlocks then e.state.signers[name] == s.signers[name]
              else e.state.signers[name].inner == JadeRef(id)
            case _ => e.state.signers[name] == s.signers[name])
      && e.state.(signers := s.signers) == s
  {}
}
