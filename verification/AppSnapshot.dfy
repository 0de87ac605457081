/** A snapshot, written in any order, rebuilds the state it was taken of (lwk_app/src/state.rs). */
module AppSnapshot {
  import opened Prelude
  import opened AppModel
  import opened AppInvariants

  // ------------------------------------------------------------------ restrictions of maps

  /** The part of a map under some of its keys. */
  function Take<K, V>(m: map<K, V>, keys: seq<K>): map<K, V>
  {
    map k | k in m && k in keys :: m[k]
  }

  /** The memos of some pairs of wallet and key. */
  ghost function TakeMemos<K(!new)>(m: Memos<K>, pairs: seq<(string, K)>): Memos<K>
  {
    map n | n in m && TakeKeys(m[n], n, pairs) != map[] :: TakeKeys(m[n], n, pairs)
  }

  lemma TakeMore<K, V>(m: map<K, V>, keys: seq<K>, k: K)
    requires k in m
    ensures Take(m, keys + [k]) == Take(m, keys)[k := m[k]]
  {}

  lemma TakeAll<K, V>(m: map<K, V>, keys: seq<K>)
    requires forall k | k in m :: k in keys
    ensures Take(m, keys) == m
  {}

  /** The memos of one wallet under some of the pairs. */
  ghost function TakeKeys<K(!new)>(m: map<K, string>, n: string, pairs: seq<(string, K)>): map<K, string>
  {
    map k | k in m && (n, k) in pairs :: m[k]
  }

  lemma TakeMoreKeys<K(!new)>(m: map<K, string>, n: string, pairs: seq<(string, K)>, p: (string, K))
    requires p.0 == n ==> p.1 in m
    ensures TakeKeys(m, n, pairs + [p])
      == if p.0 == n then TakeKeys(m, n, pairs)[p.1 := m[p.1]] else TakeKeys(m, n, pairs)
  {
    assert forall k :: (n, k) in pairs + [p] <==> (n, k) in pairs || (n, k) == p;
  }

  lemma TakeMoreMemos<K(!new)>(m: Memos<K>, pairs: seq<(string, K)>, p: (string, K))
    requires p in Pairs(m)
    ensures SetMemo(TakeMemos(m, pairs), p.0, p.1, m[p.0][p.1]) == TakeMemos(m, pairs + [p])
  {
    hide TakeKeys;
    var a, b := SetMemo(TakeMemos(m, pairs), p.0, p.1, m[p.0][p.1]), TakeMemos(m, pairs + [p]);
    var more := TakeKeys(m[p.0], p.0, pairs)[p.1 := m[p.0][p.1]];
    assert p.1 in more;
    forall n | n in m ensures (n in a <==> n in b) && (n in a ==> a[n] == b[n]) {
      TakeMoreKeys(m[n], n, pairs, p);
    }
  }

  lemma TakeAllMemos<K(!new)>(m: Memos<K>, pairs: seq<(string, K)>)
    requires forall n | n in m :: |m[n]| > 0
    requires forall p | p in Pairs(m) :: p in pairs
    ensures TakeMemos(m, pairs) == m
  {
    forall n | n in m ensures TakeKeys(m[n], n, pairs) == m[n] {
      forall k | k in m[n] ensures (n, k) in pairs {
        assert (n, k) in Pairs(m);
      }
    }
    hide TakeKeys;
  }

  // ------------------------------------------------------------------ replay, piece by piece

  lemma {:induction false} ReplaySplit(env: Env, w: World, s: State, a: seq<Request>, b: seq<Request>)
    ensures Replay(env, w, s, a + b)
      == match Replay(env, w, s, a) { case None => None case Some(s') => Replay(env, w, s', b) }
  {
    if b == [] {
      assert a + b == a;
    } else {
      var b' := b[..|b| - 1];
      ReplaySplit(env, w, s, a, b');
      assert (a + b)[..|a + b| - 1] == a + b';
      hide Handle;
    }
  }

  lemma ReplayOneMore(env: Env, w: World, s: State, log: seq<Request>, r: Request)
    ensures Replay(env, w, s, log + [r])
      == match Replay(env, w, s, log)
         case None => None
         case Some(s') => if Handle(env, w, s', r).ok then Some(Handle(env, w, s', r).state) else None
  {
    assert (log + [r])[..|log + [r]| - 1] == log;
    hide Handle;
  }

  lemma PrefixOf<T>(order: seq<T>)
    requires Distinct(order) && order != []
    ensures Distinct(order[..|order| - 1]) && order[|order| - 1] !in order[..|order| - 1]
    ensures order == order[..|order| - 1] + [order[|order| - 1]]
  {}

  // ------------------------------------------------------------------ wallets

  lemma WolletStep(env: Env, w: World, s: State, from: State, order: seq<string>, n: string)
    requires env.Lawful() && WolletsOk(env, s.wollets) && n in s.wollets && n !in order
    requires from.wollets == Take(s.wollets, order)
    ensures Handle(env, w, from, WolletRequest(env, s, n))
      == Effect(from.(wollets := Take(s.wollets, order + [n])), Append(WolletRequest(env, s, n)), true)
  {
    TakeMore(s.wollets, order, n);
  }

  lemma {:induction false} WolletLinesReplay(env: Env, w: World, s: State, from: State, order: seq<string>)
    requires env.Lawful() && WolletsOk(env, s.wollets) && from.wollets == map[]
    requires Distinct(order) && forall n | n in order :: n in s.wollets
    ensures Replay(env, w, from, WolletLines(env, s, order)) == Some(from.(wollets := Take(s.wollets, order)))
  {
    if order == [] {
      assert Take(s.wollets, order) == map[];
    } else {
      PrefixOf(order);
      var order', n := order[..|order| - 1], order[|order| - 1];
      WolletLinesReplay(env, w, s, from, order');
      WolletStep(env, w, s, from.(wollets := Take(s.wollets, order')), order', n);
      ReplayOneMore(env, w, from, WolletLines(env, s, order'), WolletRequest(env, s, n));
      hide Handle, Take;
    }
  }

  // ------------------------------------------------------------------ memos

  lemma TxMemoStep(env: Env, w: World, s: State, from: State, order: seq<(string, Txid)>, p: (string, Txid))
    requires env.Lawful() && p in Pairs(s.txMemos) && p.0 in from.wollets
    requires from.txMemos == TakeMemos(s.txMemos, order)
    ensures Handle(env, w, from, TxMemoRequest(env, s, p))
      == Effect(from.(txMemos := TakeMemos(s.txMemos, order + [p])), Append(TxMemoRequest(env, s, p)), true)
  {
    TakeMoreMemos(s.txMemos, order, p);
    hide TakeMemos, SetMemo;
  }

  lemma {:induction false} TxMemoLinesReplay(env: Env, w: World, s: State, from: State, order: seq<(string, Txid)>)
    requires env.Lawful() && MemosOk(s.txMemos, from.wollets) && from.txMemos == map[]
    requires forall p | p in order :: p in Pairs(s.txMemos)
    ensures Replay(env, w, from, TxMemoLines(env, s, order)) == Some(from.(txMemos := TakeMemos(s.txMemos, order)))
  {
    if order == [] {
      assert TakeMemos(s.txMemos, order) == map[];
    } else {
      var order', p := order[..|order| - 1], order[|order| - 1];
      assert order == order' + [p];
      TxMemoLinesReplay(env, w, s, from, order');
      assert p in Pairs(s.txMemos) && p.0 in from.wollets;
      TxMemoStep(env, w, s, from.(txMemos := TakeMemos(s.txMemos, order')), order', p);
      ReplayOneMore(env, w, from, TxMemoLines(env, s, order'), TxMemoRequest(env, s, p));
      hide Handle, TakeMemos;
    }
  }

  lemma AddrMemoStep(env: Env, w: World, s: State, from: State, order: seq<(string, Address)>, p: (string, Address))
    requires env.Lawful() && p in Pairs(s.addrMemos) && p.0 in from.wollets
    requires from.addrMemos == TakeMemos(s.addrMemos, order)
    ensures Handle(env, w, from, AddrMemoRequest(env, s, p))
      == Effect(from.(addrMemos := TakeMemos(s.addrMemos, order + [p])), Append(AddrMemoRequest(env, s, p)), true)
  {
    TakeMoreMemos(s.addrMemos, order, p);
    hide TakeMemos, SetMemo;
  }

  lemma {:induction false} AddrMemoLinesReplay(env: Env, w: World, s: State, from: State, order: seq<(string, Address)>)
    requires env.Lawful() && MemosOk(s.addrMemos, from.wollets) && from.addrMemos == map[]
    requires forall p | p in order :: p in Pairs(s.addrMemos)
    ensures Replay(env, w, from, AddrMemoLines(env, s, order))
      == Some(from.(addrMemos := TakeMemos(s.addrMemos, order)))
  {
    if order == [] {
      assert TakeMemos(s.addrMemos, order) == map[];
    } else {
      var order', p := order[..|order| - 1], order[|order| - 1];
      assert order == order' + [p];
      AddrMemoLinesReplay(env, w, s, from, order');
      assert p in Pairs(s.addrMemos) && p.0 in from.wollets;
      AddrMemoStep(env, w, s, from.(addrMemos := TakeMemos(s.addrMemos, order')), order', p);
      ReplayOneMore(env, w, from, AddrMemoLines(env, s, order'), AddrMemoRequest(env, s, p));
      hide Handle, TakeMemos;
    }
  }

  // ------------------------------------------------------------------ signers

  /** A signer as it comes back from a snapshot: a Jade is no longer connected. */
  function Cold(s: AppSigner): AppSigner
  {
    if s.inner.Jade? then AppSigner(JadeRef(s.inner.id), s.persist) else s
  }

  function Colds(signers: map<string, AppSigner>): map<string, AppSigner>
  {
    map n | n in signers :: Cold(signers[n])
  }

  lemma SignerRequestMakes(env: Env, w: World, s: State, n: string)
    requires env.Lawful() && n in s.signers && MarkOk(s.signers[n])
    ensures SignerOf(env, w, SignerRequest(env, s, n)) == Some(Cold(s.signers[n]))
  {}

  lemma InsertSignerStep(env: Env, signers: map<string, AppSigner>, order: seq<string>, n: string)
    requires n in signers && n !in order && DistinctSigners(env, Take(signers, order))
    ensures InsertSigner(env, Take(signers, order), n, signers[n])
      == if DistinctSigners(env, Take(signers, order + [n])) then Some(Take(signers, order + [n])) else None
  {
    TakeMore(signers, order, n);
    var before, after := Take(signers, order), Take(signers, order + [n]);
    if m :| m in before && SignerFingerprint(env, before[m]) == SignerFingerprint(env, signers[n]) {
      assert m in after && n in after && m != n;
    }
  }

  lemma SignerStep(env: Env, w: World, s: State, from: State, order: seq<string>, n: string)
    requires env.Lawful() && n in s.signers && MarkOk(s.signers[n]) && n !in order
    requires from.signers == Take(Colds(s.signers), order) && DistinctSigners(env, from.signers)
    ensures var e := Handle(env, w, from, SignerRequest(env, s, n));
      && e.ok == DistinctSigners(env, Take(Colds(s.signers), order + [n]))
      && (e.ok ==> e.state == from.(signers := Take(Colds(s.signers), order + [n])))
  {
    SignerRequestMakes(env, w, s, n);
    InsertSignerStep(env, Colds(s.signers), order, n);
    hide Take, DistinctSigners, InsertSigner, SignerOf, Cold;
  }

  lemma DistinctDown(env: Env, signers: map<string, AppSigner>, order: seq<string>, n: string)
    requires DistinctSigners(env, Take(signers, order + [n]))
    ensures DistinctSigners(env, Take(signers, order))
  {
    var before, after := Take(signers, order), Take(signers, order + [n]);
    assert forall m :: m in before ==> m in after && after[m] == before[m];
  }

  lemma {:induction false} SignerLinesReplay(env: Env, w: World, s: State, from: State, order: seq<string>)
    requires env.Lawful() && MarksOk(s.signers) && from.signers == map[]
    requires Distinct(order) && forall n | n in order :: n in s.signers
    ensures Replay(env, w, from, SignerLines(env, s, order))
      == var signers := Take(Colds(s.signers), order);
         if DistinctSigners(env, signers) then Some(from.(signers := signers)) else None
  {
    if order == [] {
      assert Take(Colds(s.signers), order) == map[];
    } else {
      PrefixOf(order);
      var order', n := order[..|order| - 1], order[|order| - 1];
      SignerLinesReplay(env, w, s, from, order');
      if DistinctSigners(env, Take(Colds(s.signers), order')) {
        SignerStep(env, w, s, from.(signers := Take(Colds(s.signers), order')), order', n);
      } else if DistinctSigners(env, Take(Colds(s.signers), order)) {
        DistinctDown(env, Colds(s.signers), order', n);
      }
      ReplayOneMore(env, w, from, SignerLines(env, s, order'), SignerRequest(env, s, n));
      hide Handle, Take, DistinctSigners, Colds;
    }
  }

  // ------------------------------------------------------------------ assets

  /** The policy asset is there, and each asset stands beside its reissuance token. */
  predicate Tied(env: Env, assets: map<AssetId, AppAsset>)
  {
    && env.policyAsset in assets && assets[env.policyAsset].PolicyAsset?
    && (forall a | a in assets && assets[a].PolicyAsset? :: a == env.policyAsset)
    && (forall a | a in assets && assets[a].RegistryAsset? ::
      assets[a].data.id == a && env.token(a) in assets && assets[env.token(a)] == ReissuanceToken(assets[a].data))
    && (forall a | a in assets && assets[a].ReissuanceToken? ::
      var d := assets[a].data; a == env.token(d.id) && d.id in assets && assets[d.id] == RegistryAsset(d))
  }

  /** Assets that are tied are determined by the registry data among them. */
  lemma TiedUnique(env: Env, a: map<AssetId, AppAsset>, b: map<AssetId, AppAsset>)
    requires Tied(env, a) && Tied(env, b) && Registry(a) == Registry(b)
    ensures a == b
  {
    TiedWithin(env, a, b);
    TiedWithin(env, b, a);
  }

  lemma TiedWithin(env: Env, a: map<AssetId, AppAsset>, b: map<AssetId, AppAsset>)
    requires Tied(env, a) && Tied(env, b) && Registry(a) == Registry(b)
    ensures forall x | x in a :: x in b && a[x] == b[x]
  {
    forall x | x in a ensures x in b && a[x] == b[x] {
      match a[x]
      case PolicyAsset =>
      case RegistryAsset(d) => assert x in Registry(a) && x in Registry(b);
      case ReissuanceToken(d) => assert d.id in Registry(a) && d.id in Registry(b);
    }
  }

  lemma InsertAssetTied(env: Env, assets: map<AssetId, AppAsset>, d: AssetData)
    requires env.Lawful() && AssetsOk(env, assets) && Tied(env, assets) && env.issues(d.id, d.tx, d.contract)
    ensures Tied(env, InsertAsset(env, assets, d))
  {}

  lemma InsertAssetRegistry(env: Env, assets: map<AssetId, AppAsset>, d: AssetData)
    requires env.Lawful() && AssetsOk(env, assets) && env.issues(d.id, d.tx, d.contract)
    ensures Registry(InsertAsset(env, assets, d)) == Registry(assets)[d.id := d]
  {}

  /** Taking any asset out of a tied collection unties it. */
  lemma RemovalUnties(env: Env, assets: map<AssetId, AppAsset>, a: AssetId)
    requires env.Lawful() && AssetsOk(env, assets) && Tied(env, assets) && a in assets
    ensures !Tied(env, assets - {a})
  {
    if assets[a].RegistryAsset? {
      var t := env.token(a);
      assert t in assets - {a};
    }
  }

  lemma AssetStep(env: Env, w: World, s: State, from: State, a: AssetId)
    requires env.Lawful() && AssetsOk(env, s.assets) && a in Registry(s.assets)
    ensures Handle(env, w, from, AssetRequest(env, s, a))
      == var assets := InsertAsset(env, from.assets, Registry(s.assets)[a]);
         Effect(from.(assets := assets), Append(AssetRequest(env, s, a)), true)
  {
    hide InsertAsset;
  }

  /** The assets a log can leave behind: tied, and with this registry data. */
  ghost predicate Holds(env: Env, assets: map<AssetId, AppAsset>, registry: map<AssetId, AssetData>)
  {
    AssetsOk(env, assets) && Tied(env, assets) && Registry(assets) == registry
  }

  lemma {:induction false} AssetLinesReplay(env: Env, w: World, s: State, from: State, order: seq<AssetId>)
    requires env.Lawful() && AssetsOk(env, s.assets) && Holds(env, from.assets, map[])
    requires forall a | a in order :: a in Registry(s.assets)
    ensures var r := Replay(env, w, from, AssetLines(env, s, order));
      && r.Some? && r.value == from.(assets := r.value.assets)
      && Holds(env, r.value.assets, Take(Registry(s.assets), order))
  {
    if order == [] {
      assert Take(Registry(s.assets), order) == map[];
    } else {
      var order', a := order[..|order| - 1], order[|order| - 1];
      assert order == order' + [a];
      AssetLinesReplay(env, w, s, from, order');
      var mid := Replay(env, w, from, AssetLines(env, s, order')).value;
      var d := Registry(s.assets)[a];
      assert d.id == a && env.issues(d.id, d.tx, d.contract);
      AssetStep(env, w, s, mid, a);
      InsertAssetOk(env, mid.assets, d);
      InsertAssetTied(env, mid.assets, d);
      InsertAssetRegistry(env, mid.assets, d);
      TakeMore(Registry(s.assets), order', a);
      ReplayOneMore(env, w, from, AssetLines(env, s, order'), AssetRequest(env, s, a));
      hide Handle, Take, Tied, AssetsOk, InsertAsset, Registry;
    }
  }

  // ------------------------------------------------------------------ the whole snapshot

  /** The lines before the signers restore wallets and memos. */
  lemma WalletPartReplay(env: Env, w: World, s: State, o: Order)
    requires env.Lawful() && StateOk(env, s) && o.Of(s)
    ensures Boot(env, w, FrontLines(env, s, o))
      == Some(Initial(env).(wollets := s.wollets, txMemos := s.txMemos, addrMemos := s.addrMemos))
  {
    var a, b, c := WolletLines(env, s, o.wollets), TxMemoLines(env, s, o.txMemos), AddrMemoLines(env, s, o.addrMemos);
    var s0 := Initial(env);
    WolletLinesReplay(env, w, s, s0, o.wollets);
    TakeAll(s.wollets, o.wollets);
    var s1 := s0.(wollets := s.wollets);
    TxMemoLinesReplay(env, w, s, s1, o.txMemos);
    TakeAllMemos(s.txMemos, o.txMemos);
    var s2 := s1.(txMemos := s.txMemos);
    AddrMemoLinesReplay(env, w, s, s2, o.addrMemos);
    TakeAllMemos(s.addrMemos, o.addrMemos);
    ReplaySplit(env, w, s0, a, b);
    ReplaySplit(env, w, s0, a + b, c);
    hide Replay, WolletLines, TxMemoLines, AddrMemoLines, StateOk, Take, TakeMemos;
  }

  /** What a snapshot of `s` gives back: everything, with Jades unconnected and assets tied. */
  ghost predicate Restores(env: Env, r: State, s: State)
  {
    && r.wollets == s.wollets && r.txMemos == s.txMemos && r.addrMemos == s.addrMemos
    && r.signers == Colds(s.signers) && Holds(env, r.assets, Registry(s.assets))
  }

  /**
   A snapshot written in any order boots if and only if no two signers clash once their Jades are
   unconnected; it then restores the state.
   */
  lemma SnapshotBoots(env: Env, w: World, s: State, o: Order)
    requires env.Lawful() && StateOk(env, s) && o.Of(s)
    ensures var r := Boot(env, w, Snapshot(env, s, o));
      && (r.Some? <==> DistinctSigners(env, Colds(s.signers)))
      && (r.Some? ==> Restores(env, r.value, s))
  {
    hide Replay, FrontLines, SignerLines, AssetLines, DistinctSigners, Take, Colds, Holds,
      WolletsOk, MarksOk, MemosOk, AssetsOk;
    var front := FrontLines(env, s, o);
    var d, e := SignerLines(env, s, o.signers), AssetLines(env, s, o.assets);
    WalletPartReplay(env, w, s, o);
    var s3 := Boot(env, w, front).value;
    SignerLinesReplay(env, w, s, s3, o.signers);
    TakeAllColds(s.signers, o.signers);
    ReplaySplit(env, w, Initial(env), front, d);
    ReplaySplit(env, w, Initial(env), front + d, e);
    if DistinctSigners(env, Colds(s.signers)) {
      var s4 := s3.(signers := Colds(s.signers));
      InitialAssets(env);
      AssetLinesReplay(env, w, s, s4, o.assets);
      TakeAll(Registry(s.assets), o.assets);
    }
  }

  lemma TakeAllColds(signers: map<string, AppSigner>, order: seq<string>)
    requires forall n | n in signers :: n in order
    ensures Take(Colds(signers), order) == Colds(signers)
  {}

  lemma InitialAssets(env: Env)
    ensures Holds(env, Initial(env).assets, map[])
  {
    assert Registry(Initial(env).assets) == map[];
  }
}
