/** Differences of wallet balances (lwk_common/src/balance.rs). */
module Balance {

  type AssetId(==, !new)

  const TWO_63: int := 0x8000_0000_0000_0000
  const TWO_64: int := 0x1_0000_0000_0000_0000

  type u64 = x: int | 0 <= x < TWO_64
  type i64 = x: int | -TWO_63 <= x < TWO_63

  /** Reduction to the signed 64-bit range: the `as i64` cast and wrapping subtraction. */
  function Wrap(x: int): i64
  {
    (x + TWO_63) % TWO_64 - TWO_63
  }

  /** The amount of an asset, zero when the asset is absent. */
  function Amount(b: map<AssetId, int>, a: AssetId): int
  {
    if a in b then b[a] else 0
  }

  /** `Balance - Balance`: the keys are visited in whatever order the hash set yields. */
  method Sub(self: map<AssetId, u64>, other: map<AssetId, u64>) returns (r: map<AssetId, i64>)
    ensures forall a :: Amount(r, a) == Wrap(Amount(self, a) - Amount(other, a))
    ensures forall a :: a in r <==> Amount(self, a) != Amount(other, a)
  {
    var allKeys := other.Keys + self.Keys;
    var result: map<AssetId, i64> := map[];
    while allKeys != {}
      invariant result.Keys + allKeys == self.Keys + other.Keys
      invariant forall a :: a in result ==> result[a] == Wrap(Amount(self, a) - Amount(other, a))
    {
      var key :| key in allKeys;
      var mine := if key in self then self[key] else 0;
      var theirs := if key in other then other[key] else 0;
      WrapOfWraps(mine, theirs);
      result := result[key := Wrap(Wrap(mine) - Wrap(theirs))];
      allKeys := allKeys - {key};
    }
    r := map a | a in result && result[a] != 0 :: result[a];
    forall a
      ensures Amount(r, a) == Wrap(Amount(self, a) - Amount(other, a))
      ensures a in r <==> Amount(self, a) != Amount(other, a)
    {
      WrapZero(Amount(self, a), Amount(other, a));
    }
  }

  /** Casting both sides and subtracting wraps to the same value as wrapping the difference. */
  lemma WrapOfWraps(x: u64, y: u64)
    ensures Wrap(Wrap(x) - Wrap(y)) == Wrap(x - y)
  {}

  /** Two amounts of 64 bits wrap to a zero difference only if they are equal. */
  lemma WrapZero(x: u64, y: u64)
    ensures Wrap(x - y) == 0 <==> x == y
  {}

  /** The signed difference is the true one exactly when that fits 63 bits and a sign. */
  lemma DifferenceIsExact(x: u64, y: u64)
    ensures Wrap(x - y) == x - y <==> -TWO_63 <= x - y < TWO_63
  {}

  /** `d` holds the differences of successive balances, as computed by `Sub`. */
  ghost predicate Differences(b: seq<map<AssetId, u64>>, d: seq<map<AssetId, i64>>)
  {
    && |b| == |d| + 1
    && (forall i, a :: 0 <= i < |d| ==> Amount(d[i], a) == Wrap(Amount(b[i + 1], a) - Amount(b[i], a)))
  }

  function Total(d: seq<map<AssetId, int>>, a: AssetId): int
  {
    if d == [] then 0 else Total(d[..|d| - 1], a) + Amount(d[|d| - 1], a)
  }

  /** Wrapping late is the same as wrapping at every step. */
  lemma WrapAdd(x: int, y: int, z: int)
    requires Wrap(x) == Wrap(y)
    ensures Wrap(x + Wrap(z)) == Wrap(y + z)
  {
    var k := (x + TWO_63) / TWO_64 - (y + TWO_63) / TWO_64 - (z + TWO_63) / TWO_64;
    assert x + Wrap(z) + TWO_63 == y + z + TWO_63 + k * TWO_64;
    ShiftMod(y + z + TWO_63, k);
  }

  lemma ShiftMod(x: int, k: int)
    ensures (x + k * TWO_64) % TWO_64 == x % TWO_64
  {}

  /** Every amount of the asset along the history is below 2^63. */
  ghost predicate Small(b: seq<map<AssetId, u64>>, a: AssetId)
  {
    forall i :: 0 <= i < |b| ==> Amount(b[i], a) < TWO_63
  }

  /** The net change of an asset along a history. */
  function Net(b: seq<map<AssetId, u64>>, a: AssetId): int
    requires b != []
  {
    Amount(b[|b| - 1], a) - Amount(b[0], a)
  }

  lemma NetStep(b: seq<map<AssetId, u64>>, d: seq<map<AssetId, i64>>, a: AssetId)
    requires Differences(b, d) && d != []
    ensures var n := |d| - 1;
      && Differences(b[..n + 1], d[..n])
      && Amount(d[n], a) == Wrap(Net(b, a) - Net(b[..n + 1], a))
      && (Small(b, a) ==> Small(b[..n + 1], a) && Amount(d[n], a) == Net(b, a) - Net(b[..n + 1], a))
  {
    var n := |d| - 1;
    assert b[..n + 1][n] == b[n];
    var x, y := Amount(b[n + 1], a), Amount(b[n], a);
    assert Net(b, a) - Net(b[..n + 1], a) == x - y;
    DifferenceIsExact(x, y);
  }

  /** Adding up the differences along a history agrees with the net change after wrapping. */
  lemma {:induction false} DifferencesTelescope(b: seq<map<AssetId, u64>>, d: seq<map<AssetId, i64>>, a: AssetId)
    requires Differences(b, d)
    ensures Wrap(Total(d, a)) == Wrap(Net(b, a))
  {
    if d == [] {
    } else {
      var n := |d| - 1;
      NetStep(b, d, a);
      DifferencesTelescope(b[..n + 1], d[..n], a);
      WrapAdd(Total(d[..n], a), Net(b[..n + 1], a), Net(b, a) - Net(b[..n + 1], a));
    }
  }

  /** The sum of differences is the net change itself when every amount is below 2^63. */
  lemma {:induction false} SmallDifferencesTelescope(b: seq<map<AssetId, u64>>, d: seq<map<AssetId, i64>>, a: AssetId)
    requires Differences(b, d) && Small(b, a)
    ensures Total(d, a) == Net(b, a)
  {
    if d == [] {
    } else {
      var n := |d| - 1;
      NetStep(b, d, a);
      SmallDifferencesTelescope(b[..n + 1], d[..n], a);
      assert Total(d, a) == Total(d[..n], a) + Amount(d[n], a);
    }
  }
}
