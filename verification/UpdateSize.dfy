/**
 Admission arithmetic of `Docker::RestorableAppEngine` (src/docker/restorableappengine.cc):
 the uint64 totals of the layers an update has to add, and the check that they fit on disk.
 Unsigned wrap-around is written out; `Int64` is the range of a JSON int64.
 */
module UpdateSize {
  import opened Basics

  type UInt64 = n: int | 0 <= n < TWO_64
  type Int64 = n: int | -TWO_63 <= n < TWO_63

  datatype Sum<+T> = Total(value: T) | Overflow | BadLayer

  /** uint64 addition of a uint64 and an int64. */
  function WrapAdd(a: UInt64, b: Int64): UInt64 {
    (a + b) % TWO_64
  }

  /** The guard after each addition, as written: the sum must not be below either operand. */
  predicate Wrapped(a: UInt64, b: Int64) {
    WrapAdd(a, b) < a || WrapAdd(a, b) < ToUnsigned(b)
  }

  /** The guarded uint64 sum of `sizes` on top of `total`; `None` as soon as a guard fires. */
  function GuardedSum(total: UInt64, sizes: seq<Int64>): Option<UInt64>
    decreases sizes
  {
    if sizes == [] then Some(total)
    else if Wrapped(total, sizes[0]) then None
    else GuardedSum(WrapAdd(total, sizes[0]), sizes[1..])
  }

  /** The sum over the integers. */
  function TrueSum(sizes: seq<Int64>): int {
    if sizes == [] then 0 else sizes[0] + TrueSum(sizes[1..])
  }

  function Negatives(sizes: seq<Int64>): nat {
    if sizes == [] then 0 else (if sizes[0] < 0 then 1 else 0) + Negatives(sizes[1..])
  }

  lemma {:induction false} TrueSumBound(sizes: seq<Int64>)
    ensures Negatives(sizes) == 0 ==> TrueSum(sizes) >= 0
    ensures Negatives(sizes) == 1 ==> TrueSum(sizes) >= -TWO_63
  {
    if sizes != [] {
      TrueSumBound(sizes[1..]);
    }
  }

  /** A running uint64 total against the true sum; `negative` says whether a negative number was added. */
  predicate Tracks(total: UInt64, sum: int, negative: bool) {
    if negative then -TWO_63 <= sum < 0 && total == sum + TWO_64 else total == sum
  }

  /** When one guarded addition goes through, and what the total then is. */
  lemma TrackStep(total: UInt64, sum: int, negative: bool, b: Int64)
    requires Tracks(total, sum, negative)
    ensures !Wrapped(total, b) <==>
              if negative then b >= 0 && sum + b < 0 else sum + b < (if b >= 0 then TWO_64 else 0)
    ensures !Wrapped(total, b) ==> Tracks(WrapAdd(total, b), sum + b, negative || b < 0)
  {
    if 0 <= total + b < TWO_64 {
      assert WrapAdd(total, b) == total + b;
    } else if total + b >= TWO_64 {
      assert WrapAdd(total, b) == total + b - TWO_64;
    } else {
      assert WrapAdd(total, b) == total + b + TWO_64;
    }
  }

  lemma {:induction false} GuardedSumFrom(total: UInt64, sum: int, negative: bool, sizes: seq<Int64>)
    requires Tracks(total, sum, negative)
    ensures GuardedSum(total, sizes).Some? <==>
              if Negatives(sizes) == 0 then sum + TrueSum(sizes) < (if negative then 0 else TWO_64)
              else !negative && Negatives(sizes) == 1 && sum + TrueSum(sizes) < 0
    ensures GuardedSum(total, sizes).Some? ==>
              GuardedSum(total, sizes).value
              == sum + TrueSum(sizes) + (if negative || Negatives(sizes) > 0 then TWO_64 else 0)
    decreases sizes
  {
    if sizes != [] {
      var b, rest := sizes[0], sizes[1..];
      TrackStep(total, sum, negative, b);
      TrueSumBound(rest);
      if !Wrapped(total, b) {
        GuardedSumFrom(WrapAdd(total, b), sum + b, negative || b < 0, rest);
      }
    }
  }

  /** Which lists of sizes get past the guards. */
  predicate Passes(sizes: seq<Int64>) {
    if Negatives(sizes) == 0 then TrueSum(sizes) < TWO_64 else Negatives(sizes) == 1 && TrueSum(sizes) < 0
  }

  /**
   What the guards amount to.  Without negative numbers they refuse exactly the sums of 2^64 and more, and the
   result is the true sum.  One negative number passes exactly if the true sum is negative, and the result is then
   2^64 too large; two never pass.
   */
  lemma GuardedSumExact(sizes: seq<Int64>)
    ensures GuardedSum(0, sizes).Some? <==> Passes(sizes)
    ensures GuardedSum(0, sizes).Some? ==>
              GuardedSum(0, sizes).value == TrueSum(sizes) + (if Negatives(sizes) == 0 then 0 else TWO_64)
  {
    GuardedSumFrom(0, 0, false, sizes);
  }

  // ---------------------------------------------------------------------------
  // Estimated size: getAppUpdateSize
  // ---------------------------------------------------------------------------

  /** `digest` is `None` if it is not a sha256 digest, `size` if it is not an int64. */
  datatype Layer = Layer(digest: Option<Hash>, size: Option<Int64>)

  predicate Acceptable(layer: Layer, stored: set<Hash>) {
    layer.digest.Some? && (layer.digest.value in stored || (layer.size.Some? && layer.size.value >= 0))
  }

  /** The sizes of the layers that are not stored, in the order of the list. */
  function MissingSizes(layers: seq<Layer>, stored: set<Hash>): seq<Int64> {
    if layers == [] then []
    else
      var rest := MissingSizes(layers[1..], stored);
      if layers[0].digest.Some? && layers[0].digest.value !in stored && layers[0].size.Some?
      then [layers[0].size.value] + rest else rest
  }

  lemma {:induction false} AcceptableIsNonNegative(layers: seq<Layer>, stored: set<Hash>)
    requires forall i | 0 <= i < |layers| :: Acceptable(layers[i], stored)
    ensures Negatives(MissingSizes(layers, stored)) == 0
  {
    if layers != [] {
      AcceptableIsNonNegative(layers[1..], stored);
      assert MissingSizes(layers, stored) != [] ==>
          MissingSizes(layers, stored)[1..] == MissingSizes(layers[1..], stored)
          || MissingSizes(layers, stored) == MissingSizes(layers[1..], stored);
    }
  }

  /** Returns the true sum over the missing layers, and throws exactly when there is none or it is no uint64. */
  method GetAppUpdateSize(layers: seq<Layer>, stored: set<Hash>) returns (r: Sum<UInt64>)
    ensures r.Total? <==>
              && (forall i | 0 <= i < |layers| :: Acceptable(layers[i], stored))
              && TrueSum(MissingSizes(layers, stored)) < TWO_64
    ensures r.Total? ==> r.value == TrueSum(MissingSizes(layers, stored))
    ensures r.BadLayer? ==> exists i :: 0 <= i < |layers| && !Acceptable(layers[i], stored)
  {
    GuardedSumExact(MissingSizes(layers, stored));
    if forall i | 0 <= i < |layers| :: Acceptable(layers[i], stored) {
      AcceptableIsNonNegative(layers, stored);
    }
    var total: UInt64 := 0;
    for i := 0 to |layers|
      invariant forall j | 0 <= j < i :: Acceptable(layers[j], stored)
      invariant GuardedSum(total, MissingSizes(layers[i..], stored)) == GuardedSum(0, MissingSizes(layers, stored))
    {
      assert layers[i..][1..] == layers[i + 1..];
      if layers[i].digest.None? {
        return BadLayer;
      }
      if layers[i].digest.value !in stored {
        if layers[i].size.None? || layers[i].size.value < 0 {
          return BadLayer;
        }
        var size := layers[i].size.value;
        assert MissingSizes(layers[i..], stored)[1..] == MissingSizes(layers[i + 1..], stored);
        if Wrapped(total, size) {
          return Overflow;
        }
        total := WrapAdd(total, size);
      }
    }
    return Total(total);
  }

  // ---------------------------------------------------------------------------
  // Precise size: getPreciseAppUpdateSize
  // ---------------------------------------------------------------------------

  /** `usage` and `archive_size` of a layer of the layers metadata. */
  datatype Meta = Meta(archive: Int64, usage: Int64)

  /** `meta` is `None` if `usage` is missing or is no int64, or another number cannot be read; an absent `archive_size`
      reads as 0. */
  datatype MetaLayer = MetaLayer(digest: Option<Hash>, meta: Option<Meta>)

  predicate Fetchable(layer: MetaLayer, stored: set<Hash>) {
    layer.digest.Some? && (layer.digest.value in stored || layer.meta.Some?)
  }

  /** The metadata of the layers that are not stored. */
  function MissingMeta(layers: seq<MetaLayer>, stored: set<Hash>): seq<Meta> {
    if layers == [] then []
    else
      var rest := MissingMeta(layers[1..], stored);
      if layers[0].digest.Some? && layers[0].digest.value !in stored && layers[0].meta.Some?
      then [layers[0].meta.value] + rest else rest
  }

  function Archives(metas: seq<Meta>): seq<Int64> {
    seq(|metas|, i requires 0 <= i < |metas| => metas[i].archive)
  }

  function Usages(metas: seq<Meta>): seq<Int64> {
    seq(|metas|, i requires 0 <= i < |metas| => metas[i].usage)
  }

  /**
   Nothing here rejects a negative number.  A total that is returned is the true sum exactly if no missing layer has
   one, and is 2^64 too large otherwise.
   */
  method GetPreciseAppUpdateSize(layers: seq<MetaLayer>, stored: set<Hash>) returns (r: Sum<(UInt64, UInt64)>)
    ensures var metas := MissingMeta(layers, stored);
            && (r.Total? <==>
                && (forall i | 0 <= i < |layers| :: Fetchable(layers[i], stored))
                && Passes(Archives(metas)) && Passes(Usages(metas)))
            && (r.Total? ==>
                && (r.value.0 == TrueSum(Archives(metas)) <==> Negatives(Archives(metas)) == 0)
                && (r.value.1 == TrueSum(Usages(metas)) <==> Negatives(Usages(metas)) == 0)
                && r.value.0 - TrueSum(Archives(metas)) in {0, TWO_64}
                && r.value.1 - TrueSum(Usages(metas)) in {0, TWO_64})
    ensures r.BadLayer? ==> exists i :: 0 <= i < |layers| && !Fetchable(layers[i], stored)
  {
    ghost var metas := MissingMeta(layers, stored);
    GuardedSumExact(Archives(metas));
    GuardedSumExact(Usages(metas));
    var skopeo: UInt64, docker: UInt64 := 0, 0;
    for i := 0 to |layers|
      invariant forall j | 0 <= j < i :: Fetchable(layers[j], stored)
      invariant GuardedSum(skopeo, Archives(MissingMeta(layers[i..], stored))) == GuardedSum(0, Archives(metas))
      invariant GuardedSum(docker, Usages(MissingMeta(layers[i..], stored))) == GuardedSum(0, Usages(metas))
    {
      ghost var rest := MissingMeta(layers[i + 1..], stored);
      assert layers[i..][1..] == layers[i + 1..];
      if layers[i].digest.None? {
        return BadLayer;
      }
      if layers[i].digest.value in stored {
        continue;
      }
      if layers[i].meta.None? {
        return BadLayer;
      }
      var meta := layers[i].meta.value;
      assert MissingMeta(layers[i..], stored) == [meta] + rest;
      assert Archives([meta] + rest)[1..] == Archives(rest) && Usages([meta] + rest)[1..] == Usages(rest);
      if Wrapped(skopeo, meta.archive) || Wrapped(docker, meta.usage) {
        return Overflow;
      }
      skopeo, docker := WrapAdd(skopeo, meta.archive), WrapAdd(docker, meta.usage);
    }
    return Total((skopeo, docker));
  }

  /** A negative archive size is accepted and counts as almost 2^64 bytes. */
  method NegativeArchive() returns (r: Sum<(UInt64, UInt64)>)
    ensures r == Total((TWO_64 - 5, 0))
  {
    var layers := [MetaLayer(Some("l"), Some(Meta(-5, 0)))];
    assert MissingMeta(layers, {}) == [Meta(-5, 0)];
    assert Archives([Meta(-5, 0)]) == [-5] && Usages([Meta(-5, 0)]) == [0];
    assert TrueSum([-5]) == -5 && Negatives([-5]) == 1 && TrueSum([0]) == 0 && Negatives([0]) == 0;
    assert Fetchable(layers[0], {});
    r := GetPreciseAppUpdateSize(layers, {});
  }

  // ---------------------------------------------------------------------------
  // checkAvailableStorageInStores
  // ---------------------------------------------------------------------------

  /** The bytes that are found available: for the app store at first and after temporary files were removed, for docker,
      and on a shared volume for both together at first and after another removal. */
  datatype Space = Space(store: UInt64, storeAgain: UInt64, docker: UInt64, shared: UInt64, sharedAgain: UInt64)

  predicate StoreFits(skopeo: UInt64, space: Space) {
    skopeo <= space.store || skopeo <= space.storeAgain
  }

  /**
   The update is admitted exactly when both parts, and on a shared volume their true sum, fit into what is available
   at first or after one removal of temporary files, and these are removed exactly when a check of the store failed.
   */
  method CheckAvailableStorage(skopeo: UInt64, docker: UInt64, sameVolume: bool, space: Space)
    returns (admitted: bool, cleanups: nat)
    ensures admitted <==>
              && StoreFits(skopeo, space) && docker <= space.docker
              && (sameVolume ==> skopeo + docker <= space.shared || skopeo + docker <= space.sharedAgain)
    ensures cleanups == (if skopeo > space.store then 1 else 0)
                        + (if StoreFits(skopeo, space) && docker <= space.docker && sameVolume
                              && space.shared < skopeo + docker < TWO_64 then 1 else 0)
  {
    cleanups := 0;
    if skopeo > space.store {
      cleanups := 1;
      if skopeo > space.storeAgain {
        return false, cleanups;
      }
    }
    if docker > space.docker {
      return false, cleanups;
    }
    if sameVolume {
      var combined := (skopeo + docker) % TWO_64;
      if combined < skopeo || combined < docker {
        return false, cleanups;
      }
      if combined > space.shared {
        cleanups := cleanups + 1;
        if combined > space.sharedAgain {
          return false, cleanups;
        }
      }
    }
    admitted := true;
  }
}
