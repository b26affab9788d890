/** SENSE map estimation helpers (cxx/vineyard/sense/sense.cpp): the Sobolev
    weight table that penalises high spatial frequencies of the kernels, the
    input checks that guard the calibrations, and the choice of where the
    maps come from. */
module Sense {
  import Wrappers
  import Numerics

  /** `base` raised to an integer power, as `std::pow` with an integral
      exponent. */
  function Power(base: real, e: int): real
    decreases if e < 0 then -e else e, if e < 0 then 1 else 0
  {
    if e == 0 then 1.0
    else if e > 0 then base * Power(base, e - 1)
    else Numerics.Quot(1.0, Power(base, -e))
  }

  /** A power of a base at least 1 is at least 1 and grows with the base. */
  lemma {:induction false} PowerMonotone(a: real, b: real, e: nat)
    requires 1.0 <= a <= b
    ensures 1.0 <= Power(a, e) <= Power(b, e)
  {
    if e > 0 {
      PowerMonotone(a, b, e - 1);
      var p, q := Power(a, e - 1), Power(b, e - 1);
      assert a * p <= b * p;
      assert b * p <= b * q;
    }
  }

  /** A negative power of a base at least 1 lies in (0, 1]. */
  lemma NegativePower(a: real, e: int)
    requires 1.0 <= a && e < 0
    ensures 0.0 < Power(a, e) <= 1.0
  {
    PowerMonotone(1.0, a, -e);
    var p := Power(a, -e);
    assert Power(a, e) * p == 1.0;
  }

  lemma {:induction false} PowerOfOne(e: nat)
    ensures Power(1.0, e) == 1.0
  {
    if e > 0 {
      PowerOfOne(e - 1);
    }
  }

  /** The signed distance of index `i` from the centre `n / 2` of an axis of
      extent `n`. */
  function Centred(i: int, n: nat): int {
    i - n / 2
  }

  /** The weight at index `(i, j, k)` of a table of extent `(n0, n1, n2)`:
      `(1 + |k|^2)` to the power `l / 2`, `|k|` being the distance from the
      centre and `l / 2` C++'s truncating integer division. */
  function Weight(n0: nat, n1: nat, n2: nat, l: int, i: int, j: int, k: int): real {
    var ki, kj, kk := Centred(i, n0), Centred(j, n1), Centred(k, n2);
    Power(1.0 + (ki * ki + kj * kj + kk * kk) as real, Numerics.CDiv(l, 2))
  }

  /** `SobolevWeights`: the table of extent `(n0, n1, n2)` filled by the
      triple loop, slowest index last. */
  method SobolevWeights(n0: nat, n1: nat, n2: nat, l: int) returns (w: array3<real>)
    ensures fresh(w)
    ensures w.Length0 == n0 && w.Length1 == n1 && w.Length2 == n2
    ensures forall i, j, k :: 0 <= i < n0 && 0 <= j < n1 && 0 <= k < n2 ==>
      w[i, j, k] == Weight(n0, n1, n2, l, i, j, k)
  {
    w := new real[n0, n1, n2];
    var e := Numerics.CDiv(l, 2);
    for ik := 0 to n2
      invariant forall i, j, k :: 0 <= i < n0 && 0 <= j < n1 && 0 <= k < ik ==>
        w[i, j, k] == Weight(n0, n1, n2, l, i, j, k)
    {
      var kk := Centred(ik, n2);
      for ij := 0 to n1
        invariant forall i, j, k :: 0 <= i < n0 && 0 <= j < n1 && 0 <= k < ik ==>
          w[i, j, k] == Weight(n0, n1, n2, l, i, j, k)
        invariant forall i, j :: 0 <= i < n0 && 0 <= j < ij ==>
          w[i, j, ik] == Weight(n0, n1, n2, l, i, j, ik)
      {
        var kj := Centred(ij, n1);
        for ii := 0 to n0
          invariant forall i, j, k :: 0 <= i < n0 && 0 <= j < n1 && 0 <= k < ik ==>
            w[i, j, k] == Weight(n0, n1, n2, l, i, j, k)
          invariant forall i, j :: 0 <= i < n0 && 0 <= j < ij ==>
            w[i, j, ik] == Weight(n0, n1, n2, l, i, j, ik)
          invariant forall i :: 0 <= i < ii ==>
            w[i, ij, ik] == Weight(n0, n1, n2, l, i, ij, ik)
        {
          var ki := Centred(ii, n0);
          var k2 := ki * ki + kj * kj + kk * kk;
          w[ii, ij, ik] := Power(1.0 + k2 as real, e);
        }
      }
    }
  }

  /** The weight is 1 at the centre of the table. */
  lemma CentreWeight(n0: nat, n1: nat, n2: nat, l: int)
    ensures Weight(n0, n1, n2, l, n0 / 2, n1 / 2, n2 / 2) == 1.0
  {
    var e := Numerics.CDiv(l, 2);
    if e >= 0 {
      PowerOfOne(e);
    } else {
      PowerOfOne(-e);
    }
  }

  /** For `l >= 0` every weight is at least 1, and a weight never decreases
      as its index moves away from the centre: the penalty grows with the
      spatial frequency. */
  lemma WeightGrows(n0: nat, n1: nat, n2: nat, l: int, i: int, j: int, k: int, i': int, j': int, k': int)
    requires 0 <= l
    requires var d, d' := Centred(i, n0), Centred(i', n0); d * d <= d' * d'
    requires var d, d' := Centred(j, n1), Centred(j', n1); d * d <= d' * d'
    requires var d, d' := Centred(k, n2), Centred(k', n2); d * d <= d' * d'
    ensures 1.0 <= Weight(n0, n1, n2, l, i, j, k) <= Weight(n0, n1, n2, l, i', j', k')
  {
    var ki, kj, kk := Centred(i, n0), Centred(j, n1), Centred(k, n2);
    var ki', kj', kk' := Centred(i', n0), Centred(j', n1), Centred(k', n2);
    assert 0 <= ki * ki && 0 <= kj * kj && 0 <= kk * kk;
    PowerMonotone(1.0 + (ki * ki + kj * kj + kk * kk) as real, 1.0 + (ki' * ki' + kj' * kj' + kk' * kk') as real, Numerics.CDiv(l, 2));
  }

  /** For `l < -1` the exponent is negative and every weight lies in (0, 1]. */
  lemma WeightShrinks(n0: nat, n1: nat, n2: nat, l: int, i: int, j: int, k: int)
    requires l < -1
    ensures 0.0 < Weight(n0, n1, n2, l, i, j, k) <= 1.0
  {
    var ki, kj, kk := Centred(i, n0), Centred(j, n1), Centred(k, n2);
    assert 0 <= ki * ki && 0 <= kj * kj && 0 <= kk * kk;
    NegativePower(1.0 + (ki * ki + kj * kj + kk * kk) as real, Numerics.CDiv(l, 2));
  }

  /** The table `Nonsense` uses (`l = 16`) has weights `(1 + |k|^2)^8`. */
  lemma NonsenseExponent(kW: nat, i: int, j: int, k: int)
    ensures var ki, kj, kk := Centred(i, kW), Centred(j, kW), Centred(k, kW);
      Weight(kW, kW, kW, 16, i, j, k) == Power(1.0 + (ki * ki + kj * kj + kk * kk) as real, 8)
  {
  }

  /** Why a SENSE calibration stops. */
  datatype Failure =
    | VolumeOutOfRange(volume: int, volumes: int)
    | FovNotSatisfied(axis: nat)
    | DimsMismatch(channels: seq<int>, reference: seq<int>)
    | MatrixTooSmall(matrix: seq<int>, kernel: int)
    | NotSupported

  /** The volume check shared by `LoresChannels` and `LoresKernels`: the
      requested calibration volume must be below the number of volumes. */
  function CheckVolume(volume: int, volumes: int): (r: Wrappers.Option<Failure>)
    ensures r.None? <==> volume < volumes
    ensures r.Some? ==> r.value == VolumeOutOfRange(volume, volumes)
  {
    if volume >= volumes then Wrappers.Some(VolumeOutOfRange(volume, volumes)) else Wrappers.None
  }

  /** `LoresChannels` after its low-resolution LSMR solve: `channelDims` are
      the dimensions of the channel images (channels, basis, x, y, z) and
      `matrix` the grid size the SENSE field of view needs.  Fails on a
      volume out of range, or on the first axis whose requested size exceeds
      the image; otherwise returns the dimensions of the centre crop. */
  method LoresChannels(volume: int, volumes: int, channelDims: seq<int>, matrix: seq<int>)
    returns (r: Wrappers.Result<seq<int>, Failure>)
    requires |channelDims| == 5 && |matrix| == 3
    ensures volume >= volumes ==> r == Wrappers.Err(VolumeOutOfRange(volume, volumes))
    ensures volume < volumes ==>
      (r.Ok? <==> forall a :: 0 <= a < 3 ==> matrix[a] <= channelDims[a + 2])
    ensures r.Ok? ==> r.value == channelDims[..2] + matrix
    ensures volume < volumes && r.Err? ==>
      exists a :: (0 <= a < 3 && matrix[a] > channelDims[a + 2]
        && r.error == FovNotSatisfied(a) && forall b :: 0 <= b < a ==> matrix[b] <= channelDims[b + 2])
  {
    var bad := CheckVolume(volume, volumes);
    if bad.Some? {
      return Wrappers.Err(bad.value);
    }
    for ii := 0 to 3
      invariant forall b :: 0 <= b < ii ==> matrix[b] <= channelDims[b + 2]
    {
      if matrix[ii] > channelDims[ii + 2] {
        return Wrappers.Err(FovNotSatisfied(ii));
      }
    }
    r := Wrappers.Ok(channelDims[..2] + matrix);
  }

  /** `LoresKernels` fails only on the volume check; otherwise it returns the
      kernels its LSMR solve finds, on the grid of dimensions `gridDims`. */
  function LoresKernels(volume: int, volumes: int, gridDims: seq<int>): (r: Wrappers.Result<seq<int>, Failure>)
    ensures r.Ok? <==> volume < volumes
    ensures r.Ok? ==> r.value == gridDims
    ensures r.Err? ==> r.error == VolumeOutOfRange(volume, volumes)
  {
    match CheckVolume(volume, volumes)
    case Some(e) => Wrappers.Err(e)
    case None => Wrappers.Ok(gridDims)
  }

  /** The checks at the head of `Nonsense`: the channel images (channels,
      basis, x, y, z) must share their last four dimensions with the
      reference, and each spatial dimension must be at least twice the kernel
      width.  Returns the kernel shape `(channels, basis, kW, kW, kW)`. */
  function NonsenseShape(cshape: seq<int>, refShape: seq<int>, kW: int): (r: Wrappers.Result<seq<int>, Failure>)
    requires |cshape| == 5 && |refShape| == 4
    ensures r.Ok? <==> cshape[1..] == refShape && forall a :: 2 <= a < 5 ==> 2 * kW <= cshape[a]
    ensures r.Ok? ==> |r.value| == 5 && r.value[..2] == cshape[..2] && forall a :: 2 <= a < 5 ==> r.value[a] == kW
    ensures r.Err? && cshape[1..] != refShape ==> r.error == DimsMismatch(cshape, refShape)
    ensures r.Err? && cshape[1..] == refShape ==> r.error == MatrixTooSmall(cshape[2..], kW)
  {
    if cshape[1..] != refShape then Wrappers.Err(DimsMismatch(cshape, refShape))
    else if cshape[2] < 2 * kW || cshape[3] < 2 * kW || cshape[4] < 2 * kW then
      Wrappers.Err(MatrixTooSmall(cshape[2..], kW))
    else Wrappers.Ok([cshape[0], cshape[1], kW, kW, kW])
  }

  /** Where the SENSE maps come from. */
  datatype Source = SelfCalibration | File(path: string)

  /** `Choose`: `auto` self-calibrates from the data, `espirit` is refused,
      and any other value names a file to read the maps from. */
  function Choose(kind: string): (r: Wrappers.Result<Source, Failure>)
    ensures r == Wrappers.Ok(SelfCalibration) <==> kind == "auto"
    ensures r.Err? <==> kind == "espirit"
    ensures r.Err? ==> r.error == NotSupported
    ensures r.Ok? && r.value.File? ==> r.value.path == kind
  {
    if kind == "auto" then Wrappers.Ok(SelfCalibration)
    else if kind == "espirit" then Wrappers.Err(NotSupported)
    else Wrappers.Ok(File(kind))
  }
}
