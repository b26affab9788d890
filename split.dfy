/** Spoke bookkeeping of the `split` command (src/cmd/split.cpp): echo
    labels, the lo-res spokes taken off the front or the back, striding and
    truncation of the hi-res spokes, and the interleaves written one file each.

    Spokes are tracked by identity: a trajectory carries, for each of its
    spokes, the index of the input spoke whose read-out points it holds, and a
    k-space tensor the index of the input spoke whose samples it holds.  The
    channel, read-point and volume axes are carried along unchanged by every
    slice in the source and are not represented. */
module Split {
  import Wrappers
  import Numerics

  /** `n / w` rounded up, as `std::ceil` of the float quotient and as the
      extent Eigen gives a strided axis. */
  function Ceil(n: nat, w: nat): nat
    requires 1 <= w
  {
    (n + w - 1) / w
  }

  /** `Ceil(n, w)` blocks of `w` cover `n`, and a block starting below the
      `Ceil(n, w)`-th starts inside `n`. */
  lemma CeilCovers(n: nat, w: nat, i: nat)
    requires 1 <= w
    ensures n <= Ceil(n, w) * w
    ensures i < Ceil(n, w) ==> i * w < n
  {
    var q := Ceil(n, w);
    assert n + w - 1 == q * w + (n + w - 1) % w;
    if i < q {
      Numerics.MulMonotone(i, q - 1, w);
      assert (q - 1) * w == q * w - w;
    }
  }

  /** `Ceil` loses one block when `w` is taken off a length above `w`. */
  lemma CeilStep(n: nat, w: nat)
    requires 1 <= w < n
    ensures Ceil(n, w) == Ceil(n - w, w) + 1
  {
    var q := Ceil(n - w, w);
    var r := (n - w + w - 1) % w;
    assert n - w + w - 1 == q * w + r;
    assert n + w - 1 == (q + 1) * w + r;
    Numerics.DivModUnique(q + 1, r, w);
  }

  /** The non-negative magnitude of a signed spoke count. */
  function Magnitude(l: int): nat {
    if l < 0 then -l else l
  }

  /** The spokes `a`, `a + st`, ..., `n` of them. */
  function Affine(a: nat, st: nat, n: nat): (r: seq<nat>)
    ensures |r| == n
  {
    seq(n, i => a + i * st)
  }

  /** A contiguous piece of an evenly spaced run is evenly spaced. */
  lemma AffineSlice(a: nat, st: nat, n: nat, i: nat, k: nat)
    requires i + k <= n
    ensures Affine(a, st, n)[i..i + k] == Affine(a + i * st, st, k)
  {
    forall j | 0 <= j < k
      ensures Affine(a, st, n)[i + j] == a + i * st + j * st
    {
      assert (i + j) * st == i * st + j * st;
    }
  }

  /** Every element of `x` whose index is a multiple of `s`, in order: Eigen's
      `stride` along one axis. */
  function Stride<T>(x: seq<T>, s: nat): seq<T>
    requires 1 <= s
    decreases |x|
  {
    if |x| == 0 then []
    else if |x| <= s then [x[0]]
    else [x[0]] + Stride(x[s..], s)
  }

  /** Stride keeps `Ceil(|x|, s)` elements. */
  lemma {:induction false} StrideLength<T>(x: seq<T>, s: nat)
    requires 1 <= s
    ensures |Stride(x, s)| == Ceil(|x|, s)
    decreases |x|
  {
    if |x| == 0 {
    } else if |x| <= s {
      Numerics.DivModUnique(1, |x| - 1, s);
    } else {
      StrideLength(x[s..], s);
      CeilStep(|x|, s);
    }
  }

  /** Element `i` of the strided sequence is `x[i * s]`. */
  lemma {:induction false} StrideAt<T>(x: seq<T>, s: nat, i: nat)
    requires 1 <= s && i < |Stride(x, s)|
    ensures i * s < |x| && Stride(x, s)[i] == x[i * s]
    decreases |x|
  {
    if i > 0 {
      assert s < |x| && Stride(x, s) == [x[0]] + Stride(x[s..], s);
      StrideAt(x[s..], s, i - 1);
      var j := (i - 1) * s;
      assert j + s == i * s;
      assert x[s..][j] == x[j + s];
    }
  }

  /** Stride keeps `Ceil(|x|, s)` elements, element `i` being `x[i * s]`. */
  lemma StrideSpec<T>(x: seq<T>, s: nat)
    requires 1 <= s
    ensures |Stride(x, s)| == Ceil(|x|, s)
    ensures forall i :: 0 <= i < |Stride(x, s)| ==> i * s < |x| && Stride(x, s)[i] == x[i * s]
  {
    StrideLength(x, s);
    forall i | 0 <= i < |Stride(x, s)|
      ensures i * s < |x| && Stride(x, s)[i] == x[i * s]
    {
      StrideAt(x, s, i);
    }
  }

  /** Striding a run of consecutive spokes gives a run spaced `s` apart. */
  lemma StrideAffine(a: nat, n: nat, s: nat)
    requires 1 <= s
    ensures Stride(Affine(a, 1, n), s) == Affine(a, s, Ceil(n, s))
  {
    StrideSpec(Affine(a, 1, n), s);
  }

  // Echo labels (src/cmd/split.cpp:38-44).

  /** `iota(nE)` reshaped to one row, broadcast to `spe` rows and read out in
      Eigen's column-major order: echo `b` repeated `spe` times, for each
      `b < nE` in turn. */
  function Block(spe: nat, nE: nat): (r: seq<int>)
  {
    if nE == 0 then [] else Block(spe, nE - 1) + seq(spe, _ => nE - 1)
  }

  /** `x` broadcast `m` times along its only axis. */
  function Tile<T>(x: seq<T>, m: nat): (r: seq<T>)
  {
    if m == 0 then [] else Tile(x, m - 1) + x
  }

  lemma {:induction false} BlockSpec(spe: nat, nE: nat)
    requires 1 <= spe
    ensures |Block(spe, nE)| == nE * spe
    ensures forall p :: 0 <= p < |Block(spe, nE)| ==> Block(spe, nE)[p] == p / spe
  {
    if nE > 0 {
      BlockSpec(spe, nE - 1);
      assert (nE - 1) * spe + spe == nE * spe;
      forall p | (nE - 1) * spe <= p < nE * spe
        ensures Block(spe, nE)[p] == p / spe
      {
        Numerics.DivModUnique(nE - 1, p - (nE - 1) * spe, spe);
      }
    }
  }

  lemma {:induction false} TileSpec<T>(x: seq<T>, m: nat)
    requires 1 <= |x|
    ensures |Tile(x, m)| == m * |x|
    ensures forall j :: 0 <= j < |Tile(x, m)| ==> Tile(x, m)[j] == x[j % |x|]
  {
    if m > 0 {
      TileSpec(x, m - 1);
      assert (m - 1) * |x| + |x| == m * |x|;
      forall j | (m - 1) * |x| <= j < m * |x|
        ensures Tile(x, m)[j] == x[j % |x|]
      {
        Numerics.DivModUnique(m - 1, j - (m - 1) * |x|, |x|);
      }
    }
  }

  /** The echo label of every spoke: the column-major block of `spe` copies
      of each echo, broadcast over `ceil(spokes / (spe * nE))` segments and cut
      to `spokes` entries. */
  function EchoLabels(spokes: nat, spe: nat, nE: nat): (r: seq<int>)
    requires 1 <= spe && 1 <= nE
    ensures |r| == spokes
  {
    var sps := spe * nE;
    var segs := Ceil(spokes, sps);
    BlockSpec(spe, nE);
    TileSpec(Block(spe, nE), segs);
    CeilCovers(spokes, sps, 0);
    Tile(Block(spe, nE), segs)[..spokes]
  }

  /** Spoke `j` carries echo `(j mod (spe * nE)) div spe`, a label below `nE`:
      each echo covers `spe` consecutive spokes and the pattern repeats every
      `spe * nE` spokes. */
  lemma EchoLabelOf(spokes: nat, spe: nat, nE: nat, j: nat)
    requires 1 <= spe && 1 <= nE && j < spokes
    ensures EchoLabels(spokes, spe, nE)[j] == (j % (spe * nE)) / spe
    ensures 0 <= EchoLabels(spokes, spe, nE)[j] < nE
  {
    BlockSpec(spe, nE);
    TileSpec(Block(spe, nE), Ceil(spokes, spe * nE));
    CeilCovers(spokes, spe * nE, 0);
    Numerics.DivBelow(j % (spe * nE), spe, nE);
  }

  // Interleaves (src/cmd/split.cpp:116-142).  The float divisions of lines
  // 120-121 are read as exact quotients truncated toward zero.

  /** `num_full_int`: the number of whole interleaves of `ns` spokes. */
  function FullCount(spokes: nat, ns: nat): nat
    requires 1 <= ns
  {
    spokes / ns
  }

  /** `rem_spokes`: the spokes left over after the whole interleaves. */
  function Rem(spokes: nat, ns: nat): (r: int)
    requires 1 <= ns
    ensures 0 <= r < ns
  {
    spokes - FullCount(spokes, ns) * ns
  }

  /** `num_int`: `(num_full_int - 1) * ns / step + 1`, truncated toward
      zero.  With at least one whole interleave these are the interleaves
      that start no later than the last whole one; with none there are no
      interleaves. */
  function NumInt(spokes: nat, ns: nat, step: nat): (n: int)
    requires 1 <= ns && 1 <= step
    ensures 1 <= FullCount(spokes, ns) ==>
      1 <= n && Start(step, n - 1) <= (FullCount(spokes, ns) - 1) * ns < Start(step, n)
    ensures FullCount(spokes, ns) == 0 ==> n <= 0
  {
    var nf := FullCount(spokes, ns);
    QuotientBracket(nf, ns, step);
    Numerics.CDiv((nf - 1) * ns + step, step)
  }

  /** `((nf - 1) * ns + step) / step`, truncated toward zero, counts the
      multiples of `step` up to `(nf - 1) * ns` when `nf >= 1`, and is not
      positive when `nf == 0`. */
  lemma QuotientBracket(nf: nat, ns: nat, step: nat)
    requires 1 <= ns && 1 <= step
    ensures var last := (nf - 1) * ns; var n := Numerics.CDiv(last + step, step);
      && (1 <= nf ==> 1 <= n && Start(step, n - 1) <= last < Start(step, n))
      && (nf == 0 ==> n <= 0)
  {
    var last := (nf - 1) * ns;
    if 1 <= nf {
      Numerics.MulMonotone(0, nf - 1, ns);
      var q, r := last / step, last % step;
      assert last == q * step + r && last + step == (q + 1) * step + r;
      Numerics.DivModUnique(q + 1, r, step);
    } else if 0 <= last + step {
      Numerics.DivModUnique(0, last + step, step);
    }
  }

  /** Interleave `k` starts at spoke `step * k`. */
  function Start(step: nat, k: nat): nat {
    step * k
  }

  /** Interleave `k` has `ns` spokes, and the last one the remainder too. */
  function Len(spokes: nat, ns: nat, step: nat, k: nat): nat
    requires 1 <= ns && 1 <= step
  {
    ns + (if k == NumInt(spokes, ns, step) - 1 then Rem(spokes, ns) else 0)
  }

  /** With a whole interleave there are `(num_full_int - 1) * ns / step + 1`
      interleaves. */
  lemma SomeInterleaves(spokes: nat, ns: nat, step: nat)
    requires 1 <= ns && 1 <= step && ns <= spokes
    ensures 1 <= FullCount(spokes, ns)
    ensures NumInt(spokes, ns, step) == (FullCount(spokes, ns) - 1) * ns / step + 1
  {
    var nf := FullCount(spokes, ns);
    assert spokes == nf * ns + spokes % ns;
    var x := (nf - 1) * ns;
    Numerics.MulMonotone(0, nf - 1, ns);
    Numerics.DivModUnique(x / step + 1, x % step, step);
    assert x + step == (x / step + 1) * step + x % step;
  }

  /** Every interleave lies inside the spokes: it starts at or after 0 and
      ends at or before `spokes`, the last one included. */
  lemma InterleaveInRange(spokes: nat, ns: nat, step: nat, k: nat)
    requires 1 <= ns && 1 <= step && k < NumInt(spokes, ns, step)
    ensures Start(step, k) + Len(spokes, ns, step, k) <= spokes
  {
    if spokes < ns {
      Numerics.DivModUnique(0, spokes, ns);
      assert false;
    }
    SomeInterleaves(spokes, ns, step);
    var nf, n := FullCount(spokes, ns), NumInt(spokes, ns, step);
    var x := (nf - 1) * ns;
    assert Start(step, n - 1) <= x;
    assert x + ns == nf * ns;
    assert spokes == nf * ns + Rem(spokes, ns);
    if k < n - 1 {
      Numerics.MulMonotone(k, n - 2, step);
      assert step * (n - 2) + step == Start(step, n - 1);
    }
  }


  /** With the default step the interleaves tile the spokes: each starts where
      the previous one ends, the first at 0 and the last ends at `spokes`, so
      every spoke is written exactly once. */
  lemma InterleavesTile(spokes: nat, ns: nat, k: nat)
    requires 1 <= ns <= spokes && k < NumInt(spokes, ns, ns)
    ensures NumInt(spokes, ns, ns) == FullCount(spokes, ns)
    ensures k + 1 < NumInt(spokes, ns, ns) ==>
      Start(ns, k + 1) == Start(ns, k) + Len(spokes, ns, ns, k)
    ensures k + 1 == NumInt(spokes, ns, ns) ==> Start(ns, k) + Len(spokes, ns, ns, k) == spokes
  {
    SomeInterleaves(spokes, ns, ns);
    var nf := FullCount(spokes, ns);
    Numerics.DivModUnique(nf - 1, 0, ns);
    assert ns * (k + 1) == ns * k + ns;
    if k + 1 == nf {
      assert ns * k + ns == nf * ns;
    }
  }

  // The command (src/cmd/split.cpp:8-150).

  /** The file an output goes to, by its name suffix: `lores`, `hires` or
      `hires-NN`. */
  datatype Suffix = Lores | Hires | Interleave(k: nat)

  /** A trajectory: the input spoke whose points each of its spokes holds,
      the echo label of each spoke (absent when the trajectory is built
      without labels) and the echo count recorded in its header. */
  datatype Traj = Traj(points: seq<nat>, echoes: Wrappers.Option<seq<int>>, echoCount: int)

  /** One output file: its suffix, trajectory and non-Cartesian k-space
      (the input spoke behind each spoke of the tensor). */
  datatype Written = Written(suffix: Suffix, traj: Traj, ks: seq<nat>)

  /** The command-line flags that were given, with their values. */
  datatype Flags = Flags(
    lores: Wrappers.Option<int>,
    stride: Wrappers.Option<int>,
    size: Wrappers.Option<int>,
    nspokes: Wrappers.Option<int>,
    echoes: Wrappers.Option<int>,
    spe: Wrappers.Option<int>,
    step: Wrappers.Option<int>)

  /** Why the command stops: the spokes-per-echo check (whose message prints
      `spe * nE`), an invalid lo-res count, or a `--size` outside the hi-res
      spokes.  The source has no check of its own for the last: the slice
      is out of bounds, which only a debug build's Eigen assertion catches;
      the model reports it as a failure instead. */
  datatype Failure = SpeMismatch(sps: int, spokes: nat) | BadLores(lores: int) | SizeOutOfRange(size: int, spokes: nat)

  /** Values for which the source's arithmetic is defined: positive stride,
      interleave size and step, and positive echo counts when echoes are
      labelled. */
  predicate FlagsValid(f: Flags) {
    && (f.stride.Some? ==> 1 <= f.stride.value)
    && (f.nspokes.Some? ==> 1 <= f.nspokes.value)
    && (f.step.Some? ==> 1 <= f.step.value)
    && (f.echoes.Some? && f.spe.Some? ==> 1 <= f.echoes.value && 1 <= f.spe.value)
  }

  predicate Labelled(f: Flags) {
    f.echoes.Some? && f.spe.Some?
  }

  predicate SpeFails(spokes: nat, f: Flags)
    requires FlagsValid(f)
  {
    Labelled(f) && spokes % f.spe.value != 0
  }

  /** The check of line 28 as written: `spokes % spe` with `spe` the flag
      object itself, which converts to `bool` (1 once the flag is given)
      rather than to its value. */
  predicate SpeFailsAsWritten(spokes: nat, f: Flags) {
    Labelled(f) && spokes % (if f.spe.Some? then 1 else 0) != 0
  }

  /** As written the check never fires: with 10 spokes, 3 spokes per echo and
      2 echoes it lets through a spoke count that 3 does not divide. */
  lemma SpeCheckNeverFires(spokes: nat, f: Flags)
    ensures !SpeFailsAsWritten(spokes, f)
    ensures var g := Flags(Wrappers.None, Wrappers.None, Wrappers.None, Wrappers.None, Wrappers.Some(2), Wrappers.Some(3), Wrappers.None);
      FlagsValid(g) && SpeFails(10, g) && !SpeFailsAsWritten(10, g)
  {
  }

  predicate LoresFails(spokes: nat, f: Flags) {
    f.lores.Some? && (f.lores.value == 0 || Magnitude(f.lores.value) > spokes)
  }

  /** The number of lo-res spokes taken out. */
  function LoCount(f: Flags): nat {
    if f.lores.Some? then Magnitude(f.lores.value) else 0
  }

  /** `lo_st`: where the lo-res k-space spokes start (at the end for a
      negative count). */
  function LoStart(spokes: nat, f: Flags): int {
    if f.lores.Some? && f.lores.value < 0 then spokes + f.lores.value else 0
  }

  /** `hi_st`: where the hi-res k-space spokes start. */
  function HiStart(f: Flags): nat {
    if f.lores.Some? && f.lores.value > 0 then f.lores.value else 0
  }

  /** The spacing of the hi-res spokes kept. */
  function StrideOf(f: Flags): nat
    requires FlagsValid(f)
  {
    if f.stride.Some? then f.stride.value else 1
  }

  /** The hi-res spoke count after striding. */
  function Thinned(spokes: nat, f: Flags): nat
    requires FlagsValid(f) && !LoresFails(spokes, f)
  {
    Ceil(spokes - LoCount(f), StrideOf(f))
  }

  predicate SizeFails(spokes: nat, f: Flags)
    requires FlagsValid(f) && !LoresFails(spokes, f)
  {
    f.size.Some? && !(0 <= f.size.value <= Thinned(spokes, f))
  }

  /** The only failure that comes after a file has been written. */
  predicate LateFailure(spokes: nat, f: Flags)
    requires FlagsValid(f)
  {
    !SpeFails(spokes, f) && !LoresFails(spokes, f) && SizeFails(spokes, f)
  }

  /** The hi-res spoke count written. */
  function Kept(spokes: nat, f: Flags): nat
    requires FlagsValid(f) && !LoresFails(spokes, f) && !SizeFails(spokes, f)
  {
    if f.size.Some? then f.size.value else Thinned(spokes, f)
  }

  /** The echo label of every input spoke: the file's, or the computed ones. */
  function Labels(echoes0: seq<int>, f: Flags): (e: seq<int>)
    requires FlagsValid(f)
    ensures |e| == |echoes0|
  {
    if Labelled(f) then EchoLabels(|echoes0|, f.spe.value, f.echoes.value) else echoes0
  }

  /** The echo count in the header of the hi-res trajectory. */
  function EchoCount(echoCount0: int, f: Flags): int {
    if Labelled(f) then f.echoes.value else echoCount0
  }

  /** The labels of the hi-res spokes: those of the first
      `spokes - LoCount(f)` input spokes, strided and truncated. */
  function HiEchoes(echoes0: seq<int>, f: Flags): (e: seq<int>)
    requires FlagsValid(f) && !LoresFails(|echoes0|, f) && !SizeFails(|echoes0|, f)
    ensures |e| == Kept(|echoes0|, f)
  {
    var x := Labels(echoes0, f)[..|echoes0| - LoCount(f)];
    StrideLength(x, StrideOf(f));
    var y := if f.stride.Some? then Stride(x, f.stride.value) else x;
    if f.size.Some? then y[..f.size.value] else y
  }

  /** Hi-res spoke `i` is labelled as input spoke `i * stride` was, whatever
      its trajectory points and k-space are. */
  lemma HiEchoesAt(echoes0: seq<int>, f: Flags, i: nat)
    requires FlagsValid(f) && !LoresFails(|echoes0|, f) && !SizeFails(|echoes0|, f)
    requires i < Kept(|echoes0|, f)
    ensures i * StrideOf(f) < |echoes0| - LoCount(f)
    ensures HiEchoes(echoes0, f)[i] == Labels(echoes0, f)[i * StrideOf(f)]
  {
    var x := Labels(echoes0, f)[..|echoes0| - LoCount(f)];
    StrideSpec(x, StrideOf(f));
  }

  /** Every hi-res spoke written is an input spoke: its k-space comes from
      spoke `hi_st + i * stride` and its points from `|lores| + i * stride`,
      both below `spokes`. */
  lemma HiresWithin(spokes: nat, f: Flags, i: nat)
    requires FlagsValid(f) && !LoresFails(spokes, f) && !SizeFails(spokes, f)
    requires i < Kept(spokes, f)
    ensures HiStart(f) + i * StrideOf(f) < spokes
    ensures LoCount(f) + i * StrideOf(f) < spokes
  {
    CeilCovers(spokes - LoCount(f), StrideOf(f), i);
  }

  /** The lo-res and hi-res k-space spokes split the input: for a positive
      count the lo-res ones are the first, for a negative one the last, and
      the hi-res ones are all the others. */
  lemma LoresPartition(spokes: nat, f: Flags)
    requires f.lores.Some? && !LoresFails(spokes, f)
    ensures 0 <= LoStart(spokes, f)
    ensures multiset(Affine(LoStart(spokes, f), 1, LoCount(f)) + Affine(HiStart(f), 1, spokes - LoCount(f)))
      == multiset(Affine(0, 1, spokes))
  {
    var m := LoCount(f);
    var lo := Affine(LoStart(spokes, f), 1, m);
    var hi := Affine(HiStart(f), 1, spokes - m);
    if f.lores.value > 0 {
      assert lo + hi == Affine(0, 1, spokes);
    } else {
      assert hi + lo == Affine(0, 1, spokes);
      calc {
        multiset(lo + hi);
        multiset(lo) + multiset(hi);
        multiset(hi + lo);
      }
    }
  }

  /** `parts` are the interleaves of the hi-res spokes `pts`/`ech`/`ks`:
      there are `num_int` of them (none when that is not positive), and
      interleave `k` holds spokes `Start(step, k)` onwards, `Len` of them. */
  predicate IsInterleaving(parts: seq<Written>, pts: seq<nat>, ech: seq<int>, count: int, ks: seq<nat>, ns: nat, step: nat)
    requires 1 <= ns && 1 <= step
  {
    && |parts| == (if NumInt(|ks|, ns, step) < 0 then 0 else NumInt(|ks|, ns, step))
    && forall k :: 0 <= k < |parts| ==>
      var a, n := Start(step, k), Len(|ks|, ns, step, k);
      && a + n <= |ks| && a + n <= |pts| && a + n <= |ech|
      && parts[k] == Written(Interleave(k), Traj(pts[a..a + n], Wrappers.Some(ech[a..a + n]), count), ks[a..a + n])
  }

  /** The interleaves written from hi-res spokes `pts`/`ech`/`ks`: interleave
      `k` holds spokes `step * k` onwards, `ns` of them and the remainder too
      on the last one. */
  method Interleaves(pts: seq<nat>, ech: seq<int>, count: int, ks: seq<nat>, ns: nat, step: nat)
    returns (out: seq<Written>)
    requires 1 <= ns && 1 <= step && |pts| == |ks| && |ech| == |ks|
    ensures IsInterleaving(out, pts, ech, count, ks, ns, step)
  {
    var numInt := NumInt(|ks|, ns, step);
    var rem := Rem(|ks|, ns);
    out := [];
    var k: nat := 0;
    while k < numInt
      invariant |out| == k && (k <= numInt || (k == 0 && numInt < 0))
      invariant forall j :: 0 <= j < k ==>
        var a, n := Start(step, j), Len(|ks|, ns, step, j);
        a + n <= |ks| && a + n <= |pts| && a + n <= |ech| && out[j] == Written(Interleave(j), Traj(pts[a..a + n], Wrappers.Some(ech[a..a + n]), count), ks[a..a + n])
    {
      var idx0 := step * k;
      var n := ns + (if k == numInt - 1 then rem else 0);
      InterleaveInRange(|ks|, ns, step, k);
      out := out + [Written(Interleave(k), Traj(pts[idx0..idx0 + n], Wrappers.Some(ech[idx0..idx0 + n]), count), ks[idx0..idx0 + n])];
      k := k + 1;
    }
  }

  /** Lines 52-81: the lo-res file (its points from the first `|lores|`
      input spokes, its k-space from `lo_st`) and the hi-res spokes left (points
      from `|lores|` on, labels from the first spokes, k-space from `hi_st`). */
  method TakeLores(labels: seq<int>, f: Flags)
    returns (lores: Written, pts: seq<nat>, ech: seq<int>, ks: seq<nat>)
    requires f.lores.Some? && !LoresFails(|labels|, f)
    ensures 0 <= LoStart(|labels|, f)
    ensures lores == Written(Lores, Traj(Affine(0, 1, LoCount(f)), Wrappers.None, 1), Affine(LoStart(|labels|, f), 1, LoCount(f)))
    ensures pts == Affine(LoCount(f), 1, |labels| - LoCount(f))
    ensures ech == labels[..|labels| - LoCount(f)]
    ensures ks == Affine(HiStart(f), 1, |labels| - LoCount(f))
  {
    var spokes := |labels|;
    var l := f.lores.value;
    var m := Magnitude(l);
    var loSt := if l < 0 then spokes + l else 0;
    var hiSt := if l < 0 then 0 else l;
    pts := Affine(0, 1, spokes);
    ks := Affine(0, 1, spokes);
    AffineSlice(0, 1, spokes, loSt, m);
    AffineSlice(0, 1, spokes, 0, m);
    lores := Written(Lores, Traj(pts[..m], Wrappers.None, 1), ks[loSt..loSt + m]);
    AffineSlice(0, 1, spokes, m, spokes - m);
    AffineSlice(0, 1, spokes, hiSt, spokes - m);
    assert pts[m..] == pts[m..m + (spokes - m)] && 0 + m * 1 == m && 0 + hiSt * 1 == hiSt;
    pts := pts[m..];
    ech := labels[..spokes - m];
    ks := ks[hiSt..hiSt + spokes - m];
  }

  /** Lines 95-103: every `stride`-th hi-res spoke, when the flag is given. */
  method StrideHires(pts: seq<nat>, ech: seq<int>, ks: seq<nat>, f: Flags, ghost a: nat, ghost b: nat)
    returns (pts': seq<nat>, ech': seq<int>, ks': seq<nat>)
    requires FlagsValid(f)
    requires pts == Affine(a, 1, |ks|) && ks == Affine(b, 1, |ks|) && |ech| == |ks|
    ensures pts' == Affine(a, StrideOf(f), Ceil(|ks|, StrideOf(f)))
    ensures ks' == Affine(b, StrideOf(f), Ceil(|ks|, StrideOf(f)))
    ensures ech' == (if f.stride.Some? then Stride(ech, f.stride.value) else ech) && |ech'| == |ks'|
  {
    pts', ech', ks' := pts, ech, ks;
    if f.stride.Some? {
      var s := f.stride.value;
      StrideAffine(a, |ks|, s);
      StrideAffine(b, |ks|, s);
      StrideLength(ech, s);
      pts' := Stride(pts, s);
      ech' := Stride(ech, s);
      ks' := Stride(ks, s);
    }
  }

  /** Lines 105-114: the first `size` hi-res spokes. */
  method TruncateHires(pts: seq<nat>, ech: seq<int>, ks: seq<nat>, z: nat, ghost a: nat, ghost b: nat, ghost st: nat)
    returns (pts': seq<nat>, ech': seq<int>, ks': seq<nat>)
    requires z <= |ks| && pts == Affine(a, st, |ks|) && ks == Affine(b, st, |ks|) && |ech| == |ks|
    ensures pts' == Affine(a, st, z) && ks' == Affine(b, st, z) && ech' == ech[..z]
  {
    AffineSlice(a, st, |ks|, 0, z);
    AffineSlice(b, st, |ks|, 0, z);
    pts', ech', ks' := pts[..z], ech[..z], ks[..z];
  }

  /** Interleave `k` of an evenly spaced run of hi-res spokes is evenly
      spaced, starting `Start(step, k)` places in, and lies inside the run. */
  lemma InterleavesAffine(parts: seq<Written>, a: nat, b: nat, st: nat, ech: seq<int>, count: int, n: nat, ns: nat, step: nat)
    requires 1 <= ns && 1 <= step
    requires IsInterleaving(parts, Affine(a, st, n), ech, count, Affine(b, st, n), ns, step)
    ensures forall k :: 0 <= k < |parts| ==>
      var i, len := Start(step, k), Len(n, ns, step, k);
      && i + len <= n && i + len <= |ech|
      && parts[k] == Written(Interleave(k), Traj(Affine(a + i * st, st, len), Wrappers.Some(ech[i..i + len]), count), Affine(b + i * st, st, len))
  {
    forall k | 0 <= k < |parts|
      ensures var i, len := Start(step, k), Len(n, ns, step, k);
        i + len <= n && i + len <= |ech|
        && parts[k] == Written(Interleave(k), Traj(Affine(a + i * st, st, len), Wrappers.Some(ech[i..i + len]), count), Affine(b + i * st, st, len))
    {
      AffineSlice(a, st, n, Start(step, k), Len(n, ns, step, k));
      AffineSlice(b, st, n, Start(step, k), Len(n, ns, step, k));
    }
  }

  /** Lines 95-147: stride and truncate the hi-res spokes left after the
      lo-res ones are taken out, then write them as one file or as
      interleaves; fails when `--size` exceeds the spokes left. */
  method WriteHires(echoes0: seq<int>, count: int, f: Flags, pts: seq<nat>, ech: seq<int>, ks: seq<nat>)
    returns (parts: seq<Written>, failure: Wrappers.Option<Failure>)
    requires FlagsValid(f) && !LoresFails(|echoes0|, f)
    requires pts == Affine(LoCount(f), 1, |echoes0| - LoCount(f))
    requires ks == Affine(HiStart(f), 1, |echoes0| - LoCount(f))
    requires ech == Labels(echoes0, f)[..|echoes0| - LoCount(f)]
    ensures failure.Some? <==> SizeFails(|echoes0|, f)
    ensures failure.Some? ==> failure.value == SizeOutOfRange(f.size.value, Thinned(|echoes0|, f)) && parts == []
    ensures failure.None? && f.nspokes.None? ==>
      var st, n := StrideOf(f), Kept(|echoes0|, f);
      parts == [Written(Hires, Traj(Affine(LoCount(f), st, n), Wrappers.Some(HiEchoes(echoes0, f)), count), Affine(HiStart(f), st, n))]
    ensures failure.None? && f.nspokes.Some? ==>
      var st, n := StrideOf(f), Kept(|echoes0|, f);
      var ns := f.nspokes.value;
      var step := if f.step.Some? then f.step.value else ns;
      IsInterleaving(parts, Affine(LoCount(f), st, n), HiEchoes(echoes0, f), count, Affine(HiStart(f), st, n), ns, step)
  {
    failure := Wrappers.None;
    var hp, he, hk := pts, ech, ks;
    hp, he, hk := StrideHires(hp, he, hk, f, LoCount(f), HiStart(f));
    if f.size.Some? {
      var z := f.size.value;
      if z < 0 || z > |hk| {
        parts, failure := [], Wrappers.Some(SizeOutOfRange(z, |hk|));
        return;
      }
      hp, he, hk := TruncateHires(hp, he, hk, z, LoCount(f), HiStart(f), StrideOf(f));
    }
    assert he == HiEchoes(echoes0, f);
    if f.nspokes.Some? {
      var ns := f.nspokes.value;
      var step := if f.step.Some? then f.step.value else ns;
      parts := Interleaves(hp, he, count, hk, ns, step);
    } else {
      parts := [Written(Hires, Traj(hp, Wrappers.Some(he), count), hk)];
    }
  }

  /** `main_split` after the input is read: the input trajectory carries the
      echo labels `echoes0` (one per spoke) and the echo count `echoCount0`.
      Returns the files written, in order, and the failure that stopped the
      command, if any; a failure comes before any file is written, except a
      bad `--size`, which comes after the lo-res file. */
  method Run(echoes0: seq<int>, echoCount0: int, f: Flags)
    returns (written: seq<Written>, failure: Wrappers.Option<Failure>)
    requires FlagsValid(f)
    ensures SpeFails(|echoes0|, f) ==> failure == Wrappers.Some(SpeMismatch(f.spe.value * f.echoes.value, |echoes0|))
    ensures !SpeFails(|echoes0|, f) && LoresFails(|echoes0|, f) ==> failure == Wrappers.Some(BadLores(f.lores.value))
    ensures LateFailure(|echoes0|, f) ==> failure == Wrappers.Some(SizeOutOfRange(f.size.value, Thinned(|echoes0|, f)))
    ensures failure.None? <==> !SpeFails(|echoes0|, f) && !LoresFails(|echoes0|, f) && !SizeFails(|echoes0|, f)
    ensures failure.Some? && !LateFailure(|echoes0|, f) ==> written == []
    ensures (failure.None? || LateFailure(|echoes0|, f)) && f.lores.Some? ==>
      var m := LoCount(f);
      1 <= |written| && 0 <= LoStart(|echoes0|, f)
      && written[0] == Written(Lores, Traj(Affine(0, 1, m), Wrappers.None, 1), Affine(LoStart(|echoes0|, f), 1, m))
    ensures LateFailure(|echoes0|, f) ==> |written| == if f.lores.Some? then 1 else 0
    ensures failure.None? && f.nspokes.None? ==>
      var lo, st, n := if f.lores.Some? then 1 else 0, StrideOf(f), Kept(|echoes0|, f);
      |written| == lo + 1
      && written[lo] == Written(Hires, Traj(Affine(LoCount(f), st, n), Wrappers.Some(HiEchoes(echoes0, f)), EchoCount(echoCount0, f)), Affine(HiStart(f), st, n))
    ensures failure.None? && f.nspokes.Some? ==>
      var lo, st, n := if f.lores.Some? then 1 else 0, StrideOf(f), Kept(|echoes0|, f);
      var ns := f.nspokes.value;
      var step := if f.step.Some? then f.step.value else ns;
      lo <= |written|
      && IsInterleaving(written[lo..], Affine(LoCount(f), st, n), HiEchoes(echoes0, f), EchoCount(echoCount0, f), Affine(HiStart(f), st, n), ns, step)
  {
    var spokes := |echoes0|;
    written, failure := [], Wrappers.None;
    var labels := echoes0;
    var count := echoCount0;
    if f.echoes.Some? && f.spe.Some? {
      if spokes % f.spe.value != 0 {
        failure := Wrappers.Some(SpeMismatch(f.spe.value * f.echoes.value, spokes));
        return;
      }
      labels := EchoLabels(spokes, f.spe.value, f.echoes.value);
      count := f.echoes.value;
    }
    var pts, ech, ks := Affine(0, 1, spokes), labels[..spokes], Affine(0, 1, spokes);
    if f.lores.Some? {
      if f.lores.value == 0 || Magnitude(f.lores.value) > spokes {
        failure := Wrappers.Some(BadLores(f.lores.value));
        return;
      }
      var lores;
      lores, pts, ech, ks := TakeLores(labels, f);
      written := [lores];
    }
    assert !SpeFails(spokes, f) && !LoresFails(spokes, f);
    assert labels == Labels(echoes0, f) && count == EchoCount(echoCount0, f);
    var hires;
    hires, failure := WriteHires(echoes0, count, f, pts, ech, ks);
    written := written + hires;
  }
}
