/** The dataset layout chosen by the HDF5 writer (src/io/writer.cpp): the
    dimensions reversed from column-major to row-major order, and chunk
    dimensions halved round-robin until a chunk is at most 4 GiB. */
module Writer {
  import Wrappers

  function Pow2(n: nat): (p: nat)
    ensures p >= 1
  {
    if n == 0 then 1 else 2 * Pow2(n - 1)
  }

  lemma {:induction false} Pow2Add(a: nat, b: nat)
    ensures Pow2(a + b) == Pow2(a) * Pow2(b)
  {
    if b > 0 {
      Pow2Add(a, b - 1);
      assert Pow2(a + b) == 2 * Pow2(a + b - 1);
    }
  }

  /** `s` doubled `k` times, that is `s * 2^k`. */
  function Scaled(s: nat, k: nat): nat {
    if k == 0 then s else 2 * Scaled(s, k - 1)
  }

  lemma {:induction false} ScaledIsProduct(s: nat, k: nat)
    ensures Scaled(s, k) == s * Pow2(k)
  {
    if k > 0 {
      ScaledIsProduct(s, k - 1);
      assert s * Pow2(k) == 2 * (s * Pow2(k - 1));
    }
  }

  /** The number of times a positive extent can be halved (rounding down)
      before it reaches 1. */
  function Log2(x: nat): nat {
    if x <= 1 then 0 else 1 + Log2(x / 2)
  }

  lemma {:induction false} Log2Bounds(x: nat)
    requires x >= 1
    ensures Pow2(Log2(x)) <= x < Pow2(Log2(x) + 1)
  {
    if x > 1 {
      Log2Bounds(x / 2);
    }
  }

  /** `x` halved `n` times, rounding down each time. */
  function Halve(x: nat, n: nat): nat {
    if n == 0 then x else Halve(x, n - 1) / 2
  }

  function Product(s: seq<nat>): nat {
    if |s| == 0 then 1 else Product(s[..|s| - 1]) * s[|s| - 1]
  }

  /** The sum of the first `j` entries. */
  function SumUpTo(s: seq<nat>, j: nat): nat
    requires j <= |s|
  {
    if j == 0 then 0 else SumUpTo(s, j - 1) + s[j - 1]
  }

  function Sum(s: seq<nat>): nat {
    SumUpTo(s, |s|)
  }

  /** The halvings still available in the first `j` chunk dimensions. */
  function RoomUpTo(c: seq<nat>, j: nat): nat
    requires j <= |c|
  {
    if j == 0 then 0 else RoomUpTo(c, j - 1) + Log2(c[j - 1])
  }

  /** The halvings still available across all chunk dimensions. */
  function Room(c: seq<nat>): nat {
    RoomUpTo(c, |c|)
  }

  function Reverse<T>(s: seq<T>): (r: seq<T>)
    ensures |r| == |s|
    ensures forall i :: 0 <= i < |s| ==> r[i] == s[|s| - 1 - i]
  {
    if |s| == 0 then [] else [s[|s| - 1]] + Reverse(s[..|s| - 1])
  }

  lemma {:induction false} SumUpdate(s: seq<nat>, i: nat, v: nat, j: nat)
    requires i < |s| && j <= |s|
    ensures i < j ==> SumUpTo(s[i := v], j) + s[i] == SumUpTo(s, j) + v
    ensures j <= i ==> SumUpTo(s[i := v], j) == SumUpTo(s, j)
  {
    if j > 0 {
      SumUpdate(s, i, v, j - 1);
    }
  }

  lemma {:induction false} RoomUpdate(c: seq<nat>, i: nat, v: nat, j: nat)
    requires i < |c| && j <= |c|
    ensures i < j ==> RoomUpTo(c[i := v], j) + Log2(c[i]) == RoomUpTo(c, j) + Log2(v)
    ensures j <= i ==> RoomUpTo(c[i := v], j) == RoomUpTo(c, j)
  {
    if j > 0 {
      RoomUpdate(c, i, v, j - 1);
    }
  }

  /** Room depends only on the dimensions it covers. */
  lemma {:induction false} RoomPrefix(c: seq<nat>, j: nat, k: nat)
    requires j <= k <= |c|
    ensures RoomUpTo(c[..k], j) == RoomUpTo(c, j)
  {
    if j > 0 {
      RoomPrefix(c, j - 1, k);
    }
  }

  lemma {:induction false} RoomReverseUpTo(s: seq<nat>, j: nat)
    requires j <= |s|
    ensures RoomUpTo(Reverse(s), j) + RoomUpTo(s, |s| - j) == Room(s)
  {
    if j > 0 {
      RoomReverseUpTo(s, j - 1);
    }
  }

  lemma RoomReverse(s: seq<nat>)
    ensures Room(Reverse(s)) == Room(s)
  {
    RoomReverseUpTo(s, |s|);
  }

  /** With no room left, every chunk dimension is 1. */
  lemma {:induction false} NoRoomAllOnes(c: seq<nat>, i: nat, j: nat)
    requires j <= |c| && RoomUpTo(c, j) == 0 && i < j
    ensures c[i] <= 1
  {
    if i < j - 1 {
      NoRoomAllOnes(c, i, j - 1);
    }
  }

  lemma {:induction false} AllOnesNoRoom(c: seq<nat>, j: nat)
    requires j <= |c| && forall i :: 0 <= i < |c| ==> c[i] <= 1
    ensures RoomUpTo(c, j) == 0
  {
    if j > 0 {
      AllOnesNoRoom(c, j - 1);
    }
  }

  lemma MulStrict(a: nat, b: nat, A: nat, B: nat)
    requires a < A && b < B
    ensures a * b < A * B
  {
    assert a * b <= a * B;
    assert a * B < A * B;
  }

  lemma MulLe(p: nat, q: nat, s: nat)
    requires p <= q
    ensures p * s <= s * q
  {
    assert (q - p) * s >= 0;
  }

  /** A product of positive extents is at most 2 to the power of their room
      plus their count. */
  lemma {:induction false} ProductBound(s: seq<nat>)
    requires forall i :: 0 <= i < |s| ==> s[i] >= 1
    ensures Product(s) <= Pow2(Room(s) + |s|)
  {
    if |s| > 0 {
      var init, last := s[..|s| - 1], s[|s| - 1];
      var a, b := Room(init) + |init|, Log2(last) + 1;
      ProductBound(init);
      RoomPrefix(s, |init|, |init|);
      Log2Bounds(last);
      MulLe(Product(init), Pow2(a), last);
      MulLe(last, Pow2(b), Pow2(a));
      Pow2Add(a, b);
      assert Product(s) == Product(init) * last;
      assert Room(s) + |s| == a + b;
    }
  }

  /** Replacing entry `i` by `v` scales the product by `v / s[i]`. */
  lemma {:induction false} ProductUpdate(s: seq<nat>, i: nat, v: nat)
    requires i < |s|
    ensures Product(s[i := v]) * s[i] == Product(s) * v
  {
    var n := |s|;
    var init := s[..n - 1];
    if i == n - 1 {
      assert s[i := v][..n - 1] == init;
    } else {
      assert s[i := v][..n - 1] == init[i := v];
      ProductUpdate(init, i, v);
      MulSwap(Product(init[i := v]), s[n - 1], s[i], Product(init), v);
    }
  }

  lemma MulSwap(a: nat, l: nat, x: nat, b: nat, v: nat)
    requires a * x == b * v
    ensures (a * l) * x == (b * l) * v
  {
    calc {
      (a * l) * x;
      (a * x) * l;
      (b * v) * l;
      (b * l) * v;
    }
  }

  lemma {:induction false} ProductCons(x: nat, t: seq<nat>)
    ensures Product([x] + t) == x * Product(t)
  {
    if |t| > 0 {
      var init := t[..|t| - 1];
      assert ([x] + t)[..|t|] == [x] + init;
      ProductCons(x, init);
      assert Product([x] + t) == (x * Product(init)) * t[|t| - 1];
    } else {
      assert [x] + t == [x] && [x][..0] == [];
    }
  }

  /** Reversing the dimensions keeps the number of elements. */
  lemma {:induction false} ProductReverse(s: seq<nat>)
    ensures Product(Reverse(s)) == Product(s)
  {
    if |s| > 0 {
      var init := s[..|s| - 1];
      ProductReverse(init);
      ProductCons(s[|s| - 1], Reverse(init));
    }
  }

  /** Halving an extent above 1 at least halves the chunk's bytes, so a
      byte count that covered the chunk before covers it after being halved
      too. */
  lemma ChunkBytesHalve(c: seq<nat>, k: nat, s: nat, size: nat)
    requires k < |c| && c[k] > 1 && Product(c) * s <= size
    ensures Product(c[k := c[k] / 2]) * s <= size / 2
  {
    var v := c[k] / 2;
    ProductUpdate(c, k, v);
    HalfFactor(Product(c[k := v]), Product(c), c[k], v, s, size);
  }

  /** If `q * x == p * v` with `2 * v <= x` and `v >= 1`, then `q` is at
      most half of `p`, and so are the byte counts `q * s` and `p * s`. */
  lemma HalfFactor(q: nat, p: nat, x: nat, v: nat, s: nat, size: nat)
    requires q * x == p * v && 2 * v <= x && 1 <= v && p * s <= size
    ensures q * s <= size / 2
  {
    assert q * (2 * v) <= q * x;
    assert (2 * q) * v <= p * v;
    assert (p - 2 * q) * v >= 0;
    assert 2 * (q * s) <= p * s;
  }

  /** How many steps of the round-robin cursor, starting at `k` and looking
      `d` or more steps ahead, reach a chunk dimension that can still be
      halved; `|c|` when none is found within one round. */
  function Seek(c: seq<nat>, k: nat, d: nat): (e: nat)
    requires k < |c|
    ensures d <= e || e == |c|
    decreases |c| - d
  {
    if d >= |c| then |c|
    else if c[Wrap(k, d, |c|)] > 1 then d
    else Seek(c, k, d + 1)
  }

  /** Cursor position `k + d` taken round a cycle of length `n`. */
  function Wrap(k: nat, d: nat, n: nat): (j: nat)
    requires k < n && d < n
    ensures j < n
  {
    if k + d < n then k + d else k + d - n
  }

  lemma {:induction false} SeekFinds(c: seq<nat>, k: nat, d: nat, e: nat)
    requires k < |c| && d <= e < |c| && c[Wrap(k, e, |c|)] > 1
    ensures Seek(c, k, d) <= e
    decreases e - d
  {
    if d < e && c[Wrap(k, d, |c|)] <= 1 {
      SeekFinds(c, k, d + 1, e);
    }
  }

  lemma {:induction false} SeekAdvance(c: seq<nat>, k: nat, d: nat)
    requires k < |c| && 1 <= d && Seek(c, k, d) < |c|
    ensures Seek(c, if k + 1 < |c| then k + 1 else 0, d - 1) == Seek(c, k, d) - 1
    decreases |c| - d
  {
    if c[Wrap(k, d, |c|)] <= 1 {
      SeekAdvance(c, k, d + 1);
    }
  }

  /** While some chunk dimension can be halved, the cursor reaches one within
      a round. */
  lemma SeekWithinRound(c: seq<nat>, k: nat)
    requires k < |c| && Room(c) > 0
    ensures Seek(c, k, 0) < |c|
  {
    var j :| 0 <= j < |c| && c[j] > 1 by {
      if forall j :: 0 <= j < |c| ==> c[j] <= 1 {
        AllOnesNoRoom(c, |c|);
      }
    }
    var e := if j >= k then j - k else j + |c| - k;
    SeekFinds(c, k, 0, e);
  }

  /** The largest chunk the writer accepts, 4 GiB. */
  const Limit: nat := 0x1_0000_0000

  /** The state of `writeTensor`'s chunk loop: the chunk extents, the
      cursor `dimToShrink` and the byte count. */
  datatype Cursor = Cursor(chunk: seq<nat>, k: nat, size: nat)

  /** One pass of the loop body: the extent under the cursor is halved
      together with the byte count when it exceeds 1, and the cursor moves
      on round-robin. */
  function Turn(c: Cursor): (d: Cursor)
    requires c.k < |c.chunk|
    ensures |d.chunk| == |c.chunk| && d.k < |d.chunk|
  {
    var next := if c.k + 1 < |c.chunk| then c.k + 1 else 0;
    if c.chunk[c.k] > 1 then Cursor(c.chunk[c.k := c.chunk[c.k] / 2], next, c.size / 2)
    else Cursor(c.chunk, next, c.size)
  }

  /** The loop state after `n` passes. */
  function Turns(c: Cursor, n: nat): (d: Cursor)
    requires c.k < |c.chunk|
    ensures |d.chunk| == |c.chunk| && d.k < |d.chunk|
  {
    if n == 0 then c else Turn(Turns(c, n - 1))
  }

  /** The byte count was above 4 GiB before each of the first `n` passes
      of the loop started on dimensions `ds` and `start` bytes. */
  ghost predicate Running(ds: seq<nat>, start: nat, n: nat)
    requires |ds| >= 1
  {
    n == 0 || (Running(ds, start, n - 1) && Turns(Cursor(ds, 0, start), n - 1).size > Limit)
  }

  lemma {:induction false} RunningBefore(ds: seq<nat>, start: nat, n: nat, m: nat)
    requires |ds| >= 1 && Running(ds, start, n) && m < n
    ensures Turns(Cursor(ds, 0, start), m).size > Limit
  {
    if m < n - 1 {
      RunningBefore(ds, start, n - 1, m);
    }
  }

  /** The loop started on dimensions `ds` and `start` bytes stops after
      exactly `n` passes: the byte count is within 4 GiB then and above it
      before. */
  ghost predicate StopsAt(ds: seq<nat>, start: nat, n: nat)
    requires |ds| >= 1
  {
    Turns(Cursor(ds, 0, start), n).size <= Limit && Running(ds, start, n)
  }

  /** `ch` is the chunk the loop leaves when it stops. */
  ghost predicate ShrunkTo(ds: seq<nat>, start: nat, ch: seq<nat>)
    requires |ds| >= 1
  {
    exists n: nat :: StopsAt(ds, start, n) && Turns(Cursor(ds, 0, start), n).chunk == ch
  }

  /** The loop stops after one number of passes only, so the chunk it leaves
      is determined by the dimensions and the starting byte count. */
  lemma ShrunkUnique(ds: seq<nat>, start: nat, c1: seq<nat>, c2: seq<nat>)
    requires |ds| >= 1 && ShrunkTo(ds, start, c1) && ShrunkTo(ds, start, c2)
    ensures c1 == c2
  {
    var n1: nat :| StopsAt(ds, start, n1) && Turns(Cursor(ds, 0, start), n1).chunk == c1;
    var n2: nat :| StopsAt(ds, start, n2) && Turns(Cursor(ds, 0, start), n2).chunk == c2;
    if n1 < n2 {
      RunningBefore(ds, start, n2, n1);
    } else if n2 < n1 {
      RunningBefore(ds, start, n1, n2);
    }
  }

  /** The loop state is reached after `turns` passes, none of which found
      the byte count within 4 GiB, and the byte count covers the chunk's
      bytes.  The first is stated for every `n` equal to `turns`, which
      lets the solver unfold `Turns` only where a proof asks for it. */
  ghost predicate Follows(ds: seq<nat>, start: nat, s: nat, c: Cursor, turns: nat)
  {
    && |ds| >= 1 && c.k < |c.chunk|
    && (forall n: nat :: n == turns ==> c == Turns(Cursor(ds, 0, start), n))
    && Product(c.chunk) * s <= c.size
    && Running(ds, start, turns)
  }

  /** Once the byte count is within 4 GiB the loop has stopped, leaving a
      chunk of at most that many bytes. */
  lemma FollowsStops(ds: seq<nat>, start: nat, s: nat, c: Cursor, turns: nat)
    requires Follows(ds, start, s, c, turns) && c.size <= Limit
    ensures ShrunkTo(ds, start, c.chunk) && Product(c.chunk) * s <= c.size
  {
    assert StopsAt(ds, start, turns);
  }

  /** A pass taken while the byte count exceeds 4 GiB, from `c` to `d`,
      keeps `Follows`. */
  lemma FollowsTurn(ds: seq<nat>, start: nat, s: nat, c: Cursor, turns: nat, d: Cursor)
    requires Follows(ds, start, s, c, turns) && c.size > Limit
    requires d.chunk == c.chunk[c.k := if c.chunk[c.k] > 1 then c.chunk[c.k] / 2 else c.chunk[c.k]]
    requires d.size == (if c.chunk[c.k] > 1 then c.size / 2 else c.size) && d.k == if c.k + 1 < |c.chunk| then c.k + 1 else 0
    ensures d == Turn(c) && Follows(ds, start, s, d, turns + 1)
  {
    if c.chunk[c.k] > 1 {
      ChunkBytesHalve(c.chunk, c.k, s, c.size);
    } else {
      assert d.chunk == c.chunk;
    }
    assert d == Turn(c);
  }

  /** The layout of a tensor dataset. */
  datatype Layout = Layout(dims: seq<nat>, chunk: seq<nat>)

  /** `writeTensor`'s layout arithmetic for a tensor of `shape` with elements
      of `scalarSize` bytes: it fails on any zero dimension; otherwise the
      dataset dimensions are `shape` reversed and the chunk dimensions are
      those `ShrinkChunk` leaves.

      The source instantiates this for ranks 1 to 6 and elements of 4 or 8
      bytes; what the loop needs is that `scalarSize * 2^rank` is at most
      4 GiB, which all of those meet. */
  method TensorLayout(shape: seq<nat>, scalarSize: nat) returns (r: Wrappers.Result<Layout, string>)
    requires |shape| >= 1 && scalarSize >= 1
    requires Scaled(scalarSize, |shape|) <= Limit
    ensures r.Err? <==> 0 in shape
    ensures r.Ok? ==> var ds, ch := r.value.dims, r.value.chunk;
      && ds == Reverse(shape)
      && ShrunkTo(ds, Product(shape) * scalarSize, ch)
      && |ch| == |ds|
      && (forall i :: 0 <= i < |ds| ==> 1 <= ch[i] <= ds[i])
      && (exists h: seq<nat> :: |h| == |ds|
            && (forall i :: 0 <= i < |ds| ==> ch[i] == Halve(ds[i], h[i]))
            && Product(ch) * scalarSize <= Halve(Product(shape) * scalarSize, Sum(h)) <= Limit
            && (Sum(h) > 0 ==> Halve(Product(shape) * scalarSize, Sum(h)) >= Limit / 2))
      && (Product(shape) * scalarSize <= Limit ==> ch == ds)
  {
    var n := |shape|;
    var ii := 0;
    while ii < n
      invariant 0 <= ii <= n
      invariant forall j :: 0 <= j < ii ==> shape[j] != 0
    {
      if shape[ii] == 0 {
        return Wrappers.Err("Tensor had a zero dimension");
      }
      ii := ii + 1;
    }
    var ds := Reverse(shape);
    var sizeInBytes := Product(shape) * scalarSize;
    InitialRoom(shape, scalarSize);
    ProductReverse(shape);
    var chunk, h := ShrinkChunk(ds, scalarSize, sizeInBytes);
    r := Wrappers.Ok(Layout(ds, chunk));
  }

  /** The starting byte count is below the bound the shrinking loop keeps. */
  lemma InitialRoom(shape: seq<nat>, scalarSize: nat)
    requires forall i :: 0 <= i < |shape| ==> shape[i] != 0
    ensures Product(shape) * scalarSize <= Scaled(scalarSize, Room(Reverse(shape)) + |shape|)
  {
    RoomReverse(shape);
    ProductBound(shape);
    ScaledIsProduct(scalarSize, Room(shape) + |shape|);
    MulLe(Product(shape), Pow2(Room(shape) + |shape|), scalarSize);
  }

  /** The chunk loop of `writeTensor`: starting from the dataset dimensions
      `ds` and `start` bytes, while the chunk exceeds 4 GiB the cursor visits
      the dimensions in turn, halving (rounding down) each extent above 1 it
      visits together with the byte count.  The chunk left is the one the
      round-robin passes of `Turn` reach when they stop, and `h[i]` counts
      the halvings of dimension `i`.  The byte count is a counter: it covers
      the chunk's bytes but can exceed them, as a halved odd extent loses
      more than half. */
  method ShrinkChunk(ds: seq<nat>, scalarSize: nat, start: nat) returns (ch: seq<nat>, ghost h: seq<nat>)
    requires |ds| >= 1 && forall i :: 0 <= i < |ds| ==> ds[i] >= 1
    requires Scaled(scalarSize, |ds|) <= Limit
    requires start == Product(ds) * scalarSize
    requires start <= Scaled(scalarSize, Room(ds) + |ds|)
    ensures ShrunkTo(ds, start, ch)
    ensures |ch| == |ds| && |h| == |ds|
    ensures forall i :: 0 <= i < |ds| ==> 1 <= ch[i] <= ds[i] && ch[i] == Halve(ds[i], h[i])
    ensures Product(ch) * scalarSize <= Halve(start, Sum(h)) <= Limit
    ensures Sum(h) > 0 ==> Halve(start, Sum(h)) >= Limit / 2 && start > Limit
    ensures Sum(h) == 0 ==> ch == ds
  {
    var n := |ds|;
    var chunk := new nat[n](i requires 0 <= i < n => ds[i]);
    var sizeInBytes: nat := start;
    var dimToShrink := 0;
    h := seq(n, i => 0);
    ghost var total: nat := 0;
    assert chunk[..] == ds;
    ghost var cs := chunk[..];
    ghost var cap: nat := Scaled(scalarSize, Room(cs) + n);
    ghost var turns: nat := 0;
    ShrinkingBegins(ds, start, scalarSize, h, cap);
    while sizeInBytes > Limit
      invariant 0 <= dimToShrink < n && chunk.Length == n && |cs| == n
      invariant cs == chunk[..]
      invariant Shrinking(ds, start, scalarSize, Cursor(cs, dimToShrink, sizeInBytes), h, total, cap, turns)
      decreases Room(cs), Seek(cs, dimToShrink, 0)
    {
      dimToShrink, sizeInBytes, h, cs, total, cap := Pass(chunk, dimToShrink, sizeInBytes, ds, h, cs, total, cap, start, scalarSize, turns);
      turns := turns + 1;
    }
    ch := chunk[..];
    ShrinkingEnds(ds, start, scalarSize, Cursor(cs, dimToShrink, sizeInBytes), h, total, cap, turns);
  }

  /** The chunk loop's invariant holds before the first pass. */
  lemma ShrinkingBegins(ds: seq<nat>, start: nat, s: nat, h: seq<nat>, cap: nat)
    requires |ds| >= 1 && forall i :: 0 <= i < |ds| ==> ds[i] >= 1
    requires start == Product(ds) * s && start <= cap == Scaled(s, Room(ds) + |ds|)
    requires |h| == |ds| && forall i :: 0 <= i < |h| ==> h[i] == 0
    ensures Shrinking(ds, start, s, Cursor(ds, 0, start), h, 0, cap, 0)
  {
    AllZeroSum(h, |h|);
    assert ds == HalvedBy(ds, h);
  }

  /** What the chunk loop leaves once the byte count is within 4 GiB. */
  lemma ShrinkingEnds(ds: seq<nat>, start: nat, s: nat, c: Cursor, h: seq<nat>, total: nat, cap: nat, turns: nat)
    requires Shrinking(ds, start, s, c, h, total, cap, turns) && c.size <= Limit
    ensures ShrunkTo(ds, start, c.chunk)
    ensures |c.chunk| == |ds| && |h| == |ds|
    ensures forall i :: 0 <= i < |ds| ==> 1 <= c.chunk[i] <= ds[i] && c.chunk[i] == Halve(ds[i], h[i])
    ensures Product(c.chunk) * s <= Halve(start, Sum(h)) <= Limit
    ensures Sum(h) > 0 ==> Halve(start, Sum(h)) >= Limit / 2 && start > Limit
    ensures Sum(h) == 0 ==> c.chunk == ds
  {
    FollowsStops(ds, start, s, c, turns);
    if total == 0 {
      NoHalvings(ds, h);
    }
  }

  /** Each extent of `ds` halved as many times as `h` says. */
  function HalvedBy(ds: seq<nat>, h: seq<nat>): (c: seq<nat>)
    requires |h| == |ds|
    ensures |c| == |ds| && forall i :: 0 <= i < |ds| ==> c[i] == Halve(ds[i], h[i])
  {
    seq(|ds|, i requires 0 <= i < |ds| => Halve(ds[i], h[i]))
  }

  /** One more halving of dimension `k`: its count goes up by one, and so
      does the total. */
  lemma CountStep(ds: seq<nat>, h: seq<nat>, k: nat) returns (h': seq<nat>)
    requires |h| == |ds| && k < |ds|
    ensures h' == h[k := h[k] + 1]
    ensures HalvedBy(ds, h') == HalvedBy(ds, h)[k := HalvedBy(ds, h)[k] / 2]
    ensures Sum(h') == Sum(h) + 1
  {
    h' := h[k := h[k] + 1];
    SumUpdate(h, k, h[k] + 1, |h|);
  }

  /** What the chunk loop keeps track of: `cs` holds each extent of `ds`
      halved `h[i]` times, all within `[1, ds[i]]`; the byte count is `start`
      halved `total` times, one per extent halving; it is within the bound
      `cap` that the remaining room allows; and once anything was halved the
      byte count started above 4 GiB and never fell below 2 GiB. */
  ghost predicate Tracked(ds: seq<nat>, h: seq<nat>, cs: seq<nat>, total: nat, size: nat, cap: nat, start: nat, s: nat)
  {
    && |h| == |ds| == |cs|
    && (forall i :: 0 <= i < |ds| ==> 1 <= cs[i] <= ds[i])
    && cs == HalvedBy(ds, h)
    && total == Sum(h)
    && size == Halve(start, total)
    && size <= cap && cap == Scaled(s, Room(cs) + |ds|)
    && (total > 0 ==> size >= Limit / 2 && start > Limit)
  }

  /** The chunk loop's invariant: what `Tracked` and `Follows` say of the
      loop state `c`. */
  ghost predicate Shrinking(ds: seq<nat>, start: nat, s: nat, c: Cursor, h: seq<nat>, total: nat, cap: nat, turns: nat)
  {
    && c.k < |ds|
    && Tracked(ds, h, c.chunk, total, c.size, cap, start, s)
    && Follows(ds, start, s, c, turns)
  }

  /** One pass of the chunk loop while the chunk exceeds 4 GiB: a visit of
      the cursor, which then moves on round-robin. */
  method Pass(chunk: array<nat>, k: nat, size: nat,
              ghost ds: seq<nat>, ghost h: seq<nat>, ghost cs: seq<nat>, ghost total: nat, ghost cap: nat,
              ghost start: nat, ghost s: nat, ghost turns: nat)
    returns (k': nat, size': nat, ghost h': seq<nat>, ghost cs': seq<nat>, ghost total': nat, ghost cap': nat)
    requires chunk.Length == |ds| && cs == chunk[..]
    requires Scaled(s, |ds|) <= Limit && size > Limit
    requires Shrinking(ds, start, s, Cursor(cs, k, size), h, total, cap, turns)
    modifies chunk
    ensures cs' == chunk[..] && |cs'| == |ds| && k' < |ds|
    ensures Cursor(cs', k', size') == Turn(Cursor(cs, k, size))
    ensures Shrinking(ds, start, s, Cursor(cs', k', size'), h', total', cap', turns + 1)
    ensures Room(cs') < Room(cs) || (Room(cs') == Room(cs) && Seek(cs', k', 0) < Seek(cs, k, 0))
  {
    size', h', cs', total', cap' := Visit(chunk, k, size, ds, h, cs, total, cap, start, s);
    NextCursor(k, chunk.Length);
    k' := (k + 1) % chunk.Length;
    FollowsTurn(ds, start, s, Cursor(cs, k, size), turns, Cursor(cs', k', size'));
  }

  /** One visit of the cursor at dimension `k` while the chunk exceeds 4 GiB:
      an extent above 1 is halved together with the byte count, an extent of
      1 is left alone.  The ghost results follow the halving. */
  method Visit(chunk: array<nat>, k: nat, size: nat,
               ghost ds: seq<nat>, ghost h: seq<nat>, ghost cs: seq<nat>, ghost total: nat, ghost cap: nat,
               ghost start: nat, ghost s: nat)
    returns (size': nat, ghost h': seq<nat>, ghost cs': seq<nat>, ghost total': nat, ghost cap': nat)
    requires k < chunk.Length == |ds| && cs == chunk[..]
    requires Scaled(s, |ds|) <= Limit && size > Limit
    requires Tracked(ds, h, cs, total, size, cap, start, s)
    modifies chunk
    ensures cs' == chunk[..] && |cs'| == |ds|
    ensures chunk[..] == old(chunk[..])[k := if old(chunk[k]) > 1 then old(chunk[k]) / 2 else old(chunk[k])]
    ensures size' == if old(chunk[k]) > 1 then size / 2 else size
    ensures Tracked(ds, h', cs', total', size', cap', start, s)
    ensures Room(cs') < Room(cs)
         || (Room(cs') == Room(cs) && Seek(cs', if k + 1 < |ds| then k + 1 else 0, 0) < Seek(cs, k, 0))
  {
    RoomLeft(size, s, Room(cs), |ds|);
    SeekWithinRound(cs, k);
    if chunk[k] > 1 {
      chunk[k] := chunk[k] / 2;
      size' := size / 2;
      HalveAtMost(start, total);
      h', cs', cap' := HalveStep(ds, h, cs, k, s, |ds|, size, cap);
      total' := total + 1;
    } else {
      size', h', cs', total', cap' := size, h, cs, total, cap;
      SeekAdvance(cs, k, 1);
    }
  }

  /** One halving of extent `k`: the per-dimension counts, the extents and
      the loop's byte bound after it. */
  lemma HalveStep(ds: seq<nat>, h: seq<nat>, c: seq<nat>, k: nat, s: nat, n: nat, size: nat, cap: nat)
    returns (h': seq<nat>, c': seq<nat>, cap': nat)
    requires |h| == |ds| == |c| == n && k < n && c[k] > 1
    requires forall i :: 0 <= i < n ==> 1 <= c[i] <= ds[i]
    requires c == HalvedBy(ds, h)
    requires size <= cap && cap == Scaled(s, Room(c) + n)
    ensures |h'| == |c'| == n
    ensures h' == h[k := h[k] + 1] && Sum(h') == Sum(h) + 1
    ensures c' == c[k := c[k] / 2] && c' == HalvedBy(ds, h')
    ensures forall i :: 0 <= i < n ==> 1 <= c'[i] <= ds[i]
    ensures size / 2 <= cap' && cap' == Scaled(s, Room(c') + n)
    ensures Room(c') < Room(c)
  {
    h' := CountStep(ds, h, k);
    HalvingKeepsBound(c, k, size, s, n);
    c' := c[k := c[k] / 2];
    cap' := Scaled(s, Room(c') + n);
  }

  lemma {:induction false} HalveAtMost(x: nat, n: nat)
    ensures Halve(x, n) <= x
  {
    if n > 0 {
      HalveAtMost(x, n - 1);
    }
  }

  /** With no halvings counted, every extent is as it started. */
  lemma NoHalvings(ds: seq<nat>, h: seq<nat>)
    requires |h| == |ds| && Sum(h) == 0
    ensures HalvedBy(ds, h) == ds
  {
    forall i | 0 <= i < |ds| ensures h[i] == 0 {
      SumAtLeast(h, i, |h|);
    }
  }

  lemma {:induction false} SumAtLeast(h: seq<nat>, i: nat, j: nat)
    requires i < j <= |h|
    ensures h[i] <= SumUpTo(h, j)
  {
    if i < j - 1 {
      SumAtLeast(h, i, j - 1);
    }
  }

  /** A byte count above 4 GiB within the loop's bound leaves room to halve. */
  lemma RoomLeft(size: nat, s: nat, room: nat, n: nat)
    requires size > Limit && Scaled(s, n) <= Limit
    requires size <= Scaled(s, room + n)
    ensures room > 0
  {
  }

  /** Halving one chunk extent above 1 uses up one unit of room, and the
      halved byte count stays within the loop's bound. */
  lemma HalvingKeepsBound(c: seq<nat>, k: nat, size: nat, s: nat, n: nat)
    requires k < |c| && c[k] > 1
    requires size <= Scaled(s, Room(c) + n)
    ensures Room(c[k := c[k] / 2]) < Room(c)
    ensures size / 2 <= Scaled(s, Room(c[k := c[k] / 2]) + n)
  {
    var v := c[k] / 2;
    assert Log2(c[k]) == Log2(v) + 1;
    RoomUpdate(c, k, v, |c|);
    var r := Room(c[k := v]);
    assert Scaled(s, r + 1 + n) == 2 * Scaled(s, r + n);
  }

  lemma NextCursor(k: nat, n: nat)
    requires k < n
    ensures (k + 1) % n == if k + 1 < n then k + 1 else 0
  {
  }

  lemma {:induction false} AllZeroSum(h: seq<nat>, j: nat)
    requires j <= |h| && forall i :: 0 <= i < |h| ==> h[i] == 0
    ensures SumUpTo(h, j) == 0
  {
    if j > 0 {
      AllZeroSum(h, j - 1);
    }
  }

  /** `writeMatrix`: a matrix with more than one column is stored with rank 2
      and dimensions (columns, rows); any other is stored as a vector of its
      rows. */
  function MatrixDims(rows: nat, cols: nat): (dims: seq<nat>)
    ensures |dims| == 2 <==> cols > 1
    ensures |dims| == 1 <==> cols <= 1
    ensures dims[|dims| - 1] == rows
    ensures |dims| == 2 ==> dims[0] == cols
  {
    if cols > 1 then [cols, rows] else [rows]
  }

  /** The stored dimensions hold exactly the matrix's entries whenever it has
      at least one column. */
  lemma MatrixDimsKeepCount(rows: nat, cols: nat)
    requires cols >= 1
    ensures Product(MatrixDims(rows, cols)) == rows * cols
  {
    if cols > 1 {
      var d := [cols, rows];
      assert d[..1] == [cols] && [cols][..0] == [];
      assert Product([cols]) == cols;
      assert Product(d) == cols * rows;
    } else {
      assert [rows][..0] == [];
    }
  }
}
