/** Nearest-neighbour gridding (src/op/grid-nn.cpp): each entry of a mapping
    ties one non-Cartesian sample (read point, spoke) to one Cartesian cell
    (echo, x, y, z).  `A` gathers cells into samples, `Adj` scatters samples
    back into cells weighted by the sample density compensation, summing
    where several samples share a cell.

    The Cartesian grid is indexed (channel, echo, x, y, z), the non-Cartesian
    data (channel, read, spoke).  Entries are visited in the order of
    `sortedIndices`, one after the other. */
module GridNN {
  import opened Wrappers
  import opened Complex
  import Numerics

  datatype Point = Point(x: int, y: int, z: int)
  datatype Sample = Sample(read: int, spoke: int)
  datatype Cell = Cell(e: int, x: int, y: int, z: int)

  datatype Mapping = Mapping(
    cartDims: Point,
    cart: seq<Point>,
    noncart: seq<Sample>,
    echo: seq<int>,
    sdc: seq<real>,
    sortedIndices: seq<int>)

  /** One cell, sample, echo, weight and sorted index per entry, the sorted
      indices naming entries. */
  predicate Entries(m: Mapping) {
    && |m.noncart| == |m.cart| && |m.echo| == |m.cart| && |m.sdc| == |m.cart|
    && |m.sortedIndices| == |m.cart|
    && (forall ii :: 0 <= ii < |m.sortedIndices| ==> 0 <= m.sortedIndices[ii] < |m.cart|)
  }

  /** Every entry lies inside a grid of `nE` echoes and inside data of
      `nRead` read points by `nSpoke` spokes.  Echo labels are `int8_t`, and
      the grid has at most 128 echoes, so that the last echo index survives
      its conversion to `int8_t` (see `CellOf`). */
  predicate Fits(m: Mapping, nE: int, nRead: int, nSpoke: int) {
    && Entries(m)
    && 1 <= nE <= 128
    && (forall si :: 0 <= si < |m.cart| ==>
         && 0 <= m.cart[si].x < m.cartDims.x && 0 <= m.cart[si].y < m.cartDims.y
         && 0 <= m.cart[si].z < m.cartDims.z
         && 0 <= m.noncart[si].read < nRead && 0 <= m.noncart[si].spoke < nSpoke
         && 0 <= m.echo[si] <= 127)
  }

  /** The shape checks both operators start with: the same channels on both
      sides, the grid as large as the mapping says, and the mapping inside
      both arrays. */
  predicate Shaped(m: Mapping, cart: array5<Cx>, noncart: array3<Cx>) {
    && noncart.Length0 == cart.Length0
    && cart.Length2 == m.cartDims.x && cart.Length3 == m.cartDims.y && cart.Length4 == m.cartDims.z
    && Fits(m, cart.Length1, noncart.Length1, noncart.Length2)
  }

  predicate InSamples(noncart: array3<Cx>, s: Sample) {
    0 <= s.read < noncart.Length1 && 0 <= s.spoke < noncart.Length2
  }

  predicate InCells(cart: array5<Cx>, c: Cell) {
    0 <= c.e < cart.Length1 && 0 <= c.x < cart.Length2 && 0 <= c.y < cart.Length3 && 0 <= c.z < cart.Length4
  }

  /** The sample of the `ii`-th entry visited. */
  function SourceOf(m: Mapping, ii: int): Sample
    requires Entries(m) && 0 <= ii < |m.cart|
  {
    m.noncart[m.sortedIndices[ii]]
  }

  /** The cell of the `ii`-th entry visited: its echo is clamped to the
      last echo index converted to `int8_t`, never raised.  On a grid of at
      most 128 echoes that is the last of the grid's echoes; on a larger
      grid the conversion wraps (to -57 for 200 echoes). */
  function CellOf(m: Mapping, ii: int, nE: int): (c: Cell)
    requires Entries(m) && 0 <= ii < |m.cart|
    ensures var echo := m.echo[m.sortedIndices[ii]];
      && c.e <= echo && c.e <= Numerics.Int8(nE - 1) && (c.e == echo || c.e == Numerics.Int8(nE - 1))
      && c.x == m.cart[m.sortedIndices[ii]].x && c.y == m.cart[m.sortedIndices[ii]].y
      && c.z == m.cart[m.sortedIndices[ii]].z
    ensures 1 <= nE <= 128 ==> var echo := m.echo[m.sortedIndices[ii]];
      c.e <= nE - 1 && (c.e == echo || c.e == nE - 1)
  {
    var si := m.sortedIndices[ii];
    var last := Numerics.Int8(nE - 1);
    Cell(if m.echo[si] < last then m.echo[si] else last, m.cart[si].x, m.cart[si].y, m.cart[si].z)
  }

  lemma CellInside(m: Mapping, cart: array5<Cx>, noncart: array3<Cx>, ii: int)
    requires Shaped(m, cart, noncart) && 0 <= ii < |m.cart|
    ensures InCells(cart, CellOf(m, ii, cart.Length1)) && InSamples(noncart, SourceOf(m, ii))
  {
    var si := m.sortedIndices[ii];
    assert 0 <= si < |m.cart|;
  }

  /** The last of the first `n` entries visited that reads sample `s`. */
  function LastEntry(m: Mapping, n: int, s: Sample): (r: Option<int>)
    requires Entries(m) && 0 <= n <= |m.cart|
    ensures r.Some? ==> 0 <= r.value < n && SourceOf(m, r.value) == s
    ensures r.Some? ==> forall jj :: r.value < jj < n ==> SourceOf(m, jj) != s
    ensures r.None? <==> forall jj :: 0 <= jj < n ==> SourceOf(m, jj) != s
  {
    if n == 0 then None
    else if SourceOf(m, n - 1) == s then Some(n - 1)
    else LastEntry(m, n - 1, s)
  }

  /** What `A` leaves in channel `ch` of sample `s` once the first `n` entries
      are done: the cell of the last entry reading `s`, or zero. */
  ghost function Gathered(m: Mapping, cart: array5<Cx>, noncart: array3<Cx>, n: int, ch: int, s: Sample): Cx
    requires Shaped(m, cart, noncart) && 0 <= n <= |m.cart| && 0 <= ch < cart.Length0
    reads cart
  {
    match LastEntry(m, n, s)
    case None => Zero
    case Some(ii) =>
      CellInside(m, cart, noncart, ii);
      var c := CellOf(m, ii, cart.Length1);
      cart[ch, c.e, c.x, c.y, c.z]
  }

  /** Every sample holds what `A` leaves there after the first `n` entries. */
  ghost predicate GatheredUpTo(m: Mapping, cart: array5<Cx>, noncart: array3<Cx>, n: int)
    requires Shaped(m, cart, noncart) && 0 <= n <= |m.cart|
    reads cart, noncart
  {
    forall ch, r, sp :: 0 <= ch < noncart.Length0 && 0 <= r < noncart.Length1 && 0 <= sp < noncart.Length2 ==>
      noncart[ch, r, sp] == Gathered(m, cart, noncart, n, ch, Sample(r, sp))
  }

  /** A sample that no entry reads is left zero by `A`. */
  lemma UnreadIsZero(m: Mapping, cart: array5<Cx>, noncart: array3<Cx>, ch: int, s: Sample)
    requires Shaped(m, cart, noncart) && 0 <= ch < cart.Length0
    requires forall ii :: 0 <= ii < |m.cart| ==> SourceOf(m, ii) != s
    ensures Gathered(m, cart, noncart, |m.cart|, ch, s) == Zero
  {
  }

  /** `A`: the samples are zeroed, then each entry in turn copies the channel
      vector of its cell into its sample. */
  method A(m: Mapping, cart: array5<Cx>, noncart: array3<Cx>)
    requires Shaped(m, cart, noncart)
    modifies noncart
    ensures GatheredUpTo(m, cart, noncart, |m.cart|)
  {
    ZeroSamples(m, cart, noncart);
    for ii := 0 to |m.cart|
      invariant GatheredUpTo(m, cart, noncart, ii)
    {
      GatherEntry(m, cart, noncart, ii);
    }
  }

  /** `noncart.setZero()`: no entry has been gathered yet. */
  method ZeroSamples(m: Mapping, cart: array5<Cx>, noncart: array3<Cx>)
    requires Shaped(m, cart, noncart)
    modifies noncart
    ensures GatheredUpTo(m, cart, noncart, 0)
  {
    forall ch, r, sp | 0 <= ch < noncart.Length0 && 0 <= r < noncart.Length1 && 0 <= sp < noncart.Length2 {
      noncart[ch, r, sp] := Zero;
    }
  }

  /** The body of `A`'s loop for entry `ii`: every channel of its cell is
      copied into its sample. */
  method GatherEntry(m: Mapping, cart: array5<Cx>, noncart: array3<Cx>, ii: int)
    requires Shaped(m, cart, noncart) && 0 <= ii < |m.cart|
    requires GatheredUpTo(m, cart, noncart, ii)
    modifies noncart
    ensures GatheredUpTo(m, cart, noncart, ii + 1)
  {
    CellInside(m, cart, noncart, ii);
    var si := m.sortedIndices[ii];
    var c := m.cart[si];
    var nc := m.noncart[si];
    var last := Numerics.Int8(cart.Length1 - 1);
    var e := if m.echo[si] < last then m.echo[si] else last;
    for ch := 0 to cart.Length0
      invariant forall ch', r, sp :: 0 <= ch' < noncart.Length0 && 0 <= r < noncart.Length1 && 0 <= sp < noncart.Length2 ==>
        noncart[ch', r, sp] == Gathered(m, cart, noncart, if Sample(r, sp) == nc && ch' < ch then ii + 1 else ii, ch', Sample(r, sp))
    {
      noncart[ch, nc.read, nc.spoke] := cart[ch, e, c.x, c.y, c.z];
    }
  }

  /** What `Adj` has added up in channel `ch` of cell `c` once the first `n`
      entries are done: each sample landing on `c`, times its weight. */
  ghost function Scattered(m: Mapping, cart: array5<Cx>, noncart: array3<Cx>, n: int, ch: int, c: Cell): Cx
    requires Shaped(m, cart, noncart) && 0 <= n <= |m.cart| && 0 <= ch < cart.Length0
    reads noncart
  {
    if n == 0 then Zero
    else
      var prev := Scattered(m, cart, noncart, n - 1, ch, c);
      CellInside(m, cart, noncart, n - 1);
      var s := SourceOf(m, n - 1);
      if CellOf(m, n - 1, cart.Length1) == c
      then Add(prev, Mul(noncart[ch, s.read, s.spoke], OfReal(m.sdc[m.sortedIndices[n - 1]])))
      else prev
  }

  /** Every cell holds what `Adj` has added up after the first `n` entries. */
  ghost predicate ScatteredUpTo(m: Mapping, cart: array5<Cx>, noncart: array3<Cx>, n: int)
    requires Shaped(m, cart, noncart) && 0 <= n <= |m.cart|
    reads cart, noncart
  {
    forall ch, e, x, y, z ::
      0 <= ch < cart.Length0 && 0 <= e < cart.Length1 && 0 <= x < cart.Length2 && 0 <= y < cart.Length3 && 0 <= z < cart.Length4 ==>
      cart[ch, e, x, y, z] == Scattered(m, cart, noncart, n, ch, Cell(e, x, y, z))
  }

  /** `Adj`: the grid is zeroed, then each entry in turn adds its sample,
      weighted by its density compensation, to the channel vector of its
      cell. */
  method Adj(m: Mapping, noncart: array3<Cx>, cart: array5<Cx>)
    requires Shaped(m, cart, noncart)
    modifies cart
    ensures ScatteredUpTo(m, cart, noncart, |m.cart|)
  {
    ZeroCells(m, noncart, cart);
    for ii := 0 to |m.cart|
      invariant ScatteredUpTo(m, cart, noncart, ii)
    {
      ScatterEntry(m, noncart, cart, ii);
    }
  }

  /** `cart.setZero()`: no entry has been scattered yet. */
  method ZeroCells(m: Mapping, noncart: array3<Cx>, cart: array5<Cx>)
    requires Shaped(m, cart, noncart)
    modifies cart
    ensures ScatteredUpTo(m, cart, noncart, 0)
  {
    forall ch, e, x, y, z |
      0 <= ch < cart.Length0 && 0 <= e < cart.Length1 && 0 <= x < cart.Length2 && 0 <= y < cart.Length3 && 0 <= z < cart.Length4
    {
      cart[ch, e, x, y, z] := Zero;
    }
  }

  /** The body of `Adj`'s loop for entry `ii`: every channel of its sample,
      weighted, is added to its cell. */
  method ScatterEntry(m: Mapping, noncart: array3<Cx>, cart: array5<Cx>, ii: int)
    requires Shaped(m, cart, noncart) && 0 <= ii < |m.cart|
    requires ScatteredUpTo(m, cart, noncart, ii)
    modifies cart
    ensures ScatteredUpTo(m, cart, noncart, ii + 1)
  {
    CellInside(m, cart, noncart, ii);
    var si := m.sortedIndices[ii];
    var c := m.cart[si];
    var nc := m.noncart[si];
    var last := Numerics.Int8(cart.Length1 - 1);
    var e := if m.echo[si] < last then m.echo[si] else last;
    var dc := m.sdc[si];
    for ch := 0 to cart.Length0
      invariant forall ch', e', x, y, z ::
        0 <= ch' < cart.Length0 && 0 <= e' < cart.Length1 && 0 <= x < cart.Length2 && 0 <= y < cart.Length3 && 0 <= z < cart.Length4 ==>
        cart[ch', e', x, y, z] ==
          Scattered(m, cart, noncart, if Cell(e', x, y, z) == Cell(e, c.x, c.y, c.z) && ch' < ch then ii + 1 else ii, ch', Cell(e', x, y, z))
    {
      cart[ch, e, c.x, c.y, c.z] := Add(cart[ch, e, c.x, c.y, c.z], Mul(noncart[ch, nc.read, nc.spoke], OfReal(dc)));
    }
  }

  /** `apodization`: nearest-neighbour gridding needs no deapodization, so
      the correction is one everywhere on a grid of the requested shape. */
  method Apodization(n0: nat, n1: nat, n2: nat) returns (a: array3<real>)
    ensures fresh(a) && a.Length0 == n0 && a.Length1 == n1 && a.Length2 == n2
    ensures forall i, j, k :: 0 <= i < n0 && 0 <= j < n1 && 0 <= k < n2 ==> a[i, j, k] == 1.0
  {
    a := new real[n0, n1, n2];
    forall i, j, k | 0 <= i < n0 && 0 <= j < n1 && 0 <= k < n2 {
      a[i, j, k] := 1.0;
    }
  }

  // Inner products over the two sides, and the transpose property.

  function SumTo(s: seq<Cx>, n: int): Cx
    requires 0 <= n <= |s|
  {
    if n == 0 then Zero else Add(SumTo(s, n - 1), s[n - 1])
  }

  function SumCx(s: seq<Cx>): Cx { SumTo(s, |s|) }

  /** The sum of `h[ii]` over the first `n` entries whose key is `k`. */
  function Group<K(==)>(keys: seq<K>, h: seq<Cx>, k: K, n: int): Cx
    requires 0 <= n <= |keys| == |h|
  {
    if n == 0 then Zero
    else if keys[n - 1] == k then Add(Group(keys, h, k, n - 1), h[n - 1])
    else Group(keys, h, k, n - 1)
  }

  lemma {:induction false} GroupNone<K>(keys: seq<K>, h: seq<Cx>, k: K, n: int)
    requires 0 <= n <= |keys| == |h|
    requires forall ii :: 0 <= ii < n ==> keys[ii] != k
    ensures Group(keys, h, k, n) == Zero
  {
    if n > 0 {
      GroupNone(keys, h, k, n - 1);
    }
  }

  lemma {:induction false} GroupSingle<K>(keys: seq<K>, h: seq<Cx>, k: K, n: int, i0: int)
    requires 0 <= i0 < n <= |keys| == |h|
    requires keys[i0] == k
    requires forall ii :: 0 <= ii < n && ii != i0 ==> keys[ii] != k
    ensures Group(keys, h, k, n) == h[i0]
  {
    if n - 1 == i0 {
      GroupNone(keys, h, k, n - 1);
    } else {
      GroupSingle(keys, h, k, n - 1, i0);
    }
  }

  lemma {:induction false} SumZeros(a: seq<Cx>, n: int)
    requires 0 <= n <= |a|
    requires forall j :: 0 <= j < |a| ==> a[j] == Zero
    ensures SumTo(a, n) == Zero
  {
    if n > 0 {
      SumZeros(a, n - 1);
    }
  }

  /** Adding `d` to one term adds `d` to the sum. */
  lemma {:induction false} SumBump(a: seq<Cx>, b: seq<Cx>, j0: int, d: Cx, n: int)
    requires |a| == |b| && 0 <= j0 < |a| && 0 <= n <= |a|
    requires forall j :: 0 <= j < |a| && j != j0 ==> b[j] == a[j]
    requires b[j0] == Add(a[j0], d)
    ensures SumTo(b, n) == if j0 < n then Add(SumTo(a, n), d) else SumTo(a, n)
  {
    if n > 0 {
      SumBump(a, b, j0, d, n - 1);
    }
  }

  /** Summing the groups of every key in a duplicate-free listing that holds
      all the keys adds every term exactly once. */
  lemma {:induction false} Regroup<K>(xs: seq<K>, keys: seq<K>, h: seq<Cx>, n: int)
    requires 0 <= n <= |keys| == |h|
    requires forall i, j :: 0 <= i < j < |xs| ==> xs[i] != xs[j]
    requires forall ii :: 0 <= ii < |keys| ==> keys[ii] in xs
    ensures SumCx(seq(|xs|, j requires 0 <= j < |xs| => Group(keys, h, xs[j], n))) == SumTo(h, n)
  {
    var b := seq(|xs|, j requires 0 <= j < |xs| => Group(keys, h, xs[j], n));
    if n == 0 {
      SumZeros(b, |b|);
    } else {
      Regroup(xs, keys, h, n - 1);
      var a := seq(|xs|, j requires 0 <= j < |xs| => Group(keys, h, xs[j], n - 1));
      var j0 :| 0 <= j0 < |xs| && xs[j0] == keys[n - 1];
      forall j | 0 <= j < |xs| && j != j0
        ensures b[j] == a[j]
      {
        assert xs[j] != xs[j0];
      }
      SumBump(a, b, j0, h[n - 1], |xs|);
    }
  }

  /** One term per entry: the conjugated cell value times the sample value. */
  ghost function Terms(m: Mapping, cart: array5<Cx>, noncart: array3<Cx>, ch: int): (t: seq<Cx>)
    requires Shaped(m, cart, noncart) && 0 <= ch < cart.Length0
    reads cart, noncart
    ensures |t| == |m.cart|
  {
    seq(|m.cart|, ii requires 0 <= ii < |m.cart| reads cart, noncart =>
      CellInside(m, cart, noncart, ii);
      var c := CellOf(m, ii, cart.Length1);
      var s := SourceOf(m, ii);
      Mul(Conj(cart[ch, c.e, c.x, c.y, c.z]), noncart[ch, s.read, s.spoke]))
  }

  function SourceKeys(m: Mapping): (k: seq<Sample>)
    requires Entries(m)
    ensures |k| == |m.cart|
  {
    seq(|m.cart|, ii requires 0 <= ii < |m.cart| => SourceOf(m, ii))
  }

  function CellKeys(m: Mapping, nE: int): (k: seq<Cell>)
    requires Entries(m)
    ensures |k| == |m.cart|
  {
    seq(|m.cart|, ii requires 0 <= ii < |m.cart| => CellOf(m, ii, nE))
  }

  /** A duplicate-free listing of every sample of the data. */
  ghost predicate ListsSamples(noncart: array3<Cx>, samples: seq<Sample>) {
    && (forall i, j :: 0 <= i < j < |samples| ==> samples[i] != samples[j])
    && (forall s :: s in samples <==> InSamples(noncart, s))
  }

  /** A duplicate-free listing of every cell of the grid. */
  ghost predicate ListsCells(cart: array5<Cx>, cells: seq<Cell>) {
    && (forall i, j :: 0 <= i < j < |cells| ==> cells[i] != cells[j])
    && (forall c :: c in cells <==> InCells(cart, c))
  }

  /** `<A cart, noncart>` in channel `ch`, summed over a listing of the samples. */
  ghost function NoncartInner(m: Mapping, cart: array5<Cx>, noncart: array3<Cx>, ch: int, samples: seq<Sample>): Cx
    requires Shaped(m, cart, noncart) && 0 <= ch < cart.Length0 && ListsSamples(noncart, samples)
    reads cart, noncart
  {
    SumCx(seq(|samples|, j requires 0 <= j < |samples| reads cart, noncart =>
      assert samples[j] in samples;
      Mul(Conj(Gathered(m, cart, noncart, |m.cart|, ch, samples[j])), noncart[ch, samples[j].read, samples[j].spoke])))
  }

  /** `<cart, Adj noncart>` in channel `ch`, summed over a listing of the cells. */
  ghost function CartInner(m: Mapping, cart: array5<Cx>, noncart: array3<Cx>, ch: int, cells: seq<Cell>): Cx
    requires Shaped(m, cart, noncart) && 0 <= ch < cart.Length0 && ListsCells(cart, cells)
    reads cart, noncart
  {
    SumCx(seq(|cells|, k requires 0 <= k < |cells| reads cart, noncart =>
      assert cells[k] in cells;
      Mul(Conj(cart[ch, cells[k].e, cells[k].x, cells[k].y, cells[k].z]), Scattered(m, cart, noncart, |m.cart|, ch, cells[k]))))
  }

  /** With each sample read by at most one entry, a sample's term is that
      entry's term, or zero. */
  lemma SampleTerm(m: Mapping, cart: array5<Cx>, noncart: array3<Cx>, ch: int, s: Sample)
    requires Shaped(m, cart, noncart) && 0 <= ch < cart.Length0 && InSamples(noncart, s)
    requires forall ii, jj :: 0 <= ii < jj < |m.cart| ==> SourceOf(m, ii) != SourceOf(m, jj)
    ensures Mul(Conj(Gathered(m, cart, noncart, |m.cart|, ch, s)), noncart[ch, s.read, s.spoke])
      == Group(SourceKeys(m), Terms(m, cart, noncart, ch), s, |m.cart|)
  {
    var keys := SourceKeys(m);
    match LastEntry(m, |m.cart|, s)
    case None =>
      GroupNone(keys, Terms(m, cart, noncart, ch), s, |m.cart|);
    case Some(i0) =>
      forall ii | 0 <= ii < |m.cart| && ii != i0
        ensures keys[ii] != s
      {
        if ii < i0 {
          assert SourceOf(m, ii) != SourceOf(m, i0);
        } else {
          assert SourceOf(m, i0) != SourceOf(m, ii);
        }
      }
      GroupSingle(keys, Terms(m, cart, noncart, ch), s, |m.cart|, i0);
  }

  /** With unit weights, a cell's term adds up the terms of the entries
      landing on it. */
  lemma {:induction false} CellTerm(m: Mapping, cart: array5<Cx>, noncart: array3<Cx>, ch: int, c: Cell, n: int)
    requires Shaped(m, cart, noncart) && 0 <= ch < cart.Length0 && InCells(cart, c) && 0 <= n <= |m.cart|
    requires forall si :: 0 <= si < |m.cart| ==> m.sdc[si] == 1.0
    ensures Mul(Conj(cart[ch, c.e, c.x, c.y, c.z]), Scattered(m, cart, noncart, n, ch, c))
      == Group(CellKeys(m, cart.Length1), Terms(m, cart, noncart, ch), c, n)
  {
    var w := Conj(cart[ch, c.e, c.x, c.y, c.z]);
    if n > 0 {
      CellTerm(m, cart, noncart, ch, c, n - 1);
      CellInside(m, cart, noncart, n - 1);
      if CellOf(m, n - 1, cart.Length1) == c {
        var s := SourceOf(m, n - 1);
        var v := noncart[ch, s.read, s.spoke];
        assert m.sdc[m.sortedIndices[n - 1]] == 1.0;
        MulOne(v);
        MulDistributesOverAdd(w, Scattered(m, cart, noncart, n - 1, ch, c), Mul(v, OfReal(1.0)));
      }
    } else {
      MulZero(w);
    }
  }

  /** With unit density compensation and each sample read by at most one
      entry, `Adj` is the conjugate transpose of `A`:
      `<A cart, noncart> == <cart, Adj noncart>`, channel by channel. */
  lemma AdjIsTranspose(m: Mapping, cart: array5<Cx>, noncart: array3<Cx>, ch: int, samples: seq<Sample>, cells: seq<Cell>)
    requires Shaped(m, cart, noncart) && 0 <= ch < cart.Length0
    requires forall si :: 0 <= si < |m.cart| ==> m.sdc[si] == 1.0
    requires forall ii, jj :: 0 <= ii < jj < |m.cart| ==> SourceOf(m, ii) != SourceOf(m, jj)
    requires ListsSamples(noncart, samples) && ListsCells(cart, cells)
    ensures NoncartInner(m, cart, noncart, ch, samples) == CartInner(m, cart, noncart, ch, cells)
  {
    var N := |m.cart|;
    var h := Terms(m, cart, noncart, ch);
    var srcKeys := SourceKeys(m);
    var cellKeys := CellKeys(m, cart.Length1);
    forall ii | 0 <= ii < N
      ensures srcKeys[ii] in samples && cellKeys[ii] in cells
    {
      CellInside(m, cart, noncart, ii);
    }
    var lhs := seq(|samples|, j requires 0 <= j < |samples| reads cart, noncart =>
      assert samples[j] in samples;
      Mul(Conj(Gathered(m, cart, noncart, N, ch, samples[j])), noncart[ch, samples[j].read, samples[j].spoke]));
    var lhsGroups := seq(|samples|, j requires 0 <= j < |samples| => Group(srcKeys, h, samples[j], N));
    forall j | 0 <= j < |samples|
      ensures lhs[j] == lhsGroups[j]
    {
      assert samples[j] in samples;
      SampleTerm(m, cart, noncart, ch, samples[j]);
    }
    assert lhs == lhsGroups;
    Regroup(samples, srcKeys, h, N);
    var rhs := seq(|cells|, k requires 0 <= k < |cells| reads cart, noncart =>
      assert cells[k] in cells;
      Mul(Conj(cart[ch, cells[k].e, cells[k].x, cells[k].y, cells[k].z]), Scattered(m, cart, noncart, N, ch, cells[k])));
    var rhsGroups := seq(|cells|, k requires 0 <= k < |cells| => Group(cellKeys, h, cells[k], N));
    forall k | 0 <= k < |cells|
      ensures rhs[k] == rhsGroups[k]
    {
      assert cells[k] in cells;
      CellTerm(m, cart, noncart, ch, cells[k], N);
    }
    assert rhs == rhsGroups;
    Regroup(cells, cellKeys, h, N);
  }
}
