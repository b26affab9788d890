# riesling core, modelled in Dafny

riesling is an MRI reconstruction toolbox for non-Cartesian (radial, spiral)
k-space data. Most of it is floating-point work: FFTs, kernel convolution and
iterative solvers over complex tensors. This project models the exact,
discrete part around that work, and the scalar decision logic of the solvers
restated over the reals. Each source file of the core has one Dafny module:

| module | file | what it models |
|---|---|---|
| `KernelNN` | `kernel_nn.dfy` | the nearest-neighbour gridding kernel: radius, start, size, the k-space and image-space kernels, and the pass-through sensitivity and apodization |
| `Multiplex` | `multiplex.dfy` | the multiplexing operator: it cuts the last axis into `nSlab` slabs (`forward`) and writes them back (`adjoint`), as two array loops |
| `SenseOp` | `sense_op.dfy` | the SENSE operator as a class: the padding margins set by its constructor, its dimensions, `A` (broadcast multiply by the coil maps, then zero-pad), `Adj` (crop, then a conjugate sum over coils) and `AdjA` |
| `GridNN` | `grid_nn.dfy` | nearest-neighbour gridding over arrays: `A` zero-fills the samples and gathers one grid cell per mapping entry; `Adj` zero-fills the grid and scatter-adds the weighted samples; `apodization` is all ones |
| `Bidiag` | `bidiag.dfy` | `StableGivens`, `Rotation` and the Golub-Kahan steps `BidiagInit` and `Bidiag` over abstract vectors and operators |
| `Lsmr` | `lsmr.dfy` | `SymOrtho`; the rotations and the `‖r‖`, `‖A‖` and `cond(A)` estimates of one LSMR iteration; the priority of the stopping tests; and the drivers `lsmr` and `lsmr_damp` as loops over abstract vectors |
| `Admm` | `admm.dfy` | the outer loop of `ADMM::run` over abstract vectors, with the inner solver and the regulariser as parameters |
| `Writer` | `writer.dfy` | the HDF5 dataset layout: `writeTensor`'s zero-dimension check, reversed dimensions and chunk-shrinking loop, and `writeMatrix`'s rank and dimensions |
| `ParseArgs` | `parse_args.dfy` | output file names (`OutName`), the log-level map and the level `ParseCommand` chooses |
| `Split` | `split.dfy` | the spoke bookkeeping of the `split` command: echo labels, the lo-res spokes, striding and truncation of the hi-res spokes, and the interleaves, each output file described by which input spokes it holds |
| `Sense` | `sense.dfy` | SENSE calibration helpers: the Sobolev weight table, the input checks of `LoresChannels`, `LoresKernels` and `Nonsense`, and the map source `Choose` picks |

Shared modules:
- `Wrappers` has `Option` and `Result`.
- `Numerics` has:
  - `IsSqrt`, which characterises the square root passed in as the parameter `sqrt`;
  - C++'s truncating integer division `CDiv`;
  - `CopySign1` and `Abs`;
  - `Quot`, a real quotient that is 0 for a zero divisor;
  - `Ext`, which holds IEEE's infinities and not-a-number for the stopping tests.
- `Complex` has a pair type `Cx` with multiplication and conjugation.
- `Vectors` has real vectors with `Dot`, `Norm` and scaling.

Floating-point values are reals, and rounding is not modelled. A test
`1 + t <= 1` is read as `t <= 0`.

## Model

| member | source | states |
|---|---|---|
| KernelNN.NearestNeighbour.Radius | src/kernel_nn.cpp:8-11 | for a non-negative width the radius is the floor of half the width: `2 r <= w <= 2 r + 1` |
| KernelNN.NearestNeighbour.Start | src/kernel_nn.cpp:13-16 | every axis starts at `-(w / 2)`, which is C++'s truncating `(-w) / 2` |
| KernelNN.NearestNeighbour.Size | src/kernel_nn.cpp:18-21 | the footprint is `w` on each of the three axes |
| KernelNN.NearestNeighbour.KSpace | src/kernel_nn.cpp:23-29 | a `w x w x w` grid that is zero except for 1 at `(w/2, w/2, w/2)`, for every offset |
| KernelNN.NearestNeighbour.Image | src/kernel_nn.cpp:31-36 | a `w x w x w` grid whose every entry is `1 / sqrt(w^3)` |
| KernelNN.NearestNeighbour.Sensitivity | src/kernel_nn.cpp:38-42 | the sensitivity kernels come back unchanged |
| KernelNN.NearestNeighbour.Apodize | src/kernel_nn.cpp:44-48 | the apodization callback leaves its image unchanged |
| KernelNN.CentreIsOrigin | src/kernel_nn.cpp:8-16 | start plus radius is 0, and the radius indexes a cell inside the footprint |
| KernelNN.ImageUnitEnergy | src/kernel_nn.cpp:34 | Parseval: the squared image weights over the `w^3` cells add up to 1 |
| Multiplex.OutShape | cxx/vineyard/op/multiplex.hpp:13-16 | the leading dimensions are kept, the last becomes `⌊n / nSlab⌋` (bounded on both sides), and `nSlab` is appended |
| Multiplex.OffsetIsProduct | cxx/vineyard/op/multiplex.hpp:24-28 | after `sl` advances of one slab width `w` the offset is `sl * w` |
| Multiplex.OffsetMonotone | cxx/vineyard/op/multiplex.hpp:25-28 | a later slab starts no earlier than the end of an earlier one, so slabs are disjoint |
| Multiplex.WidthFits | cxx/vineyard/op/multiplex.hpp:23-24 | `nSlab` slabs of width `n / nSlab` fit in `n`, and fill it exactly when `nSlab` divides `n` |
| Multiplex.SlabsPartition | cxx/vineyard/op/multiplex.hpp:24-28 | a position below `nSlab * w` lies in slab `sl` if and only if `sl = j / w` |
| Multiplex.Slab | cxx/vineyard/op/multiplex.hpp:26 | slab `sl` holds `x[sl * w + k]` at position `k` |
| Multiplex.SlabsInside | cxx/vineyard/op/multiplex.hpp:24-28 | each of the first `nSlab` slabs ends by `Offset(nSlab, w)` |
| Multiplex.Slabs | cxx/vineyard/op/multiplex.hpp:22-29 | `nSlab` slabs of width `w`; entry `k` of slab `sl` is block `Offset(sl, w) + k` of the input |
| Multiplex.Unslab | cxx/vineyard/op/multiplex.hpp:36-43 | the result has the buffer's length and its blocks past the last slab keep their old contents |
| Multiplex.FlattenSlabs | cxx/vineyard/op/multiplex.hpp:25-28 | the slabs laid end to end are exactly the first `nSlab * w` entries of `x` |
| Multiplex.Forward | cxx/vineyard/op/multiplex.hpp:18-30 | column `sl` of `y` is slab `sl` of `x`, for every slab |
| Multiplex.Adjoint | cxx/vineyard/op/multiplex.hpp:32-44 | `x` becomes its old contents with slab `sl` replaced by column `sl` of `y`, for every slab |
| Multiplex.CopySlab | cxx/vineyard/op/multiplex.hpp:26 | column `sl` of `y` becomes the entries of `x` from `st` on, and every other column keeps its old contents |
| Multiplex.WriteSlab | cxx/vineyard/op/multiplex.hpp:40 | the entries of `x` from `st` on become column `sl` of `y`, and every other entry of `x` keeps its old value |
| Multiplex.SlabAppended | cxx/vineyard/op/multiplex.hpp:39-41 | writing slab `sl` at offset `st` right after the first `sl` slabs makes the written prefix the first `sl + 1` slabs laid end to end and leaves the rest of `x0` |
| Multiplex.AdjointAfterForward | cxx/vineyard/op/multiplex.hpp:18-44 | `adjoint(forward(x))` written into `x0` restores the first `nSlab * w` entries of `x` and leaves the tail of `x0`; it is `x` when `nSlab` divides `n` |
| Multiplex.ForwardAfterAdjoint | cxx/vineyard/op/multiplex.hpp:18-44 | `forward(adjoint(y))` is `y`, whatever `x` held before |
| Multiplex.ForwardIgnoresTail | cxx/vineyard/op/multiplex.hpp:22-28 | inputs that agree on the first `nSlab * w` entries give the same slabs |
| SenseOp.Op.constructor | src/op/sense.cpp:5-26 | `size` is the maps' coils, the frames of `bigSize` and the maps' grid; `full` is the maps' coils then `bigSize[1..]`; the spatial margins are `Margins(full - size)` and the others 0 |
| SenseOp.Margins | src/op/sense.cpp:20-25 | the left margin is never smaller than the right one and exceeds it by at most one, whatever the sign of the excess |
| SenseOp.Op.Channels | src/op/sense.cpp:28-31 | the coil count is the leading extent of both the image and the grid dimensions |
| SenseOp.Op.InputDimensions | src/op/sense.cpp:33-36 | four axes: the frames of `bigSize`, then the maps' grid |
| SenseOp.Op.OutputDimensions | src/op/sense.cpp:38-41 | five axes: the coils, the input's frames, then the oversampled grid's extents, each the maps' extent plus its left and right margins when the grid is at least as large |
| SenseOp.Op.A | src/op/sense.cpp:43-78 | the result has the coils, the input's frames, and on each spatial axis the map's extent plus both margins, the shape asserted at lines 47-52 |
| SenseOp.Op.Adj | src/op/sense.cpp:80-101 | the result has the grid's frames and the maps' spatial extents, the shape asserted at lines 87-89 |
| SenseOp.MarginsSplitExcess | src/op/sense.cpp:20-25 | for a non-negative excess the two margins add up to it, and an odd excess puts the extra voxel on the left |
| SenseOp.MarginsNegativeOdd | src/op/sense.cpp:20-25 | for a negative odd excess the truncating division loses one: the margins of -3 add up to -2 |
| SenseOp.Op.APointwise | src/op/sense.cpp:76-77 | `A(x)` at coil `c`, frame `v` and the padded position of voxel `q` is `x(v, q) * maps(c, q)` |
| SenseOp.Op.AZeroOutside | src/op/sense.cpp:76-77 | every entry of `A(x)` outside the interior box is zero |
| SenseOp.Op.ADims | src/op/sense.cpp:33-52 | with non-negative margins `A` takes a tensor of `InputDimensions()` to one of `OutputDimensions()` |
| SenseOp.Op.AShapeFitsAdj | src/op/sense.cpp:50-86 | every `A(x)` has the shape `Adj` needs; the axis-2 check as written rejects it whenever `right[2] != right[4]` |
| SenseOp.Op.AdjRejectsExample | src/op/sense.cpp:82-86 | for maps of 8 x 8 x 8 on a grid of 10 x 10 x 12 the right margins are 1 and 2, and the check as written rejects what `A` produces |
| SenseOp.Op.AdjPointwise | src/op/sense.cpp:99-100 | `Adj(y)(v, q)` is the sum over coils of `y` at the padded position of `q` times the conjugate map |
| SenseOp.Op.AdjIgnoresPadding | src/op/sense.cpp:99-100 | `Adj` reads only the interior: grids that agree there give the same result |
| SenseOp.Op.AdjAfterA | src/op/sense.cpp:76-100 | `Adj(A(x))` is `x` weighted, voxel by voxel, by the summed squared magnitudes of the maps |
| SenseOp.Op.AdjAMatchesNormalisedMaps | src/op/sense.cpp:103-106 | `AdjA` returns its input, which equals `Adj(A(x))` exactly where the maps have unit energy |
| Numerics.Int8 | src/op/grid-nn.cpp:101 | the C++ conversion to `int8_t`: wraps modulo 256 into `[-128, 128)` and keeps a value already in range |
| GridNN.CellOf | src/op/grid-nn.cpp:98-101 | an entry's cell has its echo clamped to `min(echo, int8_t(nEcho - 1))`, never raised; on a grid of at most 128 echoes that is `min(echo, nEcho - 1)` |
| GridNN.CellInside | src/op/grid-nn.cpp:90-93 | under the shape checks every entry's cell and sample lie inside the grid and the data |
| GridNN.ZeroSamples | src/op/grid-nn.cpp:107 | after `setZero` every sample holds what no entry has gathered yet |
| GridNN.GatherEntry | src/op/grid-nn.cpp:96-104 | copying entry `ii`'s cell over all channels extends the gathered state from `ii` to `ii + 1` entries |
| GridNN.A | src/op/grid-nn.cpp:88-110 | every sample holds the cell of the last entry that reads it, or zero |
| GridNN.UnreadIsZero | src/op/grid-nn.cpp:107-108 | a sample no entry reads is zero after `A` |
| GridNN.ZeroCells | src/op/grid-nn.cpp:70 | after `setZero` every cell holds the empty sum |
| GridNN.ScatterEntry | src/op/grid-nn.cpp:50-66 | adding entry `ii`'s weighted sample over all channels extends the scattered sums from `ii` to `ii + 1` entries |
| GridNN.Adj | src/op/grid-nn.cpp:26-86 | every cell holds the sum of `sdc * sample` over the entries that hit it, so repeated hits accumulate |
| GridNN.Apodization | src/op/grid-nn.cpp:112-117 | a fresh table of the given shape filled with ones |
| GridNN.AdjIsTranspose | src/op/grid-nn.cpp:26-110 | with unit weights and each sample read at most once, `<A cart, noncart> = <cart, Adj noncart>` in every channel |
| Bidiag.StableGivens | src/algo/bidiag.cpp:5-32 | `rho >= 0`; `(0, 0)` gives `(1, 0, 0)`; any other `(a, b)` gives a rotation: `c^2 + s^2 = 1`, `c a + s b = rho`, `c b - s a = 0` |
| Bidiag.Lead | src/algo/bidiag.cpp:20-30 | each of the two general branches yields a rotation with `rho >= 0` |
| Bidiag.GivensOnAxis | src/algo/bidiag.cpp:8-19 | `(a, 0)` gives `(sign a, 0, abs(a))` and `(0, b)` gives `(0, sign b, abs(b))` |
| Bidiag.RotationUnique | src/algo/bidiag.cpp:20-30 | a rotation of `(a, b)` has `rho^2 = a^2 + b^2` and `(rho c, rho s) = (a, b)` |
| Bidiag.Rotation | src/algo/bidiag.cpp:34-40 | `rho >= 0` with `rho^2 = a^2 + b^2`; at `(0, 0)` both `c` and `s` are not-a-number |
| Bidiag.RotationAgrees | src/algo/bidiag.cpp:34-40 | `Rotation` and `StableGivens` return the same triple on every non-zero vector |
| Bidiag.StartResidual | src/algo/bidiag.cpp:56-63 | the starting residual (`b`, or `b - A x0` with a warm start) has the operator's row count |
| Bidiag.Normalised | src/algo/bidiag.cpp:65-67 | dividing `Mu` and `u` by `beta = sqrt(<Mu, M Mu>)` gives `<Mu, u> = 1` |
| Bidiag.HalfNormalised | src/algo/bidiag.cpp:70-71 | dividing only `v` by `alpha = sqrt(<Nv, N Nv>)` gives `<Nv, v> = alpha` |
| Bidiag.LeftNormalise | src/algo/bidiag.cpp:64-67 | `beta` is the `M`-norm of `r`; when `beta != 0`, `beta Mu = r` and `beta u = M r`; and `<Mu, u> = 1` when that norm is positive |
| Bidiag.RightNormalise | src/algo/bidiag.cpp:68-71 | `alpha` is the `N`-norm of `Nv`, `alpha v = N Nv` when `alpha != 0`, and `<Nv, v> = alpha` when that norm is positive |
| Bidiag.BidiagInit | src/algo/bidiag.cpp:42-72 | `x` is the warm start or zero, `Mu` and `u` are the normalised starting residual, `Nv = A^T u` and `v` is `N Nv` over its `N`-norm |
| Bidiag.Bidiag | src/algo/bidiag.cpp:74-94 | `Mu` becomes `A v - alpha Mu` and `Nv` becomes `A^T u - beta Nv`, normalised as in `BidiagInit` |
| Lsmr.SymOrthoAsWritten | src/algo/lsmr.hpp:10-25 | `rho >= 0`, and outside the branch `abs(b) > abs(a)` it equals `StableGivens` |
| Lsmr.SymOrthoAsWrittenSwaps | src/algo/lsmr.hpp:16-19 | in the branch `abs(b) > abs(a)` the code returns `StableGivens`'s `c` and `s` swapped |
| Lsmr.SymOrthoAsWrittenNotRotation | src/algo/lsmr.hpp:16-19 | for `(1, 2)` the returned triple does not rotate `(1, 2)` onto the axis |
| Lsmr.SymOrtho | src/algo/lsmr.hpp:10-25 | with the swap corrected, `SymOrtho` is `StableGivens` on every input |
| Lsmr.SymOrthoUnit | src/algo/lsmr.hpp:10-25 | every triple has `c^2 + s^2 = 1`, including `(0, 0)` |
| Lsmr.SymOrthoCosineSign | src/algo/lsmr.hpp:10-25 | a non-negative first argument gives a non-negative `c` |
| Lsmr.FirstStop | src/algo/lsmr.hpp:204-229 | the test that ends the loop holds, no test earlier in the cascade holds, and there is none exactly when no test holds |
| Lsmr.CondAtLeastOne | src/algo/lsmr.hpp:195 | with positive minima the `cond(A)` estimate is at least 1, so the "very large" test cannot fire |
| Lsmr.Start | src/algo/lsmr.hpp:83-101 | `normA2` starts non-negative and the damping residual `d` starts at zero |
| Lsmr.ResidualRotationAsWritten | src/algo/lsmr.hpp:350-352 | as written, when the damping rotation is a rotation, the squares of the three pieces exceed `betaDd^2` by `(s betaDd)^2`, so the `‖r‖` estimate grows |
| Lsmr.AsWrittenResidualDiffers | src/algo/lsmr.hpp:350-352 | with no damping and `alphaBar = alpha = beta = 1`, the code's `betaHat` differs from `c betaDd`, which `lsmr` computes at line 166 |
| Lsmr.ResidualRotation | src/algo/lsmr.hpp:348-352 | the damping rotation then the main one keep the length: `betaHat^2 + betaCheck^2 + betaDd'^2 = betaDd^2` |
| Lsmr.NormAEstimate | src/algo/lsmr.hpp:186-188 | the reported `normA` includes this iteration's `beta` but not its `alpha`, and lies between the old and the new `sqrt(normA2)` |
| Lsmr.DampRotation | src/algo/lsmr.hpp:321 | the damping rotation has `ch^2 + sh^2 = 1`, and `alphaHat >= 0` for `alphaBar >= 0` |
| Lsmr.ZeroDampIsPlain | src/algo/lsmr.hpp:321 | with `lambda = 0` the damping rotation changes nothing |
| Lsmr.Advance | src/algo/lsmr.hpp:319-380 | `normA2` grows by `beta^2` then `alpha^2`; `maxRhoBar` never decreases; `minRhoBar` is untouched while `ii <= 1`; `condA` is the max over min estimate; `d` never decreases |
| Lsmr.NormANonDecreasing | src/algo/lsmr.hpp:186-188 | two consecutive iterations report non-decreasing `normA` |
| Lsmr.Apply | src/algo/lsmr.hpp:68 | `M ? M->apply(x) : x`: without a preconditioner the vector is unchanged |
| Lsmr.Update | src/algo/lsmr.hpp:151-202 | `h̅`, `x` and `h` get the three updates with this iteration's coefficients, and the tests see `‖x‖` of the new `x` |
| Lsmr.Moved | src/algo/lsmr.hpp:151-202 | the new state takes the new basis and the scalars of the step, keeps the vector lengths, and the tests see the step's `normA`, `‖x‖` of the new `x` and the first `beta` |
| Lsmr.Next | src/algo/lsmr.hpp:135-202 | an iteration after the bidiagonalisation step: the state takes the new basis, the vectors keep their lengths, and the tests see `‖x‖` of the new `x` and the first `beta` |
| Lsmr.NextNormA | src/algo/lsmr.hpp:185-188 | `normA2` grows by `beta^2 + alpha^2` in an iteration and the reported `normA` lies between the old and the new root |
| Lsmr.Iterate | src/algo/lsmr.hpp:135-202 | the rotations of `Advance` followed by the updates of `Update` give exactly the outcome of `Next` |
| Lsmr.RegularisedInit | src/algo/lsmr.hpp:64-78 | with `x = x0 / ‖b‖`, `Mu`, `u` and `ur` are the residuals `b / ‖b‖ - A x` and `(xr / ‖b‖ - x) sqrt(lambda)` over their joint norm `beta`; `v` is `A^T u + sqrt(lambda) ur` over its norm `alpha` |
| Lsmr.RegularisedStart | src/algo/lsmr.hpp:64-78 | the start computes `‖b‖`, `x0 / ‖b‖` and exactly the basis of `RegularisedInit` |
| Lsmr.RegularisedBasis | src/algo/lsmr.hpp:122-133 | the step of `lsmr`: `A v - alpha Mu` and `sqrt(lambda) v - alpha ur` over their joint norm, then `A^T u + sqrt(lambda) ur - beta v` over its norm |
| Lsmr.RegularisedStep | src/algo/lsmr.hpp:122-133 | the in-place step computes exactly the basis of `RegularisedBasis` |
| Lsmr.DampedInit | src/algo/lsmr.hpp:248-268 | `Mu` and `u` are `b / ‖b‖` and its preconditioned image over their norm `beta`; `v` is `A^T u` over its norm `alpha` |
| Lsmr.DampedStart | src/algo/lsmr.hpp:248-268 | the start computes `‖b‖` and exactly the basis of `DampedInit` |
| Lsmr.DampedBasis | src/algo/lsmr.hpp:308-317 | the step of `lsmr_damp`: `A v - alpha Mu` over its `M`-norm, then `A^T u - beta v` over its norm |
| Lsmr.DampedStep | src/algo/lsmr.hpp:308-317 | the in-place step computes exactly the basis of `DampedBasis` |
| Lsmr.Iteration | src/algo/lsmr.hpp:121-202 | one iteration of either driver keeps the state's shapes and reports a `normA` between the old and the new root of `normA2` |
| Lsmr.After | src/algo/lsmr.hpp:121-202 | the state after `k` iterations keeps the shapes of the operator |
| Lsmr.Trace | src/algo/lsmr.hpp:185-188 | the `normA` estimates of the first `k` iterations never decrease, and the last is at most the root of the current `normA2` |
| Lsmr.AfterStep | src/algo/lsmr.hpp:121-202 | one more iteration extends the state and the trace by the outcome of `Iteration` |
| Lsmr.Proceed | src/algo/lsmr.hpp:121-202 | a pass of the loop body extends the trace by its tests and keeps the state and trace those of `After` and `Trace` |
| Lsmr.RegularisedIteration | src/algo/lsmr.hpp:121-202 | one `lsmr` iteration, without damping rotation, is exactly the outcome of `Iteration` |
| Lsmr.RegularisedLoop | src/algo/lsmr.hpp:121-230 | at most `max_its` iterations; an early exit only when a test holds; no test held before the last; the trace is `Trace` and the solution that of `After` |
| Lsmr.Run | src/algo/lsmr.hpp:35-232 | `lsmr` stops as `RegularisedLoop` does; the result is `‖b‖` times the scaled solution after the iterations reported; with no iterations and `b != 0` it is the warm start `x0` |
| Lsmr.DampedIteration | src/algo/lsmr.hpp:307-387 | one `lsmr_damp` iteration, with the damping rotation `SymOrtho(alphaBar, lambda)`, is exactly the outcome of `Iteration` |
| Lsmr.DampedLoop | src/algo/lsmr.hpp:307-415 | the stopping behaviour of `RegularisedLoop` from `x = 0`; the trace is `Trace` and the solution that of `After` |
| Lsmr.RunDamped | src/algo/lsmr.hpp:237-417 | `lsmr_damp` stops as `DampedLoop` does; the result is `‖b‖` times the scaled solution after the iterations reported; with no iterations it is zero |
| Admm.Defaults | src/algo/admm.hpp:17-20 | `rho = 0.1`, `abstol = reltol = 0.001` |
| Admm.Step | src/algo/admm.hpp:38-42 | one iteration keeps every iterate at `n` entries |
| Admm.DualAccumulates | src/algo/admm.hpp:39-42 | the scaled dual accumulates the primal residual: `u' = u + x' - z'` |
| Admm.After | src/algo/admm.hpp:27-42 | all iterates start at zero, and stay at `n` entries after any number of iterations |
| Admm.Measures | src/algo/admm.hpp:40-48 | one measure per iteration: measure `j` compares the state after iteration `j + 1` with the `z` of the state before it |
| Admm.DualResidualScales | src/algo/admm.hpp:45 | the dual residual `‖-rho (z - zold)‖` is `abs(rho) ‖z - zold‖` |
| Admm.FixedPointConverges | src/algo/admm.hpp:44-63 | an iteration with `x = z = zold` passes both tests when `abstol > 0` |
| Admm.Update | src/algo/admm.hpp:38-42 | the four assignments compute exactly `Step` |
| Admm.Check | src/algo/admm.hpp:44-48 | the residuals and tolerances are exactly `Measure` of the new state |
| Admm.Iteration | src/algo/admm.hpp:38-48 | one pass of the loop body appends the new measure and moves the state to the next iteration |
| Admm.Run | src/algo/admm.hpp:22-72 | at most `iterLimit` iterations; the trace holds the residuals of the successive iterates; no iteration before the last converged, and a run that stops early stops on one that did; `x` is the last iterate, zero when `iterLimit <= 0` |
| Writer.TensorLayout | src/io/writer.cpp:79-100 | fails exactly on a zero dimension; otherwise the dimensions are the shape reversed, and the chunk is the one the round-robin passes reach when the byte counter first drops to 4 GiB or less; each chunk extent is its dimension halved some number of times and at least 1; the chunk's bytes are at most the counter, which ends at most 4 GiB (at least 2 GiB when any halving happened); no halving when the data fits |
| Writer.ProductReverse | src/io/writer.cpp:88-92 | reversing the dimensions keeps the element count, so the counter starts at the dataset's bytes |
| Writer.Reverse | src/io/writer.cpp:88-89 | entry `i` of the reversed shape is entry `n - 1 - i` of the shape |
| Writer.RoomReverse | src/io/writer.cpp:88-90 | reversing the dimensions keeps the number of halvings available |
| Writer.InitialRoom | src/io/writer.cpp:92 | the starting byte count is within the bound the shrinking loop keeps |
| Writer.ShrinkChunk | src/io/writer.cpp:90-100 | the loop ends with the chunk the round-robin passes reach when they stop, every extent in `[1, ds]`, the chunk's bytes at most the halved counter, the counter at most 4 GiB, and no change when the data already fits |
| Writer.ShrunkUnique | src/io/writer.cpp:93-99 | the passes stop after one number of passes only, so the chunk they leave is determined by the dimensions and the starting byte count |
| Writer.Pass | src/io/writer.cpp:94-99 | one pass of the loop body is one step of the round-robin reference, and keeps the loop invariant |
| Writer.FollowsTurn | src/io/writer.cpp:94-99 | a pass taken while the counter exceeds 4 GiB keeps the state on the reference's passes and the counter at or above the chunk's bytes |
| Writer.ShrinkingEnds | src/io/writer.cpp:93-100 | when the counter is within 4 GiB the loop invariant yields every property `ShrinkChunk` promises |
| Writer.ChunkBytesHalve | src/io/writer.cpp:95-97 | halving an extent above 1 at least halves the chunk's bytes, so the halved counter still covers them |
| Writer.Visit | src/io/writer.cpp:95-99 | a visit halves extent `k` and the byte count together when the extent exceeds 1, and uses up room (the termination measure) |
| Writer.HalveStep | src/io/writer.cpp:95-98 | one halving raises that dimension's count by one and keeps every extent in `[1, ds]` |
| Writer.SeekWithinRound | src/io/writer.cpp:99 | while room is left, the round-robin cursor reaches a halvable extent within one round |
| Writer.RoomLeft | src/io/writer.cpp:94 | a byte count above 4 GiB within the loop's bound leaves an extent to halve |
| Writer.HalvingKeepsBound | src/io/writer.cpp:95-98 | halving an extent above 1 uses up one unit of room and keeps the byte count within the bound |
| Writer.MatrixDims | src/io/writer.cpp:137-144 | rank 2 exactly when there is more than one column, with dimensions `(cols, rows)`; rank 1 otherwise, with `(rows)` |
| Writer.MatrixDimsKeepCount | src/io/writer.cpp:137-144 | the stored dimensions hold exactly `rows * cols` entries |
| ParseArgs.FileName | src/parse_args.cpp:94 | the filename has no `/` and is a suffix of the path that follows its last `/` |
| ParseArgs.LastDot | src/parse_args.cpp:94 | the position of the last `.` at or after index 1, or none when there is no such `.` |
| ParseArgs.Stem | src/parse_args.cpp:94 | the stem is a prefix of the filename |
| ParseArgs.StemRemovesExtension | src/parse_args.cpp:94 | the stem drops nothing, or exactly the last `.` and what follows it |
| ParseArgs.StemKeepsWhole | src/parse_args.cpp:94 | the stem is the whole filename exactly when it is `..` or has no `.` after its first character |
| ParseArgs.OutName | src/parse_args.cpp:86-97 | the name is `base-suffix.extension`; the base is `oName` when one is given, and otherwise the input's filename without its directories and last extension |
| ParseArgs.FileNameOfJoin | src/parse_args.cpp:94 | the filename of `dir/name` is `name` |
| ParseArgs.OutNameDropsDirectories | src/parse_args.cpp:94 | the input's directories never reach the output name |
| ParseArgs.LevelOf | src/parse_args.cpp:11-12 | the map is defined exactly on 0 to 3 |
| ParseArgs.Rank | src/parse_args.cpp:11-12 | every level sits at a position from 0 to 3 |
| ParseArgs.LevelOfRank | src/parse_args.cpp:11-12 | the map is a bijection between 0 to 3 and the four levels in order |
| ParseArgs.SelectLevel | src/parse_args.cpp:57-58 | `--verbosity` wins when given; otherwise `Info` exactly with `--verbose` and `None` without it |
| ParseArgs.VerbosityOverridesVerbose | src/parse_args.cpp:57-58 | with `--verbosity` the `--verbose` flag makes no difference; without it the level is at most `Info` |
| ParseArgs.ParseCommand | src/parse_args.cpp:54-70 | fails with "No input file specified" exactly when there is no input name; otherwise the level is the one `SelectLevel` picks |
| Split.CeilCovers | src/cmd/split.cpp:31 | `segs` blocks of `sps` cover the spokes, and every block before the last starts inside them |
| Split.EchoLabels | src/cmd/split.cpp:38-44 | one label per spoke |
| Split.EchoLabelOf | src/cmd/split.cpp:38-44 | spoke `j` carries echo `(j mod (spe * nE)) div spe`, which is below `nE` |
| Split.SpeCheckNeverFires | src/cmd/split.cpp:26-30 | as written the spokes-per-echo check never fails, even for 10 spokes with 3 per echo |
| Split.LoresPartition | src/cmd/split.cpp:58-81 | the lo-res and hi-res k-space spokes together are each input spoke exactly once, whichever end the lo-res ones come from |
| Split.TakeLores | src/cmd/split.cpp:52-81 | the lo-res file holds the points of the first `abs(lores)` spokes and the k-space from `lo_st`; the hi-res part keeps the following points, the first labels and the k-space from `hi_st` |
| Split.StrideSpec | src/cmd/split.cpp:95-103 | striding keeps `ceil(n / s)` elements, element `i` being element `i * s` |
| Split.StrideAffine | src/cmd/split.cpp:95-103 | striding consecutive spokes keeps spokes `s` apart |
| Split.StrideHires | src/cmd/split.cpp:95-103 | with `--stride` every `s`-th hi-res point, label and k-space spoke is kept |
| Split.TruncateHires | src/cmd/split.cpp:105-114 | `--size` keeps the first `size` hi-res points, labels and k-space spokes |
| Split.HiEchoesAt | src/cmd/split.cpp:76-113 | hi-res spoke `i` carries the label of input spoke `i * stride` |
| Split.HiresWithin | src/cmd/split.cpp:73-114 | every hi-res spoke written is an input spoke, for both its points and its k-space |
| Split.Rem | src/cmd/split.cpp:124 | the remainder lies in `[0, ns)` |
| Split.NumInt | src/cmd/split.cpp:120-121 | with at least one whole interleave, `num_int` counts the interleaves that start (at multiples of `step`) no later than the last whole one; with none, no interleave is written |
| Split.SomeInterleaves | src/cmd/split.cpp:120-121 | otherwise there are `(⌊spokes / ns⌋ - 1) * ns / step + 1` interleaves |
| Split.InterleaveInRange | src/cmd/split.cpp:129-131 | every interleave, the remainder on the last included, lies inside the spokes |
| Split.InterleavesTile | src/cmd/split.cpp:129-131 | with the default step each interleave starts where the previous one ends and the last ends at the last spoke |
| Split.Interleaves | src/cmd/split.cpp:116-142 | interleave `k` holds the points, labels and k-space of spokes `[step k, step k + n_k)` of the hi-res data |
| Split.InterleavesAffine | src/cmd/split.cpp:129-141 | interleave `k` of an evenly spaced run of spokes is itself evenly spaced, starting at spoke `step k` |
| Split.WriteHires | src/cmd/split.cpp:95-147 | one hi-res file, or the interleaves of the strided and truncated spokes; a `--size` outside the hi-res spokes, which the source does not check, is reported as `SizeOutOfRange` |
| Split.Run | src/cmd/split.cpp:26-147 | each failure the source reports, with its message, exactly when it happens, with the spokes-per-echo check corrected, plus the model's `SizeOutOfRange` for an out-of-range `--size`, reported after the lo-res file is written; the hi-res file or interleaves hold the spokes and labels given above |
| Sense.SobolevWeights | cxx/vineyard/sense/sense.cpp:95-110 | a fresh `n0 x n1 x n2` table whose entry `(i, j, k)` is `(1 + ki^2 + kj^2 + kk^2)^(l/2)`, with `l/2` truncated and each offset measured from the centre index `n/2` of its axis |
| Sense.CentreWeight | cxx/vineyard/sense/sense.cpp:99-105 | the weight is 1 at the centre |
| Sense.WeightGrows | cxx/vineyard/sense/sense.cpp:104-105 | for `l >= 0` every weight is at least 1 and grows with the distance from the centre |
| Sense.WeightShrinks | cxx/vineyard/sense/sense.cpp:105 | for `l < -1` every weight lies in `(0, 1]` |
| Sense.NonsenseExponent | cxx/vineyard/sense/sense.cpp:133 | the table `Nonsense` builds with `l = 16` has exponent 8 |
| Sense.CheckVolume | cxx/vineyard/sense/sense.cpp:38-40 | fails exactly when the requested volume is not below the number of volumes |
| Sense.LoresChannels | cxx/vineyard/sense/sense.cpp:32-63 | fails on the volume check, or on the first axis whose requested size exceeds the image; otherwise returns the cropped dimensions |
| Sense.LoresKernels | cxx/vineyard/sense/sense.cpp:65-84 | fails exactly on the volume check; otherwise the grid's dimensions |
| Sense.NonsenseShape | cxx/vineyard/sense/sense.cpp:112-121 | succeeds exactly when the dimensions match the reference and every spatial extent is at least `2 kW`, giving `(c0, c1, kW, kW, kW)`; otherwise the first failing check's message |
| Sense.Choose | cxx/vineyard/sense/sense.cpp:173-190 | `auto` self-calibrates, `espirit` fails as not supported, and any other string is read as a file name |

## Left out

- Complex vectors: the solver vectors (`Bidiag`, `Lsmr`, `Admm`) are real, and `CheckedDot` is the real dot product. The gridding and SENSE operators use the pair type `Cx`.
- Rounding, overflow, infinities and not-a-number are not modelled in vector arithmetic: dividing a vector by zero gives zeros (`Quot`), not infinities or not-a-number. Only the stopping tests of `lsmr` use `Ext` for IEEE division outcomes.
- The square root is a parameter characterised by `IsSqrt`; `std::hypot` is `sqrt(a^2 + b^2)`, and `std::pow` with an integral exponent is repeated multiplication.
- Lsmr.Run: the contract ties `x` to the recurrences (`After`, `Trace`) but states no convergence or accuracy; those are numerical claims with no exact statement over the reals.
- Lsmr.RunDamped: likewise, `x` is tied to the recurrences but no accuracy is claimed.
- Lsmr.Advance, Lsmr.Run and Lsmr.RunDamped: the drivers use the corrected `SymOrtho` and the corrected residual rotation (see Findings), not the code as written; `ResidualRotationAsWritten` and `SymOrthoAsWritten` model the written code.
- Lsmr.RunDamped: the comment above `lsmr_damp` (src/algo/lsmr.hpp:235) says `(A^T A + lambda I)`, but `lambda` is passed to `SymOrtho` (line 321) as a damping term, which solves `(A^T A + lambda^2 I) x = A^T b`; the model follows the code.
- Lsmr.Run: requires `lambda >= 0`, since `sqrt(lambda)` of a negative `lambda` is not-a-number in the source.
- The `minρ̅` update is skipped for `ii <= 1` (lsmr.hpp:192, 377), where pykrylov skips only the first iteration. The model keeps the code's `ii > 1` and states it (`Lsmr.Advance`); it is not claimed as a defect.
- Debug images, `Log::Print`, `Log::Tensor` and the progress log have no effect on results and are not modelled.
- ADMM's rho-imbalance check (admm.hpp:64-69) only logs and is left out of the loop body.
- Admm.Run: `inner.run` and `reg` are parameters, and `Norm` is the Euclidean norm over the reals.
- Multi-threading is left out: the per-thread workspaces in grid-nn.cpp:35-47 and 72-84, and `Threads::RangeFor`. `GridNN.Adj` models the direct path, entries taken in sorted order.
- GridNN.A: requires echo labels in `[0, 127]` (the non-negative `int8_t` values), the shape checks of the asserts (lines 28-32 and 90-93), and a grid of at most 128 echoes. On a larger grid `int8_t(nEcho - 1)` wraps (to -57 for 200 echoes, to 43 for 300), so the clamp sends echoes to a negative or wrong index; `GridNN.CellOf` states that wrapped value, but `A` and `Adj` are modelled only where it does not wrap.
- GridNN.Adj: the same requirements as `GridNN.A`, for the same reason (line 55).
- KernelNN.NearestNeighbour.KSpace: requires `w >= 1`, since a zero-width grid has no centre cell. The offset argument is ignored, as in the source.
- KernelNN.NearestNeighbour.Image: requires `w >= 1`.
- Writer.TensorLayout: requires `scalarSize * 2^rank <= 4 GiB`. All of the source's instantiations (ranks 1 to 6, 4- or 8-byte elements) meet it, and the loop would not end without it.
- Writer.TensorLayout: the 2 GiB lower bound is about the counter `sizeInBytes`, not the chunk. Halving an odd extent loses more than half of it, so the chunk can be smaller than the counter: a shape of 3·2^27 by 3 four-byte elements ends with a 1.5 GiB chunk. The model states the bound the code keeps, the chunk's bytes being at most the counter.
- HDF5 calls are left out: the dataset, property-list and write calls. Only the layout arithmetic is modelled.
- Split.WriteHires: the source does not check `--size` (split.cpp:105-113). A size outside the hi-res spokes makes the slice read out of bounds, which only a debug build's Eigen assertion catches. The model reports it as `SizeOutOfRange` and does not model the out-of-bounds read.
- Split.Run: uses the corrected spokes-per-echo check (see Findings), which fails when `spe` does not divide the spoke count; `SpeFailsAsWritten` and `SpeCheckNeverFires` model the code as written, whose check never fires.
- Split.Run: downsampling (`--ds`, split.cpp:83-85 and 91-93) is left out. It calls trajectory code that is not part of this model.
- Split.Run: HDF5 reading and writing are left out. Non-positive `--stride`, `--nspokes`, `--step`, `--spe` and `--echoes` are excluded by `FlagsValid`, since the source divides by them.
- The float divisions at split.cpp:120-121 are exact quotients truncated toward zero.
- The LSMR solves inside `LoresChannels`, `LoresKernels` and `Nonsense` are left out. So are the operator combinators of `Nonsense` (`Multiply`, `VStack`, `DStack`, `DiagRep`, `DiagScale`, `Identity`) and `TikhonovDivision`, whose definitions are not part of this model. Only the checks and shapes around them are modelled.
- Reading the SENSE maps from a file in `Choose` is left out; the model returns the file name.
- `ParseCommand`'s thread-count setting and its parsing of the command line are left out; the flags' values are parameters.

## Findings

| source | as written | input that shows it | evidently intended | confidence | as-written member | corrected member |
|---|---|---|---|---|---|---|
| src/cmd/split.cpp:28 | `spokes % spe` takes the flag object `spe`, which converts to `true`, so the remainder is by 1 | 10 spokes, `--spe 3 --echoes 2`: no failure | `spokes % spe.Get() != 0` fails | high, not executed | Split.SpeCheckNeverFires | Split.Run |
| src/op/sense.cpp:84 | `Adj`'s axis-2 size check adds `right_[4]` | maps of 8 x 8 x 8 on a grid of 10 x 10 x 12: margins `right_[2] = 1` and `right_[4] = 2`, so `A`'s output fails `Adj`'s check | `right_[2]`, as at line 50 | high, not executed | SenseOp.Op.AdjRejectsExample | SenseOp.Op.AShapeFitsAdj |
| src/algo/lsmr.hpp:16-19 | in the branch `abs(b) > abs(a)`, `SymOrtho` returns `(s, s τ, b / s)`, so `c` and `s` are swapped | `(a, b) = (1, 2)`: the triple does not rotate `(1, 2)` onto the axis | `(s τ, s, b / s)`, as in `StableGivens` (bidiag.cpp:20-24) | high, not executed | Lsmr.SymOrthoAsWrittenNotRotation | Lsmr.SymOrtho |
| src/algo/lsmr.hpp:350-352 | `lsmr_damp` takes `β̂ = ch β̈` and `β̈ = -s β̈`, leaving out the `c` and `ch` factors that pykrylov applies through `β́ = ch β̈` | `lambda = 0`, `alphaBar = alpha = beta = 1`: `β̂ = 1` instead of `1 / sqrt(2)` | `β́ = ch β̈`, `β̂ = c β́`, `β̈ = -s β́` | medium, not executed | Lsmr.AsWrittenResidualDiffers | Lsmr.ResidualRotation |
