# Voxel fields, potentials and corner interpolation for H3DNet cues

H3DNet turns sparse geometric cues (centres, corners, plane parameters) into
dense grids. The helper module `utils/cue_to_voxfield.py` does this work, and
this project models it in Dafny:

- **Gaussian splatting** (`get_{1,2,3}d_field`). Each point is scaled into
  grid units and clamped to `[0, v-1]` on every axis. It is then truncated to
  an integer location. A truncated, unnormalised Gaussian kernel of side
  `ksize` (half-width `k2`) is added onto the window of cells around that
  location, clipped to the grid.
- **Potentials** (`get_{1,2,3}d_potential_function`). These use the same
  windows as the field functions. For each point they multiply a given field by
  the matching kernel slice, and they add up every point's window sum.
- **Kernels** (`gaussian_{1,2,3}d_torch`). These sample `exp(-d^2 / (2 dev^2))`
  at the integer offsets of a `ksize^D` block.
- **Corner interpolation** (`trilinear_interpolation`,
  `bilinear_interpolation`). Each point is clamped to the world box, then
  scaled into grid units. Its unit weight is spread over the `2^D` corners of
  the cell it falls in, with one `+=` per corner.

Modules:

- `GridIndex` covers the index arithmetic: truncation, clamping, grid extent,
  and per-axis windows (`Span`).
- `PointTensor` holds the in-place column updates on the `[N, D]` point tensor.
- `Tensors` holds dense tensors as sequences.
- `Kernels` holds the three kernels.
- `Field1`, `Field2` and `Field3` hold the splatting and potential functions,
  one module per dimension.
- `Interpolation` holds the two interpolators.
- `Sums` holds finite sums over index ranges and over sequences of locations.

Each accumulation loop of the source is a Dafny `method` with a `while` loop.
Each is proved against a function that gives the value of every cell, or the
value of the potential:

- `FieldAt` is a zero grid plus every point's `Share`.
- `PotentialOf` is the sum of every point's `WindowDot`.
- `CellMass3` / `CellMass2` are what a list of `+=` deposits leaves in a cell.

The lemmas about those functions state what the source relies on:

- windows stay inside the grid and the kernel;
- kernel entries line up with grid cells;
- the field is additive and does not depend on point order;
- a potential is the correlation of field and splat (in 1-D:
  `Field1.PotentialIsCorrelation`), and over a field of ones an unclipped
  window collects the whole kernel (in 1-D, 2-D and 3-D);
- interpolation mass and per-cell weights.

Notes on what the source does:

- Truncation. Locations and corners use `.int()`, which truncates toward
  zero. The truncated values are never negative, so this equals floor.
- Order of steps. The field and potential functions scale first and then
  clamp in grid units (`[0, v-1]`). The interpolators clamp in world units and
  then scale, so their scaled coordinate can reach `v`.
- Interpolation fractions. `f` is `point - low`, taken after `low` is clamped.
- Argument validation. The source does not validate bounds, voxel sizes or
  kernel sizes. Some bad values raise: a zero voxel size divides by zero, and
  a negative cell count (bounds inverted by a voxel or more) makes
  `torch.zeros` fail. Others, a smaller inversion among them, produce an empty grid.
  The model states what it needs as preconditions:
  - An axis is a `GridAxis`: positive voxel size and at least one cell.
  - `ksize >= 1` and `dev != 0`.
  - An even `ksize` is accepted as in the source: `k2 = (ksize-1)/2` truncated.

## Model

| member | source | states |
|---|---|---|
| GridIndex.Trunc | utils/cue_to_voxfield.py:141 | `.int()` truncates toward zero: for x >= 0 the result r has r <= x < r+1, and for x <= 0 it has r-1 < x <= r |
| GridIndex.Clamp | utils/cue_to_voxfield.py:134-136 | `torch.clamp` lands in [lo, hi], is the identity inside it, and gives lo below it and hi above it |
| GridIndex.ClampInt | utils/cue_to_voxfield.py:33-38 | integer clamp of the corner indices: in [lo, hi], the identity inside, lo below and hi above |
| GridIndex.Axis.Cells | utils/cue_to_voxfield.py:131-133 | `int((max-min)/vs)` is the largest cell count n with n <= (max-min)/vs < n+1 |
| GridIndex.GridCoord | utils/cue_to_voxfield.py:127-136 | a coordinate scaled and then clamped lies in [0, v-1], and equals the scaled value when that is already in range |
| GridIndex.GridLoc | utils/cue_to_voxfield.py:141 | every point's location is a cell of the grid (0 <= loc <= v-1) and is the cell its clamped coordinate falls in |
| GridIndex.WorldCoord | utils/cue_to_voxfield.py:18-23 | clamping in world units before scaling gives a coordinate in [0, v+1), equal to the scaled value for points inside the box |
| GridIndex.HalfWidth | utils/cue_to_voxfield.py:139 | the half-width k2 gives 2*k2+1 <= ksize <= 2*k2+2, so the full window fits in the kernel, and it uses all of it exactly when ksize is odd |
| GridIndex.MakeSpan | utils/cue_to_voxfield.py:143-148 | for a location in the grid, 0 <= lo <= loc <= hi <= v-1 and hi-lo <= 2*k2; the kernel slice lies inside [0, 2*k2] and has the grid slice's length; a cell is in the window iff it is in the grid and within k2 of loc; the window is unclipped iff k2 <= loc and loc+k2 < v |
| GridIndex.SpanAlignment | utils/cue_to_voxfield.py:150-152 | cell g of the window gets kernel entry g-loc+k2, and the point's own cell always gets the kernel centre k2, however the window is clipped |
| PointTensor.ScaleColumn | utils/cue_to_voxfield.py:127-129 | column c of every row becomes (x-min)/vs; every other column is unchanged |
| PointTensor.ClampColumn | utils/cue_to_voxfield.py:134-136 | column c of every row is clamped to [0, v-1]; every other column is unchanged |
| PointTensor.ClampWorldColumn | utils/cue_to_voxfield.py:18-20 | column c of every row is clamped to [min, max]; every other column is unchanged |
| Kernels.Profile | utils/cue_to_voxfield.py:112 | the kernel's value at squared distance d2 from its mean: exp of minus d2 over 2 dev^2 (helper definition shared by the three kernels) |
| Kernels.Gaussian1 | utils/cue_to_voxfield.py:121-124 | ksize entries, entry i being exp of minus (i-mean)^2 over 2 dev^2 |
| Kernels.Gaussian2 | utils/cue_to_voxfield.py:115-119 | a ksize x ksize block whose entry [i][j] sits at squared distance (i-mx)^2+(j-my)^2 from the mean |
| Kernels.Gaussian3 | utils/cue_to_voxfield.py:109-113 | a ksize^3 block whose plane i is the plane of squared distances (i-mx)^2+(j-my)^2+(k-mz)^2 |
| Kernels.Gaussian3Entry | utils/cue_to_voxfield.py:110-112 | every entry [i][j][k] of the 3-D kernel is exp of minus its squared distance from the mean over 2 dev^2 |
| Kernels.CentreIsExpZero | utils/cue_to_voxfield.py:112 | the kernel's value at distance zero is exp(0) |
| Kernels.Gaussian3Radial | utils/cue_to_voxfield.py:112 | the 3-D kernel is radial: two entries at the same squared distance from the mean are equal |
| Kernels.CentredKernel1 | utils/cue_to_voxfield.py:183 | the kernel built with mean k2 has exp(0) at its centre and is symmetric about it |
| Kernels.CentredKernel2 | utils/cue_to_voxfield.py:165 | the 2-D kernel with mean (k2, k2) has exp(0) at its centre and is symmetric in each axis |
| Kernels.CentredKernel3 | utils/cue_to_voxfield.py:140 | the 3-D kernel with mean (k2, k2, k2) has exp(0) at its centre and is symmetric in each axis |
| Field1.FieldAt | utils/cue_to_voxfield.py:188-189 | the reference value of a cell of the field: a zero grid plus every point's share of the cell (definition; Splat and Field are proved equal to it, FieldAdditive and FieldOrderIndependent state its laws) |
| Field1.Share | utils/cue_to_voxfield.py:186-189 | a point adds nothing outside the cells of the grid within k2 of it, and adds to each such cell the kernel entry at the cell's offset from the point plus k2 |
| Field1.WindowDot | utils/cue_to_voxfield.py:260 | `torch.sum(field[lo:hi+1] * gauss[...])`: the sum over the window of the field times the aligned kernel entry (definition; its properties are WindowDotAsGridSum and UnclippedOnesWindow) |
| Field1.PotentialOf | utils/cue_to_voxfield.py:258-260 | the reference value of the potential: every point's window sum, added up (definition; Field1.Potential is proved equal to it, PotentialIsCorrelation relates it to the field) |
| Field1.Locations | utils/cue_to_voxfield.py:178-184 | one location per point, each a cell of the grid |
| Field1.AddKernelWindow | utils/cue_to_voxfield.py:189 | cells of the window grow by the aligned kernel entry; no other cell changes |
| Field1.Splat | utils/cue_to_voxfield.py:181-189 | after the loop, every cell holds the sum over all points of that point's share of the cell |
| Field1.Field | utils/cue_to_voxfield.py:177-190 | `get_1d_field` returns a v-cell grid holding, in each cell, the field of the points' locations under the kernel centred at k2 |
| Field1.Potential | utils/cue_to_voxfield.py:247-261 | `get_1d_potential_function` returns the sum over points of the window sums of field times kernel |
| Field1.WindowDotAsGridSum | utils/cue_to_voxfield.py:260 | one point's window sum equals the whole-grid sum of the field times that point's share |
| Field1.PotentialAsRowSums | utils/cue_to_voxfield.py:258-260 | the potential is the sum over points of their whole-grid weighted shares |
| Field1.WeightedColumn | utils/cue_to_voxfield.py:186-189 | summed over the points, a cell's weighted shares are the field there times the splatted cell |
| Field1.PotentialIsCorrelation | utils/cue_to_voxfield.py:247-261 | the potential of a field at some points equals the sum over all cells of field times the splat of those points |
| Field1.OnesCellProduct | utils/cue_to_voxfield.py:258-260 | over a field of ones, the correlation with the splat is the total mass of the splat |
| Field1.OnesDot | utils/cue_to_voxfield.py:260 | over a field of ones, a point whose window is unclipped collects the whole kernel sum |
| Field1.OnesPotential | utils/cue_to_voxfield.py:258-260 | over a field of ones, with no window clipped, the potential is the number of points times the kernel sum |
| Field1.UnclippedOnesWindow | utils/cue_to_voxfield.py:260 | a window that is unclipped and lies over ones sums to the kernel sum |
| Field1.FieldMassUnclipped | utils/cue_to_voxfield.py:186-189 | with no window clipped and an odd kernel, the total mass of the field is the number of points times the kernel sum |
| Field1.BroadcastLowerShape | utils/cue_to_voxfield.py:185-189 | with points of shape [N, 1], the broadcast lower bound `xmin[i]` has N entries, so it is a single slice bound iff there is one point; each entry equals the intended window bound |
| Field1.OwnCellGetsCentre | utils/cue_to_voxfield.py:186-189 | a point's own cell receives the kernel centre, however its window is clipped |
| Field1.OwnCellPeak | utils/cue_to_voxfield.py:183-189 | with the source's kernel, a point's own cell receives exp(0) |
| Field1.FieldAdditive | utils/cue_to_voxfield.py:188-189 | the field of two batches of points is the sum of their fields |
| Field1.FieldOrderIndependent | utils/cue_to_voxfield.py:188-189 | the field depends only on the multiset of locations, not their order |
| Field1.PotentialOrderIndependent | utils/cue_to_voxfield.py:258-260 | the potential depends only on the multiset of locations |
| Field2.FieldAt | utils/cue_to_voxfield.py:172-174 | the reference value of a cell of the 2-D field: a zero grid plus every point's share of the cell (definition; Splat and Field are proved equal to it) |
| Field2.Share | utils/cue_to_voxfield.py:168-174 | a point adds nothing outside the cells of the grid within k2 of it on both axes, and adds to each such cell the kernel entry at its offset from the point plus (k2, k2) |
| Field2.WindowDot | utils/cue_to_voxfield.py:243-244 | `torch.sum(field[window] * gauss[...])` over the 2-D window (definition; its property is UnclippedOnesWindow) |
| Field2.PotentialOf | utils/cue_to_voxfield.py:241-244 | the reference value of the potential: every point's window sum, added up (definition; Correlate and Potential are proved equal to it) |
| Field2.Loc | utils/cue_to_voxfield.py:157-166 | a point's location is a cell of the vx x vy grid |
| Field2.Locations | utils/cue_to_voxfield.py:166 | one location per point |
| Field2.AddKernelWindow | utils/cue_to_voxfield.py:173-174 | cells of the 2-D window grow by the aligned kernel entry; no other cell changes |
| Field2.Splat | utils/cue_to_voxfield.py:163-174 | after the loop, every cell holds the sum of every point's share |
| Field2.Normalise | utils/cue_to_voxfield.py:157-162 | columns 0 and 1 are replaced by their grid coordinates (scaled, then clamped); the other columns are unchanged |
| Field2.TruncateLocations | utils/cue_to_voxfield.py:166 | each location is the truncation of the normalised coordinates |
| Field2.Field | utils/cue_to_voxfield.py:156-175 | `get_2d_field` normalises the caller's points in place and returns a vx x vy grid holding the field of their locations |
| Field2.Correlate | utils/cue_to_voxfield.py:241-244 | the accumulation loop ends with the sum of every point's window sum |
| Field2.Potential | utils/cue_to_voxfield.py:224-245 | `get_2d_potential_function` normalises the points in place and returns the potential of the field at their locations |
| Field2.UnclippedOnesRow | utils/cue_to_voxfield.py:243-244 | one row of a y-unclipped window over ones sums to the matching kernel row |
| Field2.UnclippedOnesRows | utils/cue_to_voxfield.py:243-244 | the first rows of such a window sum to the matching first kernel rows |
| Field2.UnclippedOnesWindow | utils/cue_to_voxfield.py:243-244 | a window unclipped on both axes over ones sums to the kernel sum |
| Field2.OwnCellGetsCentre | utils/cue_to_voxfield.py:168-174 | a point's own cell receives the kernel centre, however its window is clipped |
| Field2.OwnCellPeak | utils/cue_to_voxfield.py:165-174 | with the source's kernel, that centre is exp(0) |
| Field2.FieldAdditive | utils/cue_to_voxfield.py:172-174 | the field of two batches is the sum of their fields |
| Field2.FieldOrderIndependent | utils/cue_to_voxfield.py:172-174 | the field depends only on the multiset of locations |
| Field2.PotentialOrderIndependent | utils/cue_to_voxfield.py:241-244 | the potential depends only on the multiset of locations |
| Field3.FieldAt | utils/cue_to_voxfield.py:149-152 | the reference value of a cell of the 3-D field: a zero grid plus every point's share of the cell (definition; Splat and Field are proved equal to it) |
| Field3.Share | utils/cue_to_voxfield.py:143-152 | a point adds nothing outside the cells of the grid within k2 of it on every axis, and adds to each such cell the kernel entry at its offset from the point plus (k2, k2, k2) |
| Field3.WindowDot | utils/cue_to_voxfield.py:218-220 | `torch.sum(field[window] * gauss[...])` over the 3-D window (definition; its property is UnclippedOnesWindow) |
| Field3.PotentialOf | utils/cue_to_voxfield.py:216-220 | the reference value of the potential: every point's window sum, added up (definition; Correlate and Potential are proved equal to it) |
| Field3.CentredKernel | utils/cue_to_voxfield.py:139-140 | the kernel `gaussian_3d_torch(k2, k2, k2, ksize, dev)` that the 3-D field and potential build (helper definition; its centre and symmetry are Kernels.CentredKernel3) |
| Field3.Loc | utils/cue_to_voxfield.py:127-141 | a point's location is a cell of the vx x vy x vz grid |
| Field3.Locations | utils/cue_to_voxfield.py:141 | one location per point |
| Field3.AddKernelWindow | utils/cue_to_voxfield.py:150-152 | cells of the 3-D window grow by the aligned kernel entry; no other cell changes |
| Field3.SplatPoint | utils/cue_to_voxfield.py:150-152 | one pass of the loop takes a grid holding the field of the first i points to one holding the field of the first i+1 |
| Field3.FieldStep | utils/cue_to_voxfield.py:149-152 | taking one more point adds exactly that point's share to every cell |
| Field3.Splat | utils/cue_to_voxfield.py:138-152 | after the loop, every cell holds the sum of every point's share |
| Field3.Normalise | utils/cue_to_voxfield.py:127-136 | columns 0 to 2 are replaced by their grid coordinates (scaled, then clamped); the other columns are unchanged |
| Field3.TruncateLocations | utils/cue_to_voxfield.py:141 | each location is the truncation of the normalised coordinates |
| Field3.Field | utils/cue_to_voxfield.py:126-153 | `get_3d_field` normalises the caller's points in place and returns a vx x vy x vz grid holding the field of their locations |
| Field3.Correlate | utils/cue_to_voxfield.py:216-221 | the accumulation loop ends with the sum of every point's window sum |
| Field3.Potential | utils/cue_to_voxfield.py:192-221 | `get_3d_potential_function` normalises the points in place and returns the potential of the field at their locations |
| Field3.UnclippedOnesRow | utils/cue_to_voxfield.py:218-220 | one z-row of a z-unclipped window over ones sums to the matching kernel row |
| Field3.UnclippedOnesRows | utils/cue_to_voxfield.py:218-220 | every row of one plane of a window unclipped in y and z lines up with a kernel row |
| Field3.AlignedRows | utils/cue_to_voxfield.py:218-220 | a plane whose rows line up with kernel rows sums to the matching kernel plane |
| Field3.UnclippedOnesPlane | utils/cue_to_voxfield.py:218-220 | one plane of a window unclipped in y and z over ones sums to the matching kernel plane |
| Field3.UnclippedOnesPlanes | utils/cue_to_voxfield.py:218-220 | the first planes of such a window sum to the matching first kernel planes |
| Field3.UnclippedOnesWindow | utils/cue_to_voxfield.py:218-220 | a window unclipped on all three axes over ones sums to the kernel sum |
| Field3.OwnCellGetsCentre | utils/cue_to_voxfield.py:143-152 | a point's own cell receives the kernel centre, however its window is clipped |
| Field3.OwnCellPeak | utils/cue_to_voxfield.py:140-152 | with the source's kernel, that centre is exp(0) |
| Field3.FieldAdditive | utils/cue_to_voxfield.py:149-152 | the field of two batches is the sum of their fields |
| Field3.FieldOrderIndependent | utils/cue_to_voxfield.py:149-152 | the field depends only on the multiset of locations |
| Field3.PotentialOrderIndependent | utils/cue_to_voxfield.py:216-221 | the potential depends only on the multiset of locations |
| Interpolation.CornerOf | utils/cue_to_voxfield.py:31-40 | 0 <= low <= high <= v-1; high is low+1 or low; low+f is the scaled coordinate; f is in [0,1) between distinct corners; the corners coincide only in the last cell, where f lies in [0,2) |
| Interpolation.CornerAxis | utils/cue_to_voxfield.py:18-40 | a coordinate clamped in world units, scaled and split into corners: both corners are cells of the axis, high is low+1 or low, and for a point inside the box low+f is its scaled coordinate |
| Interpolation.InteriorWeightsReproduce | utils/cue_to_voxfield.py:40-51 | between distinct corners, the weights 1-f and f reproduce the coordinate as the weighted mean of low and high, and f lies in [0, 1) |
| Interpolation.CellMass3 | utils/cue_to_voxfield.py:44-51 | the reference value of a cell after a list of `+=` deposits on a zero grid: the sum of the weights of the deposits on that cell (definition; Spread3 and TrilinearInterpolation are proved equal to it) |
| Interpolation.CellMass2 | utils/cue_to_voxfield.py:79-82 | the same for a 2-D grid (definition; Spread2 and both bilinear methods are proved equal to it) |
| Interpolation.TrilinearDeposits | utils/cue_to_voxfield.py:44-51 | eight deposits, in the source's order |
| Interpolation.TrilinearMass | utils/cue_to_voxfield.py:44-51 | the eight weights sum to one, whatever the fractions |
| Interpolation.DepositShare2 | utils/cue_to_voxfield.py:79-82 | a deposit of a product weight puts into a cell the product of the axes' picks |
| Interpolation.Lift | utils/cue_to_voxfield.py:44-51 | the (y, z) deposits are moved onto x plane p and scaled by its weight |
| Interpolation.LiftShare | utils/cue_to_voxfield.py:44-51 | a lifted deposit puts into a cell the x pick times what the (y, z) deposit puts there |
| Interpolation.LiftCell | utils/cue_to_voxfield.py:44-51 | a lifted spread puts into a cell the x pick times the bilinear mass of its (y, z) cell |
| Interpolation.TrilinearAsLifts | utils/cue_to_voxfield.py:44-51 | the eight trilinear deposits are the corrected bilinear deposits lifted onto the low and high x planes, with the middle pair of the high plane swapped |
| Interpolation.TrilinearLowHalf | utils/cue_to_voxfield.py:44-47 | the first four deposits are the bilinear ones lifted onto x low with weight 1-f |
| Interpolation.TrilinearHighHalf | utils/cue_to_voxfield.py:48-51 | the last four are the bilinear ones, middle pair swapped, lifted onto x high with weight f |
| Interpolation.TrilinearSplit | utils/cue_to_voxfield.py:44-51 | a cell's trilinear mass is what the low half and the high half put there |
| Interpolation.SwappedBilinearCell | utils/cue_to_voxfield.py:49-50 | swapping the middle two deposits changes no cell |
| Interpolation.LowHalfCell | utils/cue_to_voxfield.py:44-47 | the low half puts into a cell the low x pick times the bilinear mass |
| Interpolation.HighHalfCell | utils/cue_to_voxfield.py:48-51 | the high half puts into a cell the high x pick times the bilinear mass |
| Interpolation.TrilinearHalves | utils/cue_to_voxfield.py:44-51 | a cell's trilinear mass is the sum of both x picks, each times the bilinear mass |
| Interpolation.TrilinearOverBilinear | utils/cue_to_voxfield.py:44-51 | trilinear is the x axis weight times the corrected bilinear mass over (y, z) |
| Interpolation.TrilinearCellWeights | utils/cue_to_voxfield.py:44-51 | every cell gets the product of its three per-axis weights (1-f at low, f at high, both when they coincide) |
| Interpolation.BilinearDepositsAsWritten | utils/cue_to_voxfield.py:79-82 | four deposits as written, the fourth a repeat of the third |
| Interpolation.BilinearMassAsWritten | utils/cue_to_voxfield.py:79-82 | the total deposited is (1-f0)+2 f0 (1-f1), which is one iff f0 = 0 or f1 = 1/2 |
| Interpolation.BilinearCornersAsWritten | utils/cue_to_voxfield.py:79-82 | with distinct corners, (high, high) gets nothing and (high, low) gets 2 f0 (1-f1) |
| Interpolation.BilinearCounterexample | utils/cue_to_voxfield.py:54-83 | on a 5 x 5 grid of unit cells, the point (2.5, 2.25) deposits 1.25 in total and nothing at (3, 3) |
| Interpolation.DefaultBilinearYAxisEmpty | utils/cue_to_voxfield.py:54-74 | with the default y bounds and voxel size, the y axis has 0 cells, and an index clamped to [0, vy-1] is -1 |
| Interpolation.ThetaAxisCorners | utils/cue_to_voxfield.py:54-74 | a theta axis from 0 to 180 in steps of 10 has 18 cells, and both corners of every point lie on it |
| Interpolation.BilinearDeposits | utils/cue_to_voxfield.py:79-82 | four deposits with the last one at (high, high) |
| Interpolation.BilinearMass | utils/cue_to_voxfield.py:79-82 | the corrected weights sum to one |
| Interpolation.BilinearPicks | utils/cue_to_voxfield.py:79-82 | each corrected cell gets the product of the two axes' picks |
| Interpolation.ProductCell | utils/cue_to_voxfield.py:79-82 | four deposits on the product of two corner pairs with product weights put into a cell the product of the per-axis sums |
| Interpolation.BilinearCellWeights | utils/cue_to_voxfield.py:79-82 | every corrected cell gets the product of its two per-axis weights |
| Interpolation.Deposit3At | utils/cue_to_voxfield.py:44-51 | one `+=` statement adds deposit k to its cell; every cell then holds the mass of the first k+1 deposits |
| Interpolation.Deposit2At | utils/cue_to_voxfield.py:79-82 | one `+=` statement adds deposit k to its cell; every cell then holds the mass of the first k+1 deposits |
| Interpolation.Spread3 | utils/cue_to_voxfield.py:44-51 | a zero grid after the `+=` statements holds, in every cell, the mass of the deposits on it |
| Interpolation.Spread2 | utils/cue_to_voxfield.py:79-82 | the same in two dimensions |
| Interpolation.Normalise3 | utils/cue_to_voxfield.py:18-23 | the first three columns are replaced by their world-clamped, scaled coordinates; the rest are unchanged |
| Interpolation.Normalise2 | utils/cue_to_voxfield.py:60-63 | the same for the first two columns |
| Interpolation.TrilinearInterpolation | utils/cue_to_voxfield.py:14-52 | the point is normalised in place, and the returned vx x vy x vz grid holds in every cell the mass of the point's eight corner deposits |
| Interpolation.BilinearInterpolationAsWritten | utils/cue_to_voxfield.py:54-83 | the point is normalised in place, and the returned grid holds the mass of the four deposits as written |
| Interpolation.BilinearInterpolation | utils/cue_to_voxfield.py:54-83 | the same with the fourth deposit at (high, high) |

## Left out

- `linear_interpolation` (lines 86-108) is not modelled. Lines 106-107 index a one-dimensional tensor with two indices, so it fails on every input, and it has no behaviour to model.
- The voting module and the `__main__` block (lines 264-273) are not modelled. The latter reads files, writes PLY files and prints.
- Floating point is not modelled. All arithmetic is on exact reals, and rounding of `float32` values is not captured.
- `torch.exp` is not modelled. It is a parameter `exp: real -> real` of the kernels and of every function that builds one, so kernel values are uninterpreted apart from their arguments.
- Devices and dtypes are not modelled. `.float()`, `.long()`, and the CPU or GPU a tensor lives on have no effect on the model.
- Field1.Field, Field1.Potential: as written, the 1-D functions run only with no points, or with one point of shape [1, 1] (see Findings). With points of shape [N], `locations[i, 0]` at lines 189 and 260 fails. With shape [N, 1], the window bounds at lines 186-187 and 256-257 broadcast to N x N, and the slice fails for N >= 2. The model uses the evidently intended per-point location `locations[i]` and its window. Points are a `seq<real>`, because the source rebinds `points` rather than writing it.
- Interpolation.TrilinearInterpolation, Interpolation.BilinearInterpolation, Interpolation.BilinearInterpolationAsWritten: these take a batch of one point. In torch, an indexed `+=` whose indices repeat across the points of one batch keeps one write per cell instead of accumulating. Multi-point batches are not modelled.
- GridIndex.GridAxis: every axis is assumed to have a positive voxel size and at least one cell. The source does not check this. A zero voxel size raises a division by zero in `int((max-min)/vs)` (lines 26, 65, 131, 159, 179). Upper bounds at least one voxel below lower bounds give a negative cell count, and `torch.zeros` raises (lines 29, 67, 138, 163, 181); a smaller inversion truncates to zero cells. An axis with zero cells gives an empty grid: the fields then clamp to `[0, -1]`, and the interpolators index a cell that does not exist. `bilinear_interpolation`'s own default y axis is such an axis (see Findings).
- Field1.Field, Field2.Field, Field3.Field, Field1.Potential, Field2.Potential, Field3.Potential: these require `ksize >= 1` and `dev != 0`. The source does not check either. With `ksize = 0` the kernel is empty and `k2 = int(-0.5) = 0`. The field's slice `+=` then fails on shape (lines 150, 174, 189). The potential's product broadcasts the one-cell field slice against the empty kernel slice, so the potential returns 0 (lines 218, 243, 260). With `ksize < 0`, `torch.arange` raises while the kernel is built (lines 110, 116, 122). With `dev == 0` the tensor division gives infinities and NaN, which reals do not model.
- Field1.Potential, Field2.Potential, Field3.Potential: these require the field to cover the grid. The source sometimes accepts a smaller field: it fails only when some window reaches past the field's end, and a field slice of length 1 broadcasts against the kernel slice and yields a value. Fields smaller than the grid are not modelled.
- Field1.Splat, Field2.Splat, Field3.Splat: the per-axis windows are computed inside the loop, one point at a time. The source computes them for all points first, in vectorised form. The values are the same.
- Field1.FieldAt, Field2.FieldAt, Field3.FieldAt, and every lemma about them: these are stated over integer locations, not raw points. Field/Potential connect the two through `Locations`.
- Interpolation.CornerOf: in the last cell, when the two corners coincide, `f` can reach 1 or more. The source's weights `1-f` and `f` are then no longer both in [0, 1]. The model keeps the source's arithmetic and proves the mass and tensor-product laws without a bound on `f`.

## Findings

| source | as written | input that shows it | evidently intended | confidence | as-written member | corrected member |
|---|---|---|---|---|---|---|
| utils/cue_to_voxfield.py:82 | the fourth deposit repeats the third, `vox[high0, low1] += f0 (1-f1)`, so cell (high0, high1) is never written and the mass is (1-f0)+2 f0 (1-f1) | x axis and y axis both from 0.0 to 5.0 with voxel 1.0, point (2.5, 2.25): total mass 1.25, cell (3, 3) gets 0 instead of 0.125 | `vox[high0, high1] += f0 f1`, which makes the weights sum to one and gives every cell the product of its axis weights | not executed | Interpolation.BilinearInterpolationAsWritten, Interpolation.BilinearCounterexample | Interpolation.BilinearInterpolation, Interpolation.BilinearMass |
| utils/cue_to_voxfield.py:54 | the default `vs_y=10` over the default y bounds `[-3.84, 3.84]` gives `vy = int(0.768) = 0` (line 66); the y indices are then clamped to `[0, -1]`, which is -1 (lines 72, 74), and `vox[..., -1]` on an axis of size 0 raises at line 79 | a call with the default arguments and any non-empty batch of points | a y axis with at least one cell; the docstring (lines 56-58) gives theta a range of 0 to 180, which in steps of 10 is 18 cells | not executed | Interpolation.DefaultBilinearYAxisEmpty | Interpolation.ThetaAxisCorners, Interpolation.BilinearInterpolation |
| utils/cue_to_voxfield.py:186-189 | `get_1d_field` and `get_1d_potential_function` index `locations[i, 0]` (lines 189, 260). This fails for points of shape [N]. For shape [N, 1], `torch.max(m*0, locations-k2)` and `torch.min(...)` (lines 186-187, 256-257) broadcast [N] against [N, 1] to N x N, so the slice bound `xmin[i]` has N entries | any call with two or more points, of either shape | one window per point, bounds `max(0, loc-k2)` and `min(v-1, loc+k2)` taken from `locations[i]`, as in the 2-D and 3-D functions | not executed | Field1.BroadcastLowerShape | Field1.Field, Field1.Potential |
