# Fibre phantom geometry in Dafny

This project models the discrete geometry engine of the Fiber-phantom-module. The
engine builds a synthetic fibre-reinforced sample in a 3-D voxel volume and then
damages it. The steps are:

- Grow filaments (chains of voxel centres) inside a cylindrical pipe along x.
- Rasterise each accepted filament as a chain of discrete balls of fibre (code 1.0).
- Fill the pipe's remaining air with resin (code 0.1).
- Punch small air voids (code 0.0) into the resin.
- Cut a defect, which zeros a region.

The volume is an `array3<real>`, and every pass is an in-place method. Each method
states its full new state voxel by voxel: which voxels change, to what, and that
nothing else changes. Python's exceptions are `Result.Failure` values, and a
rejected attempt (`None` in Python) is `Success(None)`.

Modules, one per part of the source:

- `Wrappers`: `Option`, `Result` and the Python error kinds.
- `Voxels`: the bounds and pipe predicates, the discrete ball and the sphere check.
  It also holds the sphere writer, the per-filament rasteriser, the resin fill,
  `np.argwhere`, and one triple-loop kernel (`Paint`) that every writer uses. The
  fibre code is a parameter: the package tests and writes `1.0`, the two older
  root scripts (`generate_filaments.py`, `generate_fibers.py`) test and write `1`.
  The root scripts' predicates and writers (lines 14-47 and 16-49) are therefore the
  same members with `LEGACY_FIBER`.
- `Draws`: `random.randint`, `np.random.randint`, `random.choice` and
  `random.sample`. The randomness comes in as draws: a draw is any natural number,
  and the call maps it onto the values the call can return. Every such value is
  reached by some draw, so a property stated for all draws holds for every run.
- `Directions`: the biased direction pool.
- `PointGenerators`: the class with the mutable growth-end flag and last point, the
  mode dispatch, the start ranges, the turn-angle rules, and numpy rounding
  (`np.round` to even).
- `Growth`: the package's `generate_3d_filament`. `Grown` is the chain obtained by
  inserting the accepted points at the end the flag names.
- `Placement`: rasterising an accepted chain, together with the invariant the
  drivers keep. The volume holds fibre exactly on the placed chains' spheres over
  the initial volume, and no grown point's sphere touched earlier fibre. It also
  holds the record of an attempt loop: a list of attempts, each with its result and
  accepted points. `Run` says that attempt a followed the generator's outcome rule
  for the randomness of attempt a, on the snapshot of the initial volume overlaid
  with the chains kept before it (`Overlay`). It also says the loop stopped at the
  first failure, at the wanted count or at the attempt budget. `RunUnique` shows
  that such a record is unique, so each driver's result is fixed by its inputs.
- `Defects`: the seven defect kinds and the name dispatch. Each parameter set is
  described by the primitive regions it zeros, so applying a defect is proved equal
  to zeroing the union of those regions.
- `Batch`: the package driver, the void pass and the whole pipeline.
- `LegacyStart`, `LegacyFilaments`, `LegacyFibers`: the two root scripts'
  start-point loops, growth loops and drivers.

The float parts of each step are inputs, and so is every random draw. The float
parts are:

- directions: normalisation, cos and sin, Gaussian jitter (jaggedness);
- the rounded next point in the root scripts;
- `sin` in the wave rule, which is an uninterpreted `sinPi`.

## Model

| member | source | states |
|---|---|---|
| Voxels.BoundsIffBallInArray | Fiber-phantom-module/fiber_phantom/generate_filaments.py:20-23 | the half-open margin test with margin r holds iff every voxel of the discrete ball of radius r lies in the array |
| Voxels.BallInsideCube | Fiber-phantom-module/fiber_phantom/generate_filaments.py:30-34 | the cube loop `range(-r, r+1)` visits every offset with dx²+dy²+dz² ≤ r² |
| Voxels.BoundsGiveBallFits | Fiber-phantom-module/fiber_phantom/generate_filaments.py:166-168 | when the bounds test comes first, the sphere check's unchecked indices stay in range for any pipe radius |
| Voxels.CanPlaceSphere | Fiber-phantom-module/fiber_phantom/generate_filaments.py:30-39 | true iff every ball voxel is inside the pipe and does not hold the fibre code; it only reads the volume |
| Voxels.CheckPoint | Fiber-phantom-module/fiber_phantom/generate_filaments.py:166-168 | the short-circuit bounds, pipe and sphere check equals `Acceptable`, and the sphere scan runs only after bounds and pipe pass |
| Voxels.AcceptableStamp | Fiber-phantom-module/fiber_phantom/generate_filaments.py:30-47 | every voxel an accepted point's sphere writes is in the array and held no fibre at acceptance; the written voxels are the whole ball |
| Voxels.AcceptsAgree | Fiber-phantom-module/fiber_phantom/generate_filaments.py:20-47 | the bounds, pipe and sphere checks accept the same points on any volume that agrees with the array on the array's voxels |
| Voxels.Stamp | Fiber-phantom-module/fiber_phantom/generate_filaments.py:204-213 | the range-checked writer sets exactly the ball ∩ pipe ∩ array voxels to the value; every other voxel keeps its value |
| Voxels.AddVoxelSphereToVolume | Fiber-phantom-module/fiber_phantom/generate_filaments.py:41-47 | exactly the ball ∩ pipe voxels become `intensity`; every other voxel is unchanged |
| Voxels.CoveredIff | Fiber-phantom-module/fiber_phantom/generate_filaments.py:49-51 | a voxel is covered by a chain iff the sphere of some point of the chain contains it |
| Voxels.UpdateVolumeWithFilament | Fiber-phantom-module/fiber_phantom/generate_filaments.py:49-51 | applying the sphere writer point by point gives `intensity` exactly on the union of the spheres, the rest unchanged |
| Voxels.ResinFill | Fiber-phantom-module/fiber_phantom/generate_filaments.py:62-64 | an in-pipe voxel is never air afterwards; a voxel changes only if it was air inside the pipe, and then it becomes resin |
| Voxels.ResinFillIdempotent | Fiber-phantom-module/fiber_phantom/generate_filaments.py:57-64 | filling twice equals filling once |
| Voxels.FillPipeWithResin | Fiber-phantom-module/fiber_phantom/generate_filaments.py:57-64 | every voxel ends as the fill rule applied to its old value and its pipe membership |
| Voxels.ArgWhere | Fiber-phantom-module/fiber_phantom/generate_filaments.py:194 | the positions holding the value, each one exactly once, in strictly increasing row-major order |
| Draws.RandInt | Fiber-phantom-module/fiber_phantom/next_point_generator.py:12-14 | succeeds iff lo ≤ hi (ValueError otherwise), with the result in [lo, hi] |
| Draws.RandIntOnto | Fiber-phantom-module/fiber_phantom/next_point_generator.py:12-14 | every value of [lo, hi] is produced by some draw |
| Draws.NpRandInt | Fiber-phantom-module/generate_fibers.py:160 | succeeds iff lo < hi, with the result in [lo, hi) |
| Draws.NpRandIntOnto | Fiber-phantom-module/generate_fibers.py:160 | every value of [lo, hi) is produced by some draw |
| Draws.Choice | Fiber-phantom-module/fiber_phantom/generate_filaments.py:180 | the chosen element belongs to the sequence |
| Draws.Sample | Fiber-phantom-module/fiber_phantom/generate_filaments.py:157 | succeeds iff 0 ≤ k ≤ population size, giving k elements forming a sub-multiset of the population |
| Draws.SampleDistinct | Fiber-phantom-module/fiber_phantom/generate_filaments.py:157 | sampling a population of distinct elements gives distinct elements |
| Draws.SampleAllIsPermutation | Fiber-phantom-module/fiber_phantom/generate_filaments.py:157 | sampling the whole population gives a permutation of it |
| Directions.Without | Fiber-phantom-module/fiber_phantom/generate_filaments.py:150 | the filter keeps exactly the directions different from the preferred one and leaves the list alone when the preferred one is absent |
| Directions.OtherDirectionsShape | Fiber-phantom-module/fiber_phantom/generate_filaments.py:149-150 | the preferred direction is removed; the others are pairwise distinct; there are 10 of them if the preferred direction is one of the eleven, 11 otherwise |
| Directions.Repeat | Fiber-phantom-module/fiber_phantom/generate_filaments.py:156 | `[d] * n` has max(n, 0) copies of d |
| Directions.DirectionPool | Fiber-phantom-module/fiber_phantom/generate_filaments.py:149-157 | succeeds iff num_biased ≤ 100; the pool has num_biased copies of the preferred direction followed by min(100 − num_biased, number of others) directions drawn from the others |
| Directions.DirectionPoolShape | Fiber-phantom-module/fiber_phantom/generate_filaments.py:149-157 | the pool is never empty, and its sampled part is pairwise distinct and never contains the preferred direction |
| PointGenerators.RoundHalfEven | Fiber-phantom-module/fiber_phantom/next_point_generator.py:43 | the result is within 1/2 of the input, and an exact tie goes to the even integer |
| PointGenerators.RoundHalfEvenUnique | Fiber-phantom-module/fiber_phantom/next_point_generator.py:43 | those two properties determine the rounded value |
| PointGenerators.RoundHalfEvenOfInteger | Fiber-phantom-module/fiber_phantom/next_point_generator.py:43 | integers round to themselves |
| PointGenerators.ParseMode | Fiber-phantom-module/fiber_phantom/next_point_generator.py:138-149 | succeeds exactly for c_curve, kink_curve and full_wave_curve called with keywords among that class's parameter names, and every keyword passed sets its parameter. 'jagged' gives NameError whatever the keywords; an unknown keyword gives TypeError; every other name gives ValueError, the default 'straight' included |
| PointGenerators.ParseModeDefaults | Fiber-phantom-module/fiber_phantom/next_point_generator.py:138-147 | a parameter not passed keeps its constructor default, and without keywords each class gets exactly its defaults (c-curve 100/250/3/0.1, kink 250/20/270/20/3/0, wave 250/100/0/2/3/0) |
| PointGenerators.ParseModeName | Fiber-phantom-module/fiber_phantom/next_point_generator.py:138-149 | a mode's name parses back to a generator of that kind, and passing its own parameters as keywords rebuilds exactly that generator |
| PointGenerators.CurveEffect | Fiber-phantom-module/fiber_phantom/next_point_generator.py:30 | with numpy integer division: finite iff bend_radius ≠ 0, and then effect · bend_radius equals the distance from the bend centre; 0/0 is NaN and any other x/0 is infinite |
| PointGenerators.KinkTurnAngle | Fiber-phantom-module/fiber_phantom/next_point_generator.py:59-71 | the angle is never infinite; it is NaN exactly when the window that applies has width 0 (a 0/0 fraction); otherwise it lies in [0, 45], and it is 0 outside both windows |
| PointGenerators.KinkFractionBounds | Fiber-phantom-module/fiber_phantom/next_point_generator.py:64 | inside a window the interpolation fraction lies in [0, 1] |
| PointGenerators.KinkBendRamp | Fiber-phantom-module/fiber_phantom/next_point_generator.py:62-65 | across the bend window the angle never decreases, is 0 at the near edge and 45 at the far edge, and the bend window wins where the windows overlap |
| PointGenerators.KinkReturnRamp | Fiber-phantom-module/fiber_phantom/next_point_generator.py:66-69 | across the return window (outside the bend window) the angle never increases |
| PointGenerators.WaveTurnAngle | Fiber-phantom-module/fiber_phantom/next_point_generator.py:110-116 | the angle is never infinite and is NaN iff the window has width 0 and contains the point; it is 0 outside the window and 0 everywhere when the amplitude is 0, and never exceeds the amplitude when sin is bounded by 1 |
| PointGenerators.DefaultHeadingsFinite | Fiber-phantom-module/fiber_phantom/next_point_generator.py:137-149 | with the defaults the dispatch installs when no keywords are passed, every heading is finite, and the default wave never turns |
| PointGenerators.StartPoint | Fiber-phantom-module/fiber_phantom/next_point_generator.py:11-16 | succeeds iff the x and y ranges and the z range are non-empty; x ∈ [r, Nx−r−1], y ∈ [r, Ny−r−1], z ∈ [0, Nz−1] |
| PointGenerators.StartBoundsDecidedByZ | Fiber-phantom-module/fiber_phantom/generate_filaments.py:143-145 | a drawn start can fail the bounds test only through z |
| PointGenerators.FiniteSuggestion | Fiber-phantom-module/fiber_phantom/next_point_generator.py:107-134 | with a finite heading the suggestion is the growth end minus (flag set) or plus (flag clear) the step for that heading, rounded half to even |
| PointGenerators.DegenerateSuggestionRejected | Fiber-phantom-module/fiber_phantom/next_point_generator.py:28-43 | an infinite or NaN heading makes the stored y NaN, so the suggestion's y is the platform's NaN-to-integer cast; when that integer lies outside the y margins the bounds test rejects the point, so growth truncates or rejects instead of aborting |
| PointGenerators.PointGenerator.constructor | Fiber-phantom-module/fiber_phantom/next_point_generator.py:7-9 | a new generator has no current point and grows from the start |
| PointGenerators.PointGenerator.InitializeStartingPoint | Fiber-phantom-module/fiber_phantom/next_point_generator.py:11-16 | returns the drawn start, stores it as the current point, and keeps the flag |
| PointGenerators.PointGenerator.SuggestNextPoint | Fiber-phantom-module/fiber_phantom/next_point_generator.py:107-134 | grows from filament[0] (subtracting the step) when the flag is set and from filament[-1] (adding it) otherwise; stores that float point, NaN coordinates included, returns its integer cast, and keeps the flag |
| PointGenerators.PointGenerator.ToggleGrowthDirection | Fiber-phantom-module/fiber_phantom/next_point_generator.py:157-158 | negates the flag (two toggles restore it) and keeps the current point |
| PointGenerators.NewNextPointGenerator | Fiber-phantom-module/fiber_phantom/next_point_generator.py:137-149 | a fresh generator growing from the start, with no current point and the mode the name and keywords parse to, exactly when they parse; the dispatch's error otherwise |
| Growth.FlagAtNext | Fiber-phantom-module/fiber_phantom/generate_filaments.py:179 | the flag in force flips with each accepted point |
| Growth.Grown | Fiber-phantom-module/fiber_phantom/generate_filaments.py:174-177 | the chain has one point more than were accepted, and holds exactly the start and the accepted points |
| Growth.GrownMembers | Fiber-phantom-module/fiber_phantom/generate_filaments.py:174-177 | every chain position holds the start or an accepted point |
| Growth.GrownNext | Fiber-phantom-module/fiber_phantom/generate_filaments.py:174-177 | the next accepted point is prepended while the flag in force is set and appended otherwise |
| Growth.GrownStartIndex | Fiber-phantom-module/fiber_phantom/generate_filaments.py:174-179 | the start sits after exactly the front insertions, ⌈n/2⌉ or ⌊n/2⌋ of n; growth alternates ends |
| Growth.GrownFront | Fiber-phantom-module/fiber_phantom/generate_filaments.py:174-179 | the m-th point before the start is accepted point 2m (flag initially set) or 2m+1 |
| Growth.GenerateFilament | Fiber-phantom-module/fiber_phantom/generate_filaments.py:138-185 | its outcome is `FilamentOutcome` on the live volume's checks, and so is fixed by its inputs: Failure iff the start draw fails, or the start is valid and the bias exceeds 100%; an invalid start gives None. From a valid start the outcome is `GrowthOutcome` for the package generator's suggestions: each accepted point is the suggestion from the chain so far and passed the checks, growth stopped at the first failing suggestion unless the 10·max_length budget ran out, and the chain is kept iff it reached min_length. An accepted chain's points all pass bounds and pipe; the flag advances once per accepted point |
| Growth.Grow | Fiber-phantom-module/fiber_phantom/generate_filaments.py:162-185 | the growth loop establishes `GrowthOutcome`'s rule (truncate once min_length is reached, otherwise reject) over 10·max_length steps; the generator ends holding the float point of the last step it took |
| Growth.Advance | Fiber-phantom-module/fiber_phantom/generate_filaments.py:164-179 | one step: the suggestion from the current chain is accepted iff it passes the checks; an accepted point is inserted at the end the flag names, the flag flips, and the suggestion rule is kept |
| Growth.GrowthOutcomeUnique | Fiber-phantom-module/fiber_phantom/generate_filaments.py:163-185 | the outcome rule determines the run: two runs from the same start, volume and suggestions accept the same points and return the same result |
| Growth.FilamentOutcomeUnique | Fiber-phantom-module/fiber_phantom/generate_filaments.py:138-185 | the generator's whole outcome rule (start draw, bias check, growth) determines its result and accepted points |
| Growth.OutcomeNotShorter | Fiber-phantom-module/fiber_phantom/generate_filaments.py:166-172 | a run cannot stop before another that follows the same suggestions, because that one accepted the very point the first rejected |
| Growth.PrefixSuggestionAccepted | Fiber-phantom-module/fiber_phantom/generate_filaments.py:164-177 | the suggestion a run made from one of its own prefixes is the point it accepted next, so it passed the checks |
| Growth.CommonPrefix | Fiber-phantom-module/fiber_phantom/generate_filaments.py:164-177 | two runs following the same suggestions agree on the shorter run's points |
| Growth.FollowsNextSnoc | Fiber-phantom-module/fiber_phantom/generate_filaments.py:164-177 | accepting the suggestion made from the current chain keeps the suggestion rule |
| Growth.ChainValid | Fiber-phantom-module/fiber_phantom/generate_filaments.py:143-168 | a chain grown from a valid start by checked points has every point inside the bounds and the pipe |
| Placement.CoveredAnyIff | Fiber-phantom-module/fiber_phantom/generate_filaments.py:119-122 | a voxel is covered by the placed filaments iff it is covered by one of them |
| Placement.CoveredAnySnoc | Fiber-phantom-module/fiber_phantom/generate_filaments.py:119-122 | placing one more filament adds exactly its spheres to the coverage |
| Placement.ChainFits | Fiber-phantom-module/fiber_phantom/generate_filaments.py:143-168 | every point of an accepted chain (validated start and checked grown points) has its sphere inside the array, so rasterising it is safe |
| Placement.GrownClearSnoc | Fiber-phantom-module/fiber_phantom/generate_filaments.py:117-120 | checks made against the volume that holds the earlier filaments keep every grown sphere inside the pipe and clear of earlier filaments and initial fibre |
| Placement.GrownInPipeSnoc | Fiber-phantom-module/fiber_phantom/generate_filaments.py:30-39 | a checked point's whole ball lies in the pipe (the sphere check fails on any ball voxel outside it), and appending such points keeps that for every grown sphere |
| Placement.RasteriseChain | Fiber-phantom-module/fiber_phantom/generate_filaments.py:120 | writing an accepted chain keeps both invariants: fibre exactly on the placed chains over the initial volume, and grown spheres clear of earlier fibre |
| Placement.FibreOverAccepts | Fiber-phantom-module/fiber_phantom/generate_filaments.py:117-120 | while the volume holds exactly the placed filaments over the initial volume, the checks on the live volume accept the same points as the checks on the snapshot `Overlay` |
| Placement.RunUnique | Fiber-phantom-module/fiber_phantom/generate_filaments.py:84-124 | an attempt loop whose every attempt has at most one outcome given the earlier ones has exactly one record: two runs of it are equal |
| Placement.GoingSnoc | Fiber-phantom-module/fiber_phantom/generate_filaments.py:84-124 | one more attempt that follows the rule extends a live record, and it stops the loop exactly when it fails |
| Batch.AttemptFilament | Fiber-phantom-module/fiber_phantom/generate_filaments.py:117-122 | one attempt: its outcome is `FilamentOutcome` (the generator's own rule) for this attempt's randomness, checked against the initial volume overlaid with the earlier filaments; the flag the generator carries over is advanced once per accepted point; an accepted chain is rasterised before the next attempt; an empty start range fails |
| Batch.RunDetermined | Fiber-phantom-module/fiber_phantom/generate_filaments.py:84-124 | the attempt loop's record is determined by its inputs: two attempt sequences that each follow `FilamentOutcome` on the snapshot of the earlier filaments, with the carried-over flag, and each stop where the loop stops, are equal |
| Batch.PlaceFilaments | Fiber-phantom-module/fiber_phantom/generate_filaments.py:84-124 | the attempts form the unique `Run`: attempt a has the generator's outcome for the randomness of attempt a on the initial volume overlaid with the filaments kept before it, and the loop stops at the first failure, at num_filaments kept, or at 100000 attempts. Failure iff an attempt failed, with its error; success returns the kept chains in order and leaves the generator with the flag carried over. successful == number of filaments ≤ num_filaments; a shortfall means the budget ran out. Each filament is chain-shaped from a valid start with its length in bounds; fibre lies exactly on their spheres, the rest is unchanged; grown spheres stay in the pipe and never touch earlier fibre |
| Batch.AddManySmallResinVoids | Fiber-phantom-module/fiber_phantom/generate_filaments.py:187-223 | `positions` are the resin voxels at call time in row-major order, each listed once; round n clears the ball about `positions[randint(0, len-1)]` of draw n; 0 rounds when there is no resin and min(num_voids, 100000) otherwise; exactly the in-array, in-pipe ball voxels about the centres become air |
| Batch.PunchVoids | Fiber-phantom-module/fiber_phantom/generate_filaments.py:207-223 | the counted rounds over a non-empty position list: min(num_voids, 100000) rounds, round n centred at the position drawn by draw n, and air exactly on their in-pipe balls |
| Batch.Pipeline | Fiber-phantom-module/fiber_phantom/generate_filaments.py:129-134 | the final value of a voxel: air in a void or a cut; otherwise fibre on a filament, never air inside the pipe, and unchanged outside the pipe and the filaments; only air, resin, fibre or the old value occur |
| Batch.FinishVolume | Fiber-phantom-module/fiber_phantom/generate_filaments.py:129-134 | resin fill, then voids (radius 1, pipe radius 125), then defect: every voxel ends as `Finished` of its value after placement. `positions` are exactly the resin voxels after the fill in row-major order; there are 100 void rounds when resin exists and none otherwise, and round n is centred at `positions[randint(0, len-1)]` of void draw n |
| Batch.GenerateAndCountFilaments | Fiber-phantom-module/fiber_phantom/generate_filaments.py:67-135 | the placement attempts form the unique `Run` over the initial volume; failure iff an attempt failed, with its error; success returns (count, kept chains) and every voxel ends as `Pipeline` of its old value; the counts and the length bounds hold; `positions` are exactly the resin voxels after placement and fill, in row-major order, and there are 100 void centres when resin exists and none otherwise, centre n being `positions[randint(0, len-1)]` of void draw n |
| Defects.MakeDefect | Fiber-phantom-module/fiber_phantom/defects.py:164-183 | succeeds exactly for the seven names (the slab is 'reduced'), keeping the parameters; any other name gives ValueError |
| Defects.MakeDefectKindName | Fiber-phantom-module/fiber_phantom/defects.py:164-183 | each kind is reached by its own name |
| Defects.ZeroedAppend | Fiber-phantom-module/fiber_phantom/defects.py:12 | the zeroed set of a concatenation is the union of the zeroed sets |
| Defects.AllCutsAppend | Fiber-phantom-module/fiber_phantom/defects.py:12 | the cuts of concatenated parameter lists are the concatenated cuts |
| Defects.ZeroedUnion | Fiber-phantom-module/fiber_phantom/defects.py:12-20 | with several parameter sets, the zeroed set is the union of what each set zeros alone (same for every kind) |
| Defects.AfterCutsCompose | Fiber-phantom-module/fiber_phantom/defects.py:12 | applying cuts a then cuts b is applying a + b |
| Defects.AfterCutsIdempotent | Fiber-phantom-module/fiber_phantom/defects.py:11-22 | applying a defect's cuts twice equals applying them once |
| Defects.NoDefectIdentity | Fiber-phantom-module/fiber_phantom/defects.py:160-162 | NoDefect changes no voxel, whatever its parameters |
| Defects.HoleRegion | Fiber-phantom-module/fiber_phantom/defects.py:11-22 | a hole zeros exactly the full-height cylinder (x−cx)²+(y−cy)² ≤ r² |
| Defects.SquareNotchRegion | Fiber-phantom-module/fiber_phantom/defects.py:28-43 | a square notch zeros exactly \|x−xc\| ≤ hw ∧ \|y−yc\| ≤ hw in every slice |
| Defects.MirrorInvolution | Fiber-phantom-module/fiber_phantom/defects.py:66-67 | mirroring (x, y) ↦ (Nx−1−x, Ny−1−y) twice is the identity |
| Defects.SquareMirror | Fiber-phantom-module/fiber_phantom/defects.py:66-75 | the second notch, centred at (Nx−xc−1, Ny−yc−1), covers exactly the mirror images of the first |
| Defects.WedgeMirror | Fiber-phantom-module/fiber_phantom/defects.py:123-131 | the second wedge covers exactly the mirror images of the first |
| Defects.DoubleSquareNotchSymmetric | Fiber-phantom-module/fiber_phantom/defects.py:58-75 | one parameter set of the double square notch zeros a mirror-symmetric set |
| Defects.DoubleVNotchSymmetric | Fiber-phantom-module/fiber_phantom/defects.py:116-131 | one parameter set of the double V-notch zeros a mirror-symmetric set |
| Defects.WedgeNarrows | Fiber-phantom-module/fiber_phantom/defects.py:95 | the zeroed y-range of a row never widens as \|x−xc\| grows, and at \|x−xc\| = h only y = yc remains |
| Defects.VNotchRegion | Fiber-phantom-module/fiber_phantom/defects.py:89-97 | for h > 0 the V-notch zeros exactly \|x−xc\| ≤ h ∧ \|y−yc\| ≤ (w/2)(1 − \|x−xc\|/h) in every slice |
| Defects.ReducedRegion | Fiber-phantom-module/fiber_phantom/defects.py:144-156 | the slab spans 2·(t//2)+1 rows about Nx//2 and zeros there exactly the voxels strictly outside the (y, z) circle |
| Defects.CutBox | Fiber-phantom-module/fiber_phantom/defects.py:151 | the loop box lies in the array and contains every in-array voxel of the cut |
| Defects.ApplyCut | Fiber-phantom-module/fiber_phantom/defects.py:16-20 | one shape's triple loop zeros exactly that shape's voxels |
| Defects.ApplyCuts | Fiber-phantom-module/fiber_phantom/defects.py:58-75 | the cuts applied in order leave every voxel as `AfterCuts` of its old value |
| Defects.ApplyDefect | Fiber-phantom-module/fiber_phantom/defects.py:11-158 | afterwards exactly the union of all parameter sets' regions holds 0 and every other voxel is unchanged |
| LegacyStart.StartSample | Fiber-phantom-module/generate_filaments.py:95 | succeeds iff every range [r, dim−r−1] is non-empty; each coordinate lies in it, upper end included |
| LegacyStart.NpStartSample | Fiber-phantom-module/generate_fibers.py:160 | succeeds iff every range [r, dim−r−1) is non-empty; each coordinate lies in [r, dim−r−2] |
| LegacyStart.SamplesWithinBounds | Fiber-phantom-module/generate_filaments.py:96 | both samplers only give points that pass the bounds test, so only the pipe test can reject them |
| LegacyStart.SampleStart | Fiber-phantom-module/generate_filaments.py:94-101 | a draw error iff the first sample fails; otherwise the result is `FirstValid`: the first of at most 1000 samples passing bounds and pipe, all earlier ones failing, and None iff all 1000 fail |
| LegacyStart.NpSampleStart | Fiber-phantom-module/generate_fibers.py:158-169 | the same, with the exclusive sampler, for the curved fibre's loop, which samples before the check and resamples after each rejection |
| LegacyStart.FirstValidAt | Fiber-phantom-module/generate_filaments.py:94-98 | if try t is the first passing try, its sample is the start found |
| LegacyStart.FirstValidNone | Fiber-phantom-module/generate_filaments.py:94-101 | no start is found iff none of the 1000 tries passes |
| LegacyFilaments.GenerateFilament | Fiber-phantom-module/generate_filaments.py:89-150 | Failure iff the first start sample fails, or a start is found and the bias exceeds 100%; no start in 1000 tries gives None. From the start found, the outcome is `GrowthOutcome` for the supplied suggestions with the local flag starting true: accepted points follow the suggestions and passed the three checks with fibre code 1, growth stops at the first failing suggestion, and the chain is kept iff it reached min_length. An accepted chain has between min_length and 1+10·max_length points, all inside bounds and pipe, with the start at index ⌈n/2⌉ |
| LegacyFilaments.Grow | Fiber-phantom-module/generate_filaments.py:118-150 | the alternating loop establishes `GrowthOutcome` over 10·max_length steps; an accepted chain has between min_length and 1+10·max_length points and holds the start at index ⌈n/2⌉ after n insertions |
| LegacyFilaments.AttemptFilament | Fiber-phantom-module/generate_filaments.py:77-81 | one attempt: its outcome is `LegacyOutcome` (the generator's own rule) for this attempt's randomness on the initial volume overlaid with the earlier filaments; an accepted chain is rasterised with code 1; an empty start range fails |
| LegacyFilaments.OutcomeUnique | Fiber-phantom-module/generate_filaments.py:89-150 | the generator's outcome rule determines its result and accepted points |
| LegacyFilaments.RunDetermined | Fiber-phantom-module/generate_filaments.py:68-87 | two attempt sequences that follow `LegacyOutcome` on the snapshot of the earlier filaments and stop where the loop stops are equal |
| LegacyFilaments.PlaceFilaments | Fiber-phantom-module/generate_filaments.py:68-87 | the attempt loop: the attempts form the unique `Run`; failure iff an attempt failed, with its error; success returns the kept chains in order, with fibre exactly on their spheres and grown spheres clear of earlier fibre |
| LegacyFilaments.GenerateAndCountFilaments | Fiber-phantom-module/generate_filaments.py:68-87 | the attempts form the unique `Run` over the initial volume; failure iff an attempt failed, with its error; success returns the kept chains and attempts == number of attempts made. successful == number of filaments ≤ num_filaments; attempts ≤ 10000, and a shortfall means the budget ran out. Fibre code 1 lies exactly on the filaments' spheres; grown spheres stay in the pipe and never touch earlier fibre. Empty start ranges fail when a filament is requested |
| LegacyFibers.GrowFiber | Fiber-phantom-module/generate_fibers.py:131-154 | the append-only loop establishes `AppendOutcome` over max_length steps: each point is the suggestion from the previous one and passed the three checks, growth stops at the first failing suggestion, and the fibre is kept iff it reached min_length |
| LegacyFibers.AppendOutcomeUnique | Fiber-phantom-module/generate_fibers.py:131-154 | the outcome rule determines the run: same start, volume and suggestions give the same points and result |
| LegacyFibers.AppendNotShorter | Fiber-phantom-module/generate_fibers.py:142-146 | a run cannot stop before another that follows the same suggestions |
| LegacyFibers.AppendPrefixAccepted | Fiber-phantom-module/generate_fibers.py:139-149 | the suggestion made from the end of a run's own prefix is the point it accepted next |
| LegacyFibers.AppendPrefix | Fiber-phantom-module/generate_fibers.py:139-149 | two runs following the same suggestions agree on the shorter run's points |
| LegacyFibers.GenerateFiber | Fiber-phantom-module/generate_fibers.py:94-154 | Failure iff the first start sample fails, or a start is found and the bias exceeds 100%; no start gives None; from the start found the outcome is `AppendOutcome`. An accepted fibre starts at a valid point and has between min_length and max_length + 1 points |
| LegacyFibers.GenerateFiberCurved | Fiber-phantom-module/generate_fibers.py:157-194 | Failure iff the exclusive start range is empty; no start gives None; from the start found the outcome is `AppendOutcome`, and the start lies below dim−r−1 |
| LegacyFibers.GenerateByMode | Fiber-phantom-module/generate_fibers.py:59-62 | 'straight' runs the straight generator with bias 90 and direction [1, 0, 0], 'curve' the curved one, each with its start loop's outcome, and any other mode fails with NameError (unbound `fiber`) |
| LegacyFibers.AttemptFiber | Fiber-phantom-module/generate_fibers.py:59-66 | one attempt: its outcome is `FiberOutcome` (the mode dispatch and the chosen generator's rule) for this attempt's randomness on the initial volume overlaid with the earlier fibres; an accepted fibre is rasterised with code 1 |
| LegacyFibers.FiberOutcomeUnique | Fiber-phantom-module/generate_fibers.py:59-62 | the dispatch's outcome rule determines its result and accepted points |
| LegacyFibers.RunDetermined | Fiber-phantom-module/generate_fibers.py:51-74 | two attempt sequences that follow `FiberOutcome` on the snapshot of the earlier fibres and stop where the loop stops are equal |
| LegacyFibers.UnknownModeStops | Fiber-phantom-module/generate_fibers.py:59-62 | with an unknown mode and a fibre requested, the loop makes exactly one attempt, which fails with the NameError |
| LegacyFibers.RangesNeverStop | Fiber-phantom-module/generate_fibers.py:51-74 | when the mode's start ranges are non-empty no attempt fails |
| LegacyFibers.NoneWanted | Fiber-phantom-module/generate_fibers.py:53 | with num_fibers ≤ 0 the loop makes no attempt |
| LegacyFibers.PlaceFibers | Fiber-phantom-module/generate_fibers.py:51-74 | the attempt loop: the attempts form the unique `Run`; failure iff an attempt failed, with its error; success returns the kept fibres in order, with fibre exactly on their spheres |
| LegacyFibers.GenerateAndCountFibers | Fiber-phantom-module/generate_fibers.py:51-74 | the attempts form the unique `Run` over the initial volume; failure iff an attempt failed (with its error) or the count is negative (the plot's `np.linspace`, with no attempt made); success returns the kept fibres and the number of attempts. successful == number of fibres ≤ num_fibers; attempts ≤ 10000, and a shortfall means the budget ran out. Fibre code 1 lies exactly on the fibres' spheres. An unknown mode fails iff a fibre is requested |

## Left out

- Floating point. Direction normalisation, `np.radians`/`cos`/`sin`, jaggedness (`np.random.randn`), `random.uniform`, and the c-curve's and root curve's direction maths are not modelled. Each step's displacement, or the root scripts' rounded next point, is an input.
- Randomness. Every random call is a draw supplied as an argument; seeding is left out.
- Printing and its warnings, `save_as_nifti`, `plot_filaments`, `plot_filament`, `plot_fibers` and `plot_fiber` are left out: file output and plotting. Their only modelled effect is the negative-count ValueError in `GenerateAndCountFibers`.
- `main.py`, `perform_ASTRA.py` and `setup.py` are not part of this model: parameter loading, GPU tomography and packaging.
- The root `next_point_generator.py` is not part of this model. It is float vector arithmetic, and its root driver hard-codes mode 'combined' (`generate_filaments.py:74`), whose suggestion method does not exist. `LegacyFilaments` takes the suggested point as an input instead.
- The 'jagged' mode of the package dispatch names a class that does not exist. It is modelled as a NameError, not as a generator.
- Division by zero in the heading rules follows numpy's integer-array semantics: the quotient is infinite or NaN, not an exception. The NaN-to-integer cast of `astype(int)` is platform-defined, so it is the input `nanCast` (the most negative 64-bit integer on x86-64). A zero norm produced by jaggedness is not modelled, because jaggedness is a float input.
- Growth.GenerateFilament, Batch.AttemptFilament, Batch.PlaceFilaments, Batch.GenerateAndCountFilaments: the generator's final `currentPoint` is not stated at these levels (`Growth.Grow` states it); nothing in the pipeline reads it after growth.
- Batch.PlaceFilaments: the cluster bookkeeping (`:96-114`) is not modelled. Its lists are hard-coded and no generator reads the cluster centre or radius, so it has no effect on the volume. Its two ValueError checks can never fire for the same reason.
- Directions.DirectionPool: the bias is an integer percent `numBiased`, standing for `int(bias * 100)`. The float truncation itself is not modelled.
- Batch.GenerateAndCountFilaments, Batch.PlaceFilaments, LegacyFilaments.GenerateAndCountFilaments: failure is stated exactly through the run of attempts (failure iff an attempt failed); in terms of the parameters alone it is stated only as a sufficient condition for success (non-empty start ranges and a bias of at most 100%) and failure for empty start ranges when a filament is requested, because a bias above 100% fails only once some attempt draws a valid start, which depends on the draws.
- Batch.PlaceFilaments: non-overlap is stated for grown points only. The source validates a start point only against bounds and pipe, not against existing fibre, so a start sphere may overlap earlier fibre.
- Voxels.AddVoxelSphereToVolume: requires the sphere's in-pipe voxels to lie in the array. Python would wrap negative indices or raise IndexError there, and every caller guarantees this through the bounds check. `Defects.ApplyDefect` likewise requires a V-notch of height 0 not to meet an array row (ZeroDivisionError in the source) and a slab to lie inside [0, Nx) (numpy wrap-around or IndexError).
- Missing keys in a defect's parameter dictionary (KeyError) are not modelled: a parameter set always carries every key.
- LegacyStart: the two samplers are specified separately. No lemma states that the inclusive sampler can reach a coordinate the exclusive one cannot; their bounds show the difference.
- Integers are unbounded. The source's numpy integer arrays do not overflow at the sizes it uses.
