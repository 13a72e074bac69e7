# OptiTrust case studies, verified in Dafny

OptiTrust turns simple C programs into optimised ones. This project models the
pairs of programs in its case studies and proves that each optimised program does
what the simple one does, or says exactly when it does. It also proves the
concurrent bag on which the largest case study rests, and the rewritings of index
sets that the annotations use without proof. Verify it with
`dafny verify dfyconfig.toml`.

Programs that work by loops over buffers are methods over arrays, each proved
against a specification; the results that relate programs are lemmas about the
specifications. The directories:

- `common`: row-major indices, rows of flat buffers, copies, two-dimensional arrays
  as values, floats about which nothing is assumed, truncation of reals, trilinear
  interpolation.
- `pic`: the particle-in-cell engine. `ConcurrentBag` interleaves any number of
  concurrent pushes step by step and keeps an invariant; the theorems, the balance
  of particles and the bound on moves are in the three files beside it. `SerialBag`
  is the linked bag of 256-slot chunks on the heap, with its destructive iteration.
  `Grid`, `Race`, `Motion` and `Deposit` treat the periodic grid, the test that
  chooses between the two kinds of bags, the moves and the charge. `StepLog` says
  what a step is to do and `Engine` is the step: the coloured sweep over blocks,
  pushes, merge, reduction and gather. `ColourPhase` interleaves the pushes of the
  blocks of one colour, the serial ones in the small steps of `SerialPush`;
  `PhaseProgress` bounds their steps, `ParallelSweep` puts the eight colours together
  and `ParallelStep` adds the deposit and the merge. `LostParticle` shows what a race
  on a bag does, and `RacySweep` that any nearness test which allows one can lose a
  particle of the program's input. `MotionLaws` says what the formulas of a move and
  of the deposit mean.
- `llm`: prompt processing of a transformer. `Transformer` defines embeddings, keys
  and values by a recursion in which a token depends on earlier tokens only;
  `TokenMajor` and `LayerMajor` are the two programs and `LoopInterchange` compares
  them. Floating-point operations are arbitrary functions, so the result holds for
  any rounding. Besides, `ExactArithmetic`, `RotaryPositions`, `Residual` and
  `WeightRoles` say what kernels and layers compute when the operations are exact.
- `floyd`: Floyd-Warshall on wrapping 32-bit words, plain and with cached row and
  column.
- `harris`: the Harris corner detector, as whole-image stages and as tiles with ring
  buffers, computed directly or with rotated accumulators. `Pictures` compares the two
  pictures, and `PictureLaws` says what the picture shows.
- `rowsum`: the row sum of a box filter in its simple, specialised and OpenCV forms.
- `matmul`: the plain and the packed, tiled and unrolled matrix product.
- `quantization`: 8-bit quantized matrix-vector products and their error.
- `minipic`: particles in one cell, with and without scaled speeds and field, and a run
  in closed form.
- `ghosts`: groups of resources as multisets over strided ranges.
- `quicksort`: the hybrid quicksort.

## What turned out to differ

- The nearness test of the particle step is meant as a conjunction of three tests,
  one per axis. As printed (`case_studies/pic/demo/pic_demo_exp.cpp:904-916`), `&&`
  binds tighter than `||`, and the three are not conjoined. `Race` proves that the
  conjunction excludes races between blocks of one colour exactly on sizes 2 and
  multiples of 4, and that the printed formula does so exactly when no axis is longer
  than 4. `RacySweep` proves that, for every test, all parallel sweeps deliver every
  particle exactly when the test is free of races: where it is not, two particles in
  the first cells of two blocks, no field and one interleaving leave a sweep in which
  one of them is lost. So the printed test delivers exactly on grids with at most 4
  cells per axis. `Engine` follows the printed formula; taken one block after the
  other, the step is right with either.
- `int_of_double` is not the floor on negative integers, where it is one less; the
  relative position is then 1 instead of 0.
- The cached Floyd-Warshall does not refresh the cached diagonal entry in the loop
  over row k. For a given diagonal, the two programs agree on all matrices exactly
  when none of its entries but the last is 2^31 or more.
- In the scaled particle simulation the field factor is stored in an `int`, so the
  two programs agree on all inputs exactly when the factor is an integer.
- Two of the admitted index-set rewritings depend on how ranges are read, which the
  annotations do not say. If a range only goes up, as the loops it stands for do,
  `group_scale` fails when the factor is negative and one of its two ranges is not
  empty; if a negative step makes it go down, the written condition is right.
  `group_collapse`, whose steps are all 1, fails when both counts are negative.
- The batched transformer passes `ffn_norm_weight` to the second normalisation of a
  layer (`case_studies/clift/forward_strip_mining.cpp:231`), as the original does,
  so that the comparison needs no hypothesis on the weights.
- The rotated Harris kernels compute the horizontal gradient with twice the first
  Sobel weight where the reference has the second one. `Pictures` proves that for
  given weights the pictures agree on all images of a size exactly when the second
  weight is twice the first, or there is nothing to see. The literals of the programs
  carry the suffix `f`; as floats they are the ones nearest to 1/12 and 2/12, and the
  second is exactly twice the first, so the rotated programs give the reference's
  picture. As reals, 0.0833333333333 and 0.166666666667 would not.
- The quantized product drops what follows the last whole group of a row, and then
  also takes the scales of other rows' groups, so its error is bounded exactly when
  rows are whole numbers of groups.

## Model

| member | source | states |
|---|---|---|
| ConcurrentBag.ApplyKeepsInv | case_studies/pic/demo/pic_demo_exp.cpp:201-231 | every atomic step of every call keeps the invariant: sizes, links, slot owners, the single fresh chunk, and what each call still has to do |
| ConcurrentBag.After | case_studies/pic/demo/pic_demo_exp.cpp:208-231 | after any finite interleaving of any number of pushes on a bag made by bag_init, the state is well formed and satisfies the invariant |
| ConcurrentBagBalance.AfterBalanced | case_studies/pic/demo/pic_demo_exp.cpp:208-225 | after any interleaving, the particles of the calls that own a slot are, as a multiset, the particles of the calls recorded as the owners of slots |
| ConcurrentBagTheorems.SlotsAreExclusive | case_studies/pic/demo/pic_demo_exp.cpp:213-221 | no two calls are ever given the same slot of the same chunk |
| ConcurrentBagTheorems.SinglePublisher | case_studies/pic/demo/pic_demo_exp.cpp:201-206 | at most one call is installing a new front at any time, and it is the one that filled the last slot of the current front |
| ConcurrentBagTheorems.StoredParticleStays | case_studies/pic/demo/pic_demo_exp.cpp:215-224 | once its six fields are stored, a particle is in its slot, and after any further steps of any calls its call still has that slot and the slot still holds it |
| ConcurrentBagTheorems.OverfullIsTransient | case_studies/pic/demo/pic_demo_exp.cpp:213-226 | a size above 256 is seen only while some call is between its failed increment and its repairing store |
| ConcurrentBagTheorems.FullStaysFull | case_studies/pic/demo/pic_demo_exp.cpp:213-226 | once the size of a chunk has reached 256, no step brings it below, so the plain store of the repair cannot reopen the chunk |
| ConcurrentBagTheorems.SpinnerHasPublisher | case_studies/pic/demo/pic_demo_exp.cpp:221-228 | a call that spins on the current front always has a call to wait for, which owns the last slot and has not published yet |
| ConcurrentBagTheorems.ChainEndsAtBack | case_studies/pic/demo/pic_demo_exp.cpp:171-191 | at every moment the chain from front is acyclic, reaches every installed chunk, and ends at back |
| ConcurrentBagTheorems.QuiescentBag | case_studies/pic/demo/pic_demo_exp.cpp:184-231 | when all calls have returned the bag holds exactly the particles pushed, bag_size is their number, and every chunk but the front is exactly full while the front is not |
| ConcurrentBagProgress.IdleIff | case_studies/pic/demo/pic_demo_exp.cpp:208-231 | the calls that cannot change the state are exactly the returned ones and those spinning on the current front |
| ConcurrentBagProgress.NoDeadlock | case_studies/pic/demo/pic_demo_exp.cpp:227-228 | as long as a call has not returned, some call has a step that changes the state |
| ConcurrentBagProgress.FrontBounded | case_studies/pic/demo/pic_demo_exp.cpp:201-206 | n calls install at most n / 256 new fronts |
| ConcurrentBagProgress.MovesAreBounded | case_studies/pic/demo/pic_demo_exp.cpp:211-230 | no schedule, fair or not, makes the started calls take more state-changing steps than a measure of the present state |
| ConcurrentBagProgress.MovesAreBoundedByCalls | case_studies/pic/demo/pic_demo_exp.cpp:211-230 | n started calls take at most n * (4 * (n / 256) + 16) more state-changing steps between them |
| SerialBag.Bag.Init | case_studies/pic/demo/pic_demo_exp.cpp:166-169 | a fresh bag, empty, owning only new storage |
| SerialBag.Bag.InitUsing | case_studies/pic/demo/pic_demo_exp.cpp:159-164 | the bag owns the given chunk and nothing else, and is empty |
| SerialBag.Bag.Nullify | case_studies/pic/demo/pic_demo_exp.cpp:179-182 | the bag owns no chunk |
| SerialBag.Bag.AddFrontChunk | case_studies/pic/demo/pic_demo_exp.cpp:194-199 | an empty chunk is put in front of the chain and the rest of the chain is as before |
| SerialBag.Bag.PushSerial | case_studies/pic/demo/pic_demo_exp.cpp:233-246 | the particle is added behind those of the front chunk, nothing else moves, and if every chunk but the front was full this still holds |
| SerialBag.Bag.PushConcurrent | case_studies/pic/demo/pic_demo_exp.cpp:208-231 | the same as the serial push, when no other push is under way |
| SerialBag.Bag.Splice | case_studies/pic/demo/pic_demo_exp.cpp:172-174 | the chain of the other bag goes behind this one and its storage changes hands, chunks of the middle need not be full |
| SerialBag.Bag.Append | case_studies/pic/demo/pic_demo_exp.cpp:171-177 | the contents are concatenated, the other bag becomes empty and valid, on new storage, and the two stay disjoint |
| SerialBag.Bag.Size | case_studies/pic/demo/pic_demo_exp.cpp:184-192 | the sum of the chunk sizes is the number of particles held |
| SerialBag.Bag.Free | case_studies/pic/demo/pic_demo_exp.cpp:256-269 | following next while freeing reaches every chunk and frees it once |
| BagArray.PushAt | case_studies/pic/demo/pic_demo_exp.cpp:917-927 | a push into one bag of an array adds the particle there and leaves every other bag as it is |
| BagArray.AppendAt | case_studies/pic/demo/pic_demo_exp.cpp:955-958 | appending one bag of an array to another concatenates the two and leaves the others alone |
| BagArray.InitAt | case_studies/pic/demo/pic_demo_exp.cpp:943 | a bag whose chunks have been freed is made afresh beside the others |
| Grid.WrapIsModulo | case_studies/pic/demo/pic_demo_exp.cpp:347-349 | wrap is the mathematical remainder for every integer, negative ones included |
| Grid.MaskIsWrap | case_studies/pic/demo/pic_demo_exp.cpp:880-888 | on a power-of-two grid, masking with the size minus one is wrap, for negative values too |
| Grid.CellRoundTrip | case_studies/pic/demo/pic_demo_exp.cpp:353-355 | cell numbers are within the number of cells and coordOfCell undoes cellOfCoord |
| Grid.CoordRoundTrip | case_studies/pic/demo/pic_demo_exp.cpp:394-400 | cellOfCoord undoes coordOfCell, whose result is in the grid |
| Grid.TablesAreShifts | case_studies/pic/demo/pic_demo_exp.cpp:414-426 | the eight entries of the scatter table are steps forth along the axes named by the corner's bits, and those of the gather table are steps back |
| Grid.GatherSourceHitsCell | case_studies/pic/demo/pic_demo_exp.cpp:704-719 | the (cell, corner) that bij names is in range, keeps the corner, and its cell has the gathering cell at that corner |
| Grid.ScatterTargetGathersSource | case_studies/pic/demo/pic_demo_exp.cpp:704-719 | the cell onto which a corner is scattered gathers exactly that corner of that source through bij |
| Grid.BijInjective | case_studies/pic/demo/pic_demo_exp.cpp:704-719 | bij sends no two (cell, corner) to one index |
| Grid.BijOnto | case_studies/pic/demo/pic_demo_exp.cpp:704-719 | bij reaches every index below nbCells * 8 |
| Doubles.IntOfDoubleIsFloor | case_studies/pic/demo/pic_demo_exp.cpp:345 | int_of_double is the floor exactly when its argument is not a negative integer, and one less otherwise |
| Doubles.RelativePositionInUnit | case_studies/pic/demo/pic_demo_exp.cpp:880-881 | the position in the new cell lies between 0 and 1, and is 1 exactly for a negative integer |
| Motion.SharesAddUpToOne | case_studies/pic/demo/pic_demo_exp.cpp:436-462 | the eight interpolation coefficients of a particle add up to one |
| Motion.DriftIsPeriodic | case_studies/pic/demo/pic_demo_exp.cpp:874-888 | masking brings the new coordinate to its representative in the periodic grid |
| Motion.MoveStaysInGrid | case_studies/pic/demo/pic_demo_exp.cpp:873-894 | the destination of every moved particle is a cell of the grid |
| Trilinear.EightTerms | case_studies/pic/demo/pic_demo_exp.cpp:446-461 | the eight shares of a position, applied to any corner values, are three linear interpolations, along z, y and x |
| Trilinear.AffineIsReproduced | case_studies/pic/demo/pic_demo_exp.cpp:446-461 | that interpolation reproduces every affine function of the position |
| MotionLaws.InterpolateIsTrilinear | case_studies/pic/demo/pic_demo_exp.cpp:769-797 | the field at a particle is the field at the corners, interpolated along x, y and z in turn |
| MotionLaws.MoveIsKickAndDrift | case_studies/pic/demo/pic_demo_exp.cpp:769-891 | in a move the speed grows by the interpolated field, and cell plus offset then change by the new speed, up to whole turns around the periodic grid |
| MotionLaws.UniformKick | case_studies/pic/demo/pic_demo_exp.cpp:748-797 | a uniform field changes every speed by exactly that field times the factor of its axis |
| Race.AxisNearUnique | case_studies/pic/demo/pic_demo_exp.cpp:904-916 | on an axis of size 2 or a multiple of 4, two blocks of one colour are never both near one coordinate |
| Race.ConjunctionRaceFree | case_studies/pic/demo/pic_demo_exp.cpp:736-742 | with the conjunction of the three per-axis tests, no PRIVATE bag gets serial pushes from two blocks of one colour exactly when every size is 2 or a multiple of 4 |
| Race.ConjunctionRaceFreeOnPowersOfTwo | case_studies/pic/demo/pic_demo_exp.cpp:736-742 | so for power-of-two grids from 2 on |
| Race.PrintedFormulaRaceFree | case_studies/pic/demo/pic_demo_exp.cpp:904-916 | the test as printed is free of races exactly when no axis is longer than 4 |
| Race.PrintedFormulaRaces | case_studies/pic/demo/pic_demo_exp.cpp:904-916 | two blocks and a cell of an 8 x 2 x 2 grid on which the printed test races |
| SerialPush.ExecKeepsBusy | case_studies/pic/demo/pic_demo_exp.cpp:233-246 | taken one memory access at a time, a serial push that is alone on its bag stays on course and returns having added exactly its particle |
| ColourPhase.StepKeepsOk | case_studies/pic/demo/pic_demo_exp.cpp:917-927 | if no cell is pushed to serially by two blocks, every step of every block keeps: each PRIVATE bag holds what the finished pushes sent there and has at most one push under way, and the calls on each SHARED bag are those the blocks have begun |
| ColourPhase.PrivateBagHasOnePusher | case_studies/pic/demo/pic_demo_exp.cpp:904-921 | then, at every moment of every interleaving, at most one block is in the middle of a serial push to a given bag |
| ColourPhase.PhaseDelivers | case_studies/pic/demo/pic_demo_exp.cpp:736-949 | then, whatever the interleaving, once all blocks of a colour have finished, each next bag holds what it held before and exactly the particles sent to it |
| ColourPhase.SomeBlockMoves | case_studies/pic/demo/pic_demo_exp.cpp:917-927 | then there is no deadlock: as long as a block has not finished, there is a block each of whose turns changes the state |
| PhaseProgress.MovesAreBounded | case_studies/pic/demo/pic_demo_exp.cpp:736-949 | whatever the interleaving, and even if blocks race, the n pushes of a phase make at most n * (4 * (n / 256) + 19) steps that change the state |
| PhaseProgress.FairRoundsEndThePhase | case_studies/pic/demo/pic_demo_exp.cpp:736-949 | if no cell is pushed to serially by two blocks, a schedule of that many rounds, in each of which every block gets a turn, brings all blocks of the phase to their end |
| ParallelSweep.WorksExclusive | case_studies/pic/demo/pic_demo_exp.cpp:904-921 | with a nearness test free of races, distinct blocks of one colour never push serially to one cell |
| ParallelSweep.BlocksOnce | case_studies/pic/demo/pic_demo_exp.cpp:736-742 | the eight colours take every block of the grid exactly once |
| ParallelSweep.ParallelSweepDelivers | case_studies/pic/demo/pic_demo_exp.cpp:736-952 | colour after colour with the blocks of each interleaved in any way, the two next bags of every cell end with exactly the particles that the row-major sweep sends there |
| ParallelSweep.SafeTests | case_studies/pic/demo/pic_demo_exp.cpp:904-916 | the conjunction of the per-axis tests is free of races on every grid that masking allows, the printed test exactly when no axis is longer than 4 |
| ParallelSweep.SweepStartsEmpty | case_studies/pic/demo/pic_demo_exp.cpp:501-506 | the next bags made by bag_init are a state that the parallel sweep can start from |
| LostParticle.SerialPushesRace | case_studies/pic/demo/pic_demo_exp.cpp:233-246 | on every bag with room for two, two serial pushes have an interleaving after which both have returned and the bag has gained only one particle |
| RacySweep.SweepsDeliverExactly | case_studies/pic/demo/pic_demo_exp.cpp:736-952 | on every grid that masking allows and for every nearness test: all parallel sweeps, of all bag contents and fields and under all interleavings, deliver every particle exactly when the test is free of races |
| RacySweep.PrintedTestDeliversExactly | case_studies/pic/demo/pic_demo_exp.cpp:904-916 | the conjunction of the per-axis tests always delivers, the printed test exactly on grids with no axis longer than 4 |
| RacySweep.PhasesDeliverExactly | case_studies/pic/demo/pic_demo_exp.cpp:736-949 | on every grid, all phases of one colour, from any bags and with any particles, deliver exactly when the test is free of races |
| ParallelStep.PhaseDepositsItsLogs | case_studies/pic/demo/pic_demo_exp.cpp:928-940 | whatever the interleaving, the blocks of a phase have deposited exactly the particles they have pushed, each on the accumulators of a thread of theirs |
| ParallelStep.ReducedIsCornerSum | case_studies/pic/demo/pic_demo_exp.cpp:959-971 | adding up the accumulators of the threads gives the charge of all deposits, whichever thread made them |
| ParallelStep.ParallelDeposit | case_studies/pic/demo/pic_demo_exp.cpp:928-980 | after a parallel sweep, with any assignment of blocks to threads, the charge each cell gathers is that of scattering every particle of the row-major sweep; races do not matter to it |
| ParallelStep.ParallelStepConserves | case_studies/pic/demo/pic_demo_exp.cpp:736-980 | with a test free of races, the merged bags then hold every particle at its destination, as many as there were, and the charges add up to that number |
| Deposit.AccumulateChargeAtCorners | case_studies/pic/demo/pic_demo_exp.cpp:428-434 | each cell receives exactly the charges of the corners whose index it is, also when corners coincide through wrap-around |
| Deposit.ScatterAll | case_studies/pic/demo/pic_demo_exp.cpp:428-434 | accumulateChargeAtCorners once per particle is the scattered charge of the log |
| Deposit.SourceIff | case_studies/pic/demo/pic_demo_exp.cpp:704-719 | bij takes corner k of cell c from cell d exactly when corner k of cell d is cell c |
| Deposit.GatherEqualsScatter | case_studies/pic/demo/pic_demo_exp.cpp:973-980 | for every log of moved particles and every cell, gathering the accumulated corners through bij equals scattering each particle |
| Deposit.ScatterIsOrderFree | case_studies/pic/demo/pic_demo_exp.cpp:428-434 | two logs with the same particles deposit the same charge |
| Deposit.TotalChargeIsCount | case_studies/pic/demo/pic_demo_exp.cpp:428-434 | the charges of all the cells add up to the number of particles |
| MotionLaws.DepositIsAdjoint | case_studies/pic/demo/pic_demo_exp.cpp:928-980 | the deposit is the adjoint of the interpolation: for any weights of the cells, the weighted charge is the sum of what the particles see of the weights at their positions |
| StepLog.LogIsOrderFree | case_studies/pic/demo/pic_demo_exp.cpp:736-747 | two orders of visiting the same cells move the same particles to the same cells |
| StepLog.SweepLog | case_studies/pic/demo/pic_demo_exp.cpp:736-747 | what a complete sweep moves and deposits does not depend on the order of the visits |
| StepLog.HeldSize | case_studies/pic/demo/pic_demo_exp.cpp:917-927 | bags that hold, cell by cell, what the log sends there hold as many particles as the log |
| ChunkLoops.KickChunk | case_studies/pic/demo/pic_demo_exp.cpp:769-871 | the vectorised speed loop gives every particle of the chunk its interpolated kick, in place |
| ChunkLoops.DriftChunk | case_studies/pic/demo/pic_demo_exp.cpp:872-894 | the vectorised position loop gives every particle its destination and its position there |
| ChunkLoops.MoveItems | case_studies/pic/demo/pic_demo_exp.cpp:769-894 | the two loops together move every particle of the chunk, in place |
| Engine.Pic.PushMoved | case_studies/pic/demo/pic_demo_exp.cpp:917-927 | exactly one bag changes, that of the destination and of the kind chosen by the test, by exactly this particle |
| Engine.Pic.DepositMoved | case_studies/pic/demo/pic_demo_exp.cpp:928-940 | the corner sums over the threads grow by exactly this particle's corners |
| Engine.Pic.Dispatch | case_studies/pic/demo/pic_demo_exp.cpp:903-940 | the printed test decides between PRIVATE and SHARED, that bag alone gains the particle, and its corners are deposited |
| Engine.Pic.DispatchChunk | case_studies/pic/demo/pic_demo_exp.cpp:895-941 | every particle of the chunk is pushed and deposited |
| Engine.Pic.ProcessChunk | case_studies/pic/demo/pic_demo_exp.cpp:765-942 | a chunk of the cell being drained is moved, pushed, deposited and freed, and the iteration goes on with the chunk that followed it |
| Engine.Pic.DrainCell | case_studies/pic/demo/pic_demo_exp.cpp:764-943 | the destructive iteration moves every particle of the cell exactly once, frees the chunks, and leaves the cell's bag empty and valid |
| Engine.Pic.ScaleField | case_studies/pic/demo/pic_demo_exp.cpp:748-763 | the field at the eight corners of the cell, scaled |
| Engine.Pic.SweepBlock | case_studies/pic/demo/pic_demo_exp.cpp:744-746 | the three inner loops visit each cell of the block exactly once |
| Engine.Pic.SweepColour | case_studies/pic/demo/pic_demo_exp.cpp:739-749 | the blocks of a colour, taken in the order of the loops, visit exactly the cells of that colour, each once, for any assignment of blocks to threads |
| Engine.Pic.Sweep | case_studies/pic/demo/pic_demo_exp.cpp:736-952 | the whole nest, in the order of the loops, visits every cell of the grid exactly once and moves, pushes and deposits every particle |
| Engine.Pic.ClearAccumulators | case_studies/pic/demo/pic_demo_exp.cpp:726-734 | all accumulators are zero and the bags are untouched |
| Engine.Pic.MergeCell | case_studies/pic/demo/pic_demo_exp.cpp:955-958 | both next bags of a cell are appended to its current bag and left empty |
| Engine.Pic.ReduceThreads | case_studies/pic/demo/pic_demo_exp.cpp:959-971 | the corner sums of the cell are the sums of the accumulators over the threads |
| Engine.Pic.GatherDeposit | case_studies/pic/demo/pic_demo_exp.cpp:973-980 | each cell's charge is gathered from its eight corners |
| Engine.Pic.Step | case_studies/pic/demo/pic_demo_exp.cpp:725-980 | afterwards the bag of a cell holds exactly the moved particles whose destination it is, all next bags are empty and valid, and the charge is that of scattering every particle, for any assignment of blocks to threads |
| Engine.Pic.StepConservesParticles | case_studies/pic/demo/pic_demo_exp.cpp:736-958 | a step loses no particle and creates none |
| Engine.Pic.StepConservesCharge | case_studies/pic/demo/pic_demo_exp.cpp:973-980 | the charges after a step add up to the number of particles |
| Engine.AllocateStructures | case_studies/pic/demo/pic_demo_exp.cpp:493-511 | on any grid, bags that are empty and share no storage and arrays of the right sizes; on a power-of-two grid, the state from which a step can be taken |
| Kernels.Matvec | case_studies/clift/forward_strip_mining.cpp:6-14 | the in-place loops compute the left-to-right products of the row at the output pointer and change nothing else |
| Kernels.Rmsnorm | case_studies/clift/forward_strip_mining.cpp:22-34 | the row at the output pointer is the normalised input row, also when the two are the same row |
| Kernels.Softmax | case_studies/clift/forward_strip_mining.cpp:36-51 | the row at the pointer is replaced by its softmax, computed in the order of the loops |
| Kernels.Rope | case_studies/clift/forward_strip_mining.cpp:67-78 | the row at the pointer is rotated pair by pair |
| ExactArithmetic.SoftmaxIsShare | case_studies/clift/forward.cpp:28-48 | over the reals, entry i of a softmax is the exponential of entry i over the sum of all exponentials, the greatest entry having no influence |
| ExactArithmetic.SoftmaxAddsUpToOne | case_studies/clift/forward.cpp:28-48 | over the reals, the entries of a softmax add up to one |
| ExactArithmetic.MaxIsGreatest | case_studies/clift/forward.cpp:30-37 | the value subtracted before exponentiating is an entry, and no entry is greater |
| ExactArithmetic.RmsnormIs | case_studies/clift/forward.cpp:6-26 | over the reals, a normalised row is the weighted row times one positive factor, whose square times the mean square plus epsilon is one |
| ExactArithmetic.SwigluIs | case_studies/clift/forward.cpp:228-232 | over the reals, the non-linearity is f / (1 + exp(-f)) times the other input |
| RotaryPositions.FrequenciesAreGeometric | case_studies/clift/forward.cpp:65 | the frequencies of the pairs are a geometric progression from 1 towards 1 / 500000 |
| RotaryPositions.ScoreIsRelative | case_studies/clift/forward.cpp:62-74 | over the reals, the product of a query rotated at position i and a key rotated at position j is a function of i - j |
| Transformer.Causality | case_studies/clift/forward.cpp:169-197 | two prompts that agree up to token i give it the same embedding in every layer |
| Residual.SilentLayerIsIdentity | case_studies/clift/forward.cpp:212-243 | a layer whose two output projections are zero leaves the embedding of every token as it is |
| Residual.SilentModelKeepsEmbeddings | case_studies/clift/forward.cpp:117-243 | if all output projections are zero, every token ends with its row of the embedding weights |
| ExactArithmetic.LayerAdds | case_studies/clift/forward.cpp:207-243 | over the reals, a layer adds to an embedding the outputs of its attention and of its feed-forward network |
| ExactArithmetic.AttentionIs | case_studies/clift/forward.cpp:166-198 | over the reals, a head gives the average of the values, weighted by the exponentials of the products of query and keys over the root of the dimension |
| WeightRoles.AttentionIsAverage | case_studies/clift/forward.cpp:126-205 | over the reals, each coordinate of a token's attention is the average of the projected values of the tokens up to it, weighted by the exponentials of scores that depend on the distance, with the weights indexed as in the buffers |
| WeightRoles.AttentionOutputIs | case_studies/clift/forward.cpp:206-210 | the output of the attention is the product with the layer's matrix in its flat buffer |
| WeightRoles.HiddenUnitIs | case_studies/clift/forward.cpp:222-232 | a unit of the feed-forward network gates the product with the layer's fc weights and multiplies by that with its up weights |
| WeightRoles.FfnOutputIs | case_studies/clift/forward.cpp:233-237 | the output of the feed-forward network is the product with the layer's matrix in its flat buffer |
| WeightRoles.NormsAre | case_studies/clift/forward.cpp:125-221 | the two normalisations of a layer use that layer's weights, each its own |
| WeightRoles.OutputNormIs | case_studies/clift/forward.cpp:244-246 | the last normalisation uses the weights of the output |
| WeightRoles.LogitIs | case_studies/clift/forward.cpp:244-253 | the logit of a word is the product of its row of the output weights with the normalised embedding |
| Attention.CacheStore | case_studies/clift/forward_strip_mining.cpp:140-147 | writing through the pointer of a cache row changes that row and no other, for every layer, head and position |
| Attention.AttendHead | case_studies/clift/forward_strip_mining.cpp:175-204 | the attention of one query head over the cached positions, from the scores to the blend |
| PromptState.AttendedIsHead | case_studies/clift/forward_strip_mining.cpp:172-205 | with the caches filled up to a token, what the loops attend to is what the specification says, whatever rows of later tokens or layers hold |
| PromptState.ProcessedIsUnique | case_studies/clift/forward.cpp:265-288 | the specification of prompt processing determines both caches and the logits |
| TokenMajor.ProjectToCache | case_studies/clift/forward.cpp:138-154 | position pos of the layer gets the projections for every head, all other rows are untouched |
| TokenMajor.RopeCache | case_studies/clift/forward.cpp:159-165 | position pos of the layer is rotated for every head, all other rows are untouched |
| TokenMajor.Attend | case_studies/clift/forward.cpp:166-198 | every query head attends over the positions up to pos |
| TokenMajor.JoinHeads | case_studies/clift/forward.cpp:200-205 | the heads end up side by side |
| TokenMajor.Layer | case_studies/clift/forward.cpp:123-243 | one layer takes the embedding of the token to the next layer's and fills its position of the caches |
| TokenMajor.Forward | case_studies/clift/forward.cpp:89-263 | one token fills its rows of every layer, and its logits if they are asked for |
| TokenMajor.GeneratePromptProc | case_studies/clift/forward.cpp:265-288 | token by token, the caches hold the specified keys and values up to the prompt's length, all other rows are as before, and the logits are those of the last token |
| LayerMajor.NormRows | case_studies/clift/forward_strip_mining.cpp:122-127 | every row of the batch is normalised, also in place |
| LayerMajor.QueryProjections | case_studies/clift/forward_strip_mining.cpp:128-136 | every head and token gets its query |
| LayerMajor.ProjectToCache | case_studies/clift/forward_strip_mining.cpp:137-157 | the batch's rows of the layer get the projections for every head, all other rows are untouched |
| LayerMajor.RopeCache | case_studies/clift/forward_strip_mining.cpp:164-171 | the batch's rows of the layer are rotated by their positions, all other rows are untouched |
| LayerMajor.Attend | case_studies/clift/forward_strip_mining.cpp:172-205 | every query head of every token attends over the positions up to the token, although later positions are already filled |
| LayerMajor.JoinHeads | case_studies/clift/forward_strip_mining.cpp:206-213 | the heads of every token end up side by side |
| LayerMajor.FeedForward | case_studies/clift/forward_strip_mining.cpp:227-268 | every row is taken through the feed-forward network with the layer's ffn_norm_weight |
| LayerMajor.Layer | case_studies/clift/forward_strip_mining.cpp:121-269 | one layer over the whole batch takes all embeddings to the next layer's and fills the layer's rows of the caches |
| LayerMajor.Classify | case_studies/clift/forward_strip_mining.cpp:270-279 | every token writes the logits and those of the last one stay |
| LayerMajor.GeneratePromptProc | case_studies/clift/forward_strip_mining.cpp:80-291 | layer by layer, the caches and logits end as specified, the same specification as for the token-by-token form |
| LoopInterchange.BothForms | case_studies/clift/forward_strip_mining.cpp:80-291 | from equal caches and logits the two forms leave equal caches and logits, for every prompt that fits the context and whatever the float operations do |
| Words.DoublingWraps | case_studies/floyd_warshall/floyd_warshall_exp.cpp:37-43 | doubling a uint32_t makes it smaller exactly from 2^31 on |
| Words.FlatIndexInjective | case_studies/floyd_warshall/floyd_warshall.cpp:12-14 | the 32-bit index i * N + j tells the cells of the matrix apart exactly when N is at most 65536 |
| FloydWarshall.Floyd | case_studies/floyd_warshall/floyd_warshall.cpp:3-19 | on the flat buffer with its 32-bit index, the in-place triple loop computes the composition of the plain passes, up to N = 65536 where the index is faithful |
| FloydWarshall.FloydRow | case_studies/floyd_warshall/floyd_warshall.cpp:10-16 | the innermost loop, which reads cells of row k and column k while they may be changing, gives the row its closed form |
| FloydWarshall.CachedFloyd | case_studies/floyd_warshall/floyd_warshall_exp.cpp:4-71 | the cached and split loops on the flat buffer compute the composition of the cached passes, up to N = 65536 |
| FloydWarshall.CachedFloydPass | case_studies/floyd_warshall/floyd_warshall_exp.cpp:7-67 | the two copies and seven nests together give every cell its closed form |
| FloydWarshall.RelaxRows | case_studies/floyd_warshall/floyd_warshall_exp.cpp:14-36 | the three nests over a range of rows give each of them its closed form from the cached row |
| FloydWarshall.RelaxKRow | case_studies/floyd_warshall/floyd_warshall_exp.cpp:37-43 | the nest over row k gives it its closed form and keeps the cached row equal to it, with the diagonal entry as cached |
| FloydWarshall.RelaxColumn | case_studies/floyd_warshall/floyd_warshall_exp.cpp:22-28 | the nests over column k keep the cached column equal to the column |
| CachedIsPlain.PassesAgreeExactly | case_studies/floyd_warshall/floyd_warshall_exp.cpp:37-43 | for a given diagonal entry, both forms of iteration k agree on every matrix exactly when the entry is below 2^31 or k is the last |
| CachedIsPlain.CachedEqualsPlain | case_studies/floyd_warshall/floyd_warshall_exp.cpp:4-71 | both programs compute the same matrix bit for bit, even where sums wrap, if no diagonal entry but the last is 2^31 or more |
| CachedIsPlain.DiagonalIsExact | case_studies/floyd_warshall/floyd_warshall_exp.cpp:4-71 | for a given diagonal, the two programs agree on every matrix with that diagonal exactly when no entry of it but the last is 2^31 or more |
| CachedIsPlain.BoundIsExact | case_studies/floyd_warshall/floyd_warshall_exp.cpp:4-71 | so 2^31 is the largest bound on the diagonal that makes them agree, whatever the size from 2 on |
| ShortestWalks.SmallPass | case_studies/floyd_warshall/floyd_warshall.cpp:6-18 | with entries below 2^31 no sum wraps, the bound is kept, and an iteration is the textbook one |
| ShortestWalks.NoWalkIsLighter | case_studies/floyd_warshall/floyd_warshall.cpp:6-18 | after t iterations no walk through vertices below t weighs less than the entry |
| ShortestWalks.LightestWeight | case_studies/floyd_warshall/floyd_warshall.cpp:6-18 | after t iterations a walk through vertices below t weighs as much as the entry |
| ShortestWalks.ResultIsLeastWeight | case_studies/floyd_warshall/floyd_warshall.cpp:3-19 | with entries below 2^31 every entry of the result is the least weight of a nonempty walk, attained, and below 2^31 |
| Reference.Conv2D | case_studies/harris/harris.cpp:26-43 | the four loops compute the convolution of every window |
| Reference.NineTerms | case_studies/harris/harris.cpp:45-82 | a 3x3 convolution is the sum of its nine products |
| Reference.PipelineIsOutput | case_studies/harris/harris.cpp:112-137 | the composition of the whole-image stages is the picture defined pixel by pixel |
| Reference.Harris | case_studies/harris/harris.cpp:112-148 | the reference pipeline produces that picture |
| PictureLaws.ResponseIsByPrincipalGradients | case_studies/harris/harris.cpp:96-110 | the response of a window is l1 * l2 - kappa * (l1 + l2)^2 in its principal gradients l1 and l2, whatever their direction |
| PictureLaws.PixelOfRamp | case_studies/harris/harris.cpp:7-110 | on an image whose planes are ramps every pixel has the response of an edge, computed from the slopes and the weights |
| PictureLaws.NoPreferredAxis | case_studies/harris/harris.cpp:45-110 | exchanging rows and columns of the image exchanges those of the picture |
| Tiled.RingHoldsThreeRows | case_studies/harris/harris_par_cbuf3.cpp:13-15 | a ring buffer tells any three consecutive rows apart exactly when it has at least three slots |
| Tiled.SobelRow | case_studies/harris/harris_exp.cpp:89-109 | a row of both gradients from three rows of the ring |
| Tiled.OutputRow | case_studies/harris/harris_exp.cpp:110-166 | a row of the output from three rows of gradients, nothing else is written |
| Tiled.TileRow | case_studies/harris/harris_par_cbuf3.cpp:16-106 | one row of a tile: no row is overwritten in the rings before its last use, and at most one row of the output is written |
| Tiled.Tile | case_studies/harris/harris_exp.cpp:77-171 | a tile writes its own rows of the output and no other, with the right values |
| Tiled.TilesPartition | case_studies/harris/harris_exp.cpp:77 | every row of the output is in exactly one tile |
| Tiled.Harris | case_studies/harris/harris_exp.cpp:75-172 | all tiles together produce the picture of the reference, for any ring of at least three slots; with rotated sums, the picture for twice the first Sobel weight in the horizontal gradient, which is the reference's when the second weight is that |
| Tiled.HarrisInAnyOrder | case_studies/harris/harris_exp.cpp:76-77 | the tiles may run in any order, with the same result |
| Pictures.PicturesAgreeExactly | case_studies/harris/harris_regrot.cpp:24-50 | for given weights and an image size of at least 4 x 4, that picture is the reference's on all images exactly when the second Sobel weight is twice the first, a side of 4 leaves no output, or all gray weights are 0 |
| Pictures.LiteralsAreTwice | case_studies/harris/harris_regrot.cpp:48-58 | the float literals of the two Sobel weights are the binary32 numbers nearest to 1/12 and 2/12, and the second is exactly twice the first |
| Rotated.StencilsAgreeExactly | case_studies/harris/harris_regrot.cpp:24-50 | the rotated horizontal gradient is the reference's for all pixels exactly when the second Sobel weight is twice the first |
| Rotated.SobelRow | case_studies/harris/harris_regrot.cpp:23-66 | the rotated accumulators are the column sums at x, x + 1 and x + 2, so that the row is that of the reference with twice the first weight in the horizontal gradient |
| Rotated.OutputRow | case_studies/harris/harris_regrot.cpp:67-116 | the rotated sums of products give the reference's pixels |
| Windows.ReduceIntSumSubLeft | include/optitrust_models.h:131 | removing the first element of a sum, assumed in the source |
| Windows.ReduceIntSumSlide | include/optitrust_models.h:133 | sliding a window by one, assumed in the source |
| Windows.Slide | case_studies/opencv/box_filter_rowsum_exp.cpp:28 | sliding a window on 16 bits, where the difference of the two pixels may be negative |
| Windows.SummedIsUnique | case_studies/opencv/box_filter_rowsum.cpp:8-33 | the row of pixels determines the row of sums |
| Windows.WindowOfImpulse | case_studies/opencv/box_filter_rowsum.cpp:22-30 | a window sees a byte exactly when it covers its pixel, in the channel of the byte |
| Windows.WindowsAdd | case_studies/opencv/box_filter_rowsum.cpp:22-30 | the windows of a sum of two rows are the sums of their windows |
| Windows.NeverWrapsExactly | case_studies/opencv/box_filter_rowsum.cpp:23-28 | 16 bits hold every window sum of width w exactly when w is at most 257 |
| RowSum.NaiveRowSum | case_studies/opencv/box_filter_rowsum.cpp:8-33 | every cell holds its window's sum modulo 2^16, for all w >= 0, n >= 1, cn >= 0 |
| RowSum.ThreePixels | case_studies/opencv/box_filter_rowsum_exp.cpp:9-12 | the flat loop for width 3 writes the windows of every pixel and channel |
| RowSum.FivePixels | case_studies/opencv/box_filter_rowsum_exp.cpp:14-19 | the flat loop for width 5 writes the windows of every pixel and channel |
| RowSum.SlideOne | case_studies/opencv/box_filter_rowsum_exp.cpp:21-30 | the sliding window for one channel |
| RowSum.SlideThree | case_studies/opencv/box_filter_rowsum_exp.cpp:32-51 | three sliding windows side by side |
| RowSum.SlideFour | case_studies/opencv/box_filter_rowsum_exp.cpp:53-77 | four sliding windows side by side |
| RowSum.SlideAny | case_studies/opencv/box_filter_rowsum_exp.cpp:79-89 | a sliding window for one channel after the other |
| RowSum.SlidePointers | case_studies/opencv/box_filter_rowsum_opencv.cpp:103-114 | the same with the pointers bumped once per channel |
| RowSum.SpecialisedRowSum | case_studies/opencv/box_filter_rowsum_exp.cpp:7-95 | all six branches write what the simple program writes |
| RowSum.OpenCvRowSum | case_studies/opencv/box_filter_rowsum_opencv.cpp:20-115 | so does OpenCV's hand-written operator, at 8-bit inputs and 16-bit sums |
| Matmul.Mm | case_studies/matmul/matmul.cpp:8-19 | the triple loop adds up the products of every entry in order, for any operations |
| Matmul.Pack | case_studies/matmul/matmul_exp.cpp:10-19 | the packed buffer holds each block of columns of B as consecutive rows |
| Matmul.PackingInjective | case_studies/matmul/matmul_exp.cpp:14-15 | packing stays in bounds and sends no two entries of B to one cell |
| Matmul.PackingOnto | case_studies/matmul/matmul_exp.cpp:14-15 | packing reaches every cell |
| Matmul.NextProduct | case_studies/matmul/matmul_exp.cpp:34-37 | one unrolled statement advances every entry of a row by one product of the reduction |
| Matmul.FourProducts | case_studies/matmul/matmul_exp.cpp:33-52 | the four unrolled loops advance a row by four products |
| Matmul.Tile | case_studies/matmul/matmul_exp.cpp:22-62 | a tile of C ends with its entries' full reductions and the tiles before it are untouched |
| Matmul.TiledMm | case_studies/matmul/matmul_exp.cpp:7-65 | the packed, tiled and unrolled program computes the product in the reduction order of the plain one, for any sizes that the tiles divide |
| Matmul.ProductIsUnique | case_studies/matmul/matmul.cpp:8-19 | so the two programs give the same matrix although nothing is assumed of addition and multiplication |
| Matmul.IdentityIsNeutral | case_studies/matmul/matmul.cpp:8-18 | the product with the identity matrix on either side is the other matrix, whenever zero and one are neutral |
| Quantize.RoundedIsNear | case_studies/clift/quantization/quantization_wrapped.cpp:26-27 | rounding x / scale gives an integer within 127 of zero, off by at most half a scale |
| Quantize.RoundIsNearest | case_studies/clift/quantization/quantization_wrapped.cpp:27 | rounding gives the nearest integer, from a half the one farther from zero, and no other |
| Quantize.ScaleIsLeast | case_studies/clift/quantization/quantization_wrapped.cpp:13-22 | the scale of a group is the least by which 127 steps reach every entry |
| Quantize.WholeRangeIsUsed | case_studies/clift/quantization/quantization_wrapped.cpp:13-29 | a group whose scale is not zero has an entry quantized to 127 or -127 |
| Quantize.QuantizeVector | case_studies/clift/quantization/quantization_wrapped.cpp:5-31 | for any length, every group gets its scale and its entries the rounded quotients, which fit in eight bits; entries after the last whole group are not written, and in a group of zeros the conversion of 0 / 0 may give anything |
| QuantizedMatvec.AccumulatorBound | case_studies/clift/quantization/quantization_wrapped.cpp:49-52 | the partial sums of a group stay within 16384 per product, for all 8-bit entries, far inside 32 bits |
| QuantizedMatvec.MatvecQuantized | case_studies/clift/quantization/quantization_wrapped.cpp:33-58 | for any row length, each output is the sum over the whole groups of the row of the rescaled integer products, with the weight scale of the flat group in which each of them starts |
| QuantizedMatvec.Matvec | case_studies/clift/quantization/quantization_wrapped.cpp:60-68 | each output is the left-to-right product of its row |
| QuantizedMatvec.NearError | case_studies/clift/quantization/quantization_wrapped.cpp:51-53 | one product is off by at most 127 * s_x * s_w |
| QuantizedMatvec.RowError | case_studies/clift/quantization/quantization_wrapped.cpp:33-68 | as far as its groups go, a row's quantized product is within the sum of GS * 127 * s_x * s_w of the real one, groups of zeros included |
| QuantizedMatvec.BoundIsExact | case_studies/clift/quantization/quantization_wrapped.cpp:33-68 | the bound holds of the whole product, for all vectors and rows of a length, exactly when the length is a whole number of groups |
| QuantizedMatvec.MatvecQuantizedWrapper | case_studies/clift/quantization/quantization_wrapped.cpp:69-77 | for any input the outputs are the quantized products with the quantized vector; for whole groups they are within the bound of the real product with the weights before quantization |
| Micropic.InterpScales | case_studies/minipic/micropic_exp.cpp:200-204 | interpolating a scaled field scales the interpolation |
| MicropicLaws.FieldIsTrilinear | case_studies/minipic/micropic.cpp:93-151 | the field at a position is that at the corners, interpolated along x, y and z in turn |
| MicropicLaws.PositionSplits | case_studies/minipic/micropic.cpp:69-89 | a position is that of a corner of the grid plus the relative position, between 0 and 1, in cells |
| MicropicLaws.UniformFieldRun | case_studies/minipic/micropic.cpp:183-236 | in a uniform field, n steps take a particle to the speed and place of n equal increments deltaT * charge / mass * field |
| Micropic.ScaledStepAgrees | case_studies/minipic/micropic_exp.cpp:182-214 | with the exact factor, a step keeps scaled speed equal to deltaT times speed, and the positions equal |
| Micropic.ExactFactorAgrees | case_studies/minipic/micropic_exp.cpp:165-223 | with the exact factor the scaled run ends with the same positions and speeds, for any number of steps |
| Micropic.ProgramsAgreeExactly | case_studies/minipic/micropic_exp.cpp:168 | the factor is stored in an int, so the two programs agree on all inputs exactly when deltaT^2 * charge / mass is an integer |
| Micropic.Simulate | case_studies/minipic/micropic.cpp:183-242 | the plain loops push every particle the given number of steps |
| Micropic.SimulateScaled | case_studies/minipic/micropic_exp.cpp:165-223 | the scaled loops compute the scaled run of every particle with the truncated factor |
| Groups.SwapGroups | include/optitrust_common.h:363-368 | exchanging two nested groups conserves the items |
| Groups.GroupIsOfRange | include/optitrust_common.h:267-276 | a group has one item for every index of its range and no other |
| Groups.TiledIndexInRange | include/optitrust_common.h:389-397 | a tile index and an index within the tile give an index within the size |
| Groups.TileDivides | include/optitrust_common.h:405-416 | tiling a group conserves the items under the written conditions |
| Groups.GroupCollapse | include/optitrust_common.h:442-447 | collapsing two nested groups conserves all items exactly when n and m are not both negative, which is not written |
| Groups.GroupShift | include/optitrust_common.h:608-615 | shifting a group conserves the items, for every step |
| Groups.GroupScale | include/optitrust_common.h:639-647 | with ranges that only go up, scaling a group conserves all items exactly when the factor is positive or both ranges are empty |
| Groups.SignedGroupScale | include/optitrust_common.h:639-647 | with ranges that go down when their step is negative, scaling conserves the items for every factor that is not zero, as written |
| Quicksort.Partition | case_studies/quicksort/quicksort.cpp:18-32 | the pivot ends between the smaller elements and the others, and the range is permuted |
| Quicksort.InsertionSort | case_studies/quicksort/quicksort.cpp:34-45 | selection leaves the range sorted and permuted |
| Quicksort.SortCore | case_studies/quicksort/quicksort.cpp:47-60 | the recursion on the two sides of the pivot terminates and sorts the range, leaving everything outside as it was |
| Quicksort.Sort | case_studies/quicksort/quicksort.cpp:62-64 | the whole array is sorted and permuted |

## Left out

- SerialBag.Bag.PushConcurrent: is the push without contention, taken as one call; contended pushes are the runs of `ConcurrentBag`, where a chunk is named by its rank in allocation order instead of a pointer.
- Engine.Pic.SweepColour: see `Engine.Pic.Step`, the blocks of a colour are taken in the order of the loops.
- Engine.Pic.Sweep: the same.
- Engine.Pic.Step: takes the blocks of one colour, which run in parallel, one after the other in the order of the loops. `ParallelSweep` and `ParallelStep` cover every interleaving of their pushes and deposits, with the particles that a block moves given as a log; the draining of a block's own cells, which no other block touches, is not interleaved there.
- Engine.Pic.Step: ends before `updateFieldUsingDeposit`, whose Poisson solver is not part of this model; the field is a parameter.
- ConcurrentBag.After: assumes sequentially consistent memory; weak memory effects are not modelled.
- ParallelSweep.ParallelSweepDelivers: the moves of a block are given as the log of what its cells hold, see `Engine.Pic.Step`; the loops that compute them are those of `ChunkLoops`.
- ParallelStep.ParallelDeposit: a deposit is one step, taken when its push ends; the accumulators it adds to are those of its own thread, which runs one block at a time.
- FloydWarshall.Floyd: beyond N = 65536 some two cells share a word (`Words.FlatIndexInjective`), and nothing is promised of the matrix; the same for `FloydWarshall.CachedFloyd`.
- Tiled.Harris: image buffers are two-dimensional, and the products with the literal weight 0 that one of the programs writes out are left out, since over the reals they add nothing.
- Micropic.SimulateScaled: the scaled interpolation coefficients are computed by the same method as the plain ones, with a flag for the simplified formulas that the optimised program has inlined.
- SerialPush.ExecKeepsBusy: a store into a chunk beyond its last slot, which only racing pushes can reach, has no effect in the model.
- Quicksort.SortCore: lengths are not negative; the program returns at once on negative ones.
- Floating point: the transformer and the matrix product use arbitrary operations, the other numeric programs reals; IEEE rounding, fused operations and the functions of libm are not modelled. `ExactArithmetic` assumes of the square root, the exponential, the power, the cosine and the sine only the laws it names.
- Integer width: sizes and counters are unbounded except where the wrap-around is the point (32-bit words of Floyd-Warshall, 16-bit sums of the box filter, the accumulators of the quantized product).
- Memory: allocation always succeeds and gives fresh memory; read-only inputs are values, and buffers that the programs pass as separate pointers do not overlap, except the row that is normalised in place.
- The six arrays of a chunk are the rows of one two-dimensional array, and the current and next bags are one sequence.
- `bag_swap`, the iterators over bags and `bag_push`, which only calls the serial push.
- `createParticles`, `loadParameters`, the Poisson solver and the reporting of the particle simulation.
- The single-precision variant of the particle engine, the vectorised rotated Harris variant, and the other intermediate variants of the row sum and the matrix product.
- OpenMP scheduling, SIMD pragmas and alignment; the parallel loops over tiles of Harris are covered by `Tiled.HarrisInAnyOrder`.
- The read-only and reversed forms of the index-set rewritings, and the checking of annotations.
