# Verified core of the seed finder

A Dafny model of the logic at the heart of the seed finder: the C worker with its vendored
cubiomes engine, and the one concurrency primitive of the bot. Code that changes buffers,
counters or lists step by step is modelled by methods on arrays and classes; what it is meant to
compute is a function or predicate, and the lemmas beside it say what that function means.

Check the whole project with `dafny verify dfyconfig.toml`.

| File | What it models |
|---|---|
| `Words.dfy`, `Bits.dfy` | machine words, products, remainders and bitwise operations as used everywhere |
| `LayerRng.dfy`, `LayerDraws.dfy`, `Biomes.dfy`, `LayerTree.dfy`, `LayerRules.dfy`, `LayerValues.dfy` | the layered biome generator as plain functions of world coordinates, its two random generators, and the loop bodies of its layers |
| `Windows.dfy`, `WindowTrees.dfy`, `LayerBuffers.dfy`, `LayerMaps.dfy` | the layers on the one buffer they share and overwrite, what they leave in it, and the size of that buffer |
| `LayerStack.dfy`, `LayerTable.dfy`, `LayerScales.dfy` | the layer stacks of Minecraft Beta 1.8 to 1.17, the table that sets them up row by row, and the scale of every layer |
| `LayerBorders.dfy` | what the layers make of neighbouring cells: climates, biomes, rivers and coasts |
| `BetaColumns.dfy` | the diagonal sweep that keeps column noises in a ring buffer |
| `ClimateTree.dfy` | the branch-and-bound search for the nearest climate box |
| `Voronoi.dfy` | the 1:1 scale: nearest cell points, looked up one by one or through a batch |
| `Fortress.dfy` | the Nether fortress generator: a list of pieces threaded by a chain of pending ones |
| `LargestRectangle.dfy`, `RectangleStack.dfy` | the largest-rectangle search with a stack of open bars, and how high the stack gets |
| `JavaRandom.dfy`, `ModularInverse.dfy`, `StructurePositions.dfy`, `StructureDraws.dfy`, `KnownAttempts.dfy`, `QuadBase.dfy`, `QuadScan.dfy` | the generator of java.util.Random, modular inverses, structure attempts (in general, and of two seeds drawn out in full), and the test and scan for four structures around one block |
| `SeedSearch.dfy`, `ScannedRegions.dfy`, `SearchThreads.dfy`, `SeedMix.dfy`, `KnownMix.dfy` | live search against the precomputed cache, which attempts both look at, the threads of a run, and which seeds they look at |
| `Semaphore.dfy` | the first-come, first-served semaphore |

## Main results

* For every version from Beta 1.8 to 1.17, every world seed and every window, the layered generator
  at scales 4, 16, 64 and 256 yields the cells of one function of world coordinates, although all
  layers overwrite the buffer their parents were generated into, and it stays inside
  `getMinLayerCacheSize`. For every other tree of layers, too, it stays inside, and what it leaves is
  described window by window, stale cells included.
* Every output cell that the diagonal sweep covers has the value it would have if its four column noises were
  generated for it alone: what the ring buffer holds is right whenever it is read.
* The pruned tree search returns a leaf that no leaf is closer than, and an earlier leaf given as
  a hint only decides between tied leaves.
* At scale 1:1 a range of any size gives each block the sample of its nearest cell point.
* Every fortress, whatever is drawn, is finished after finitely many pieces, has disjoint
  pieces within their limits and the 112 block rule, and leaves no opening without a piece unless
  an end piece would not fit there. It ends only where it is deep enough, has used up what is limited, or has met
  a piece that would repeat the last one or had no room. Its draws determine it.
* Each layer stack is at the scale that its entry point says, in all branches, and the rows of the table
  build it; the one exception is the rivers of large biomes after 1.7, which are a quarter as wide as the land.
  After the climate layers neighbouring climates are at most one step apart.
* The hut test is exact, and the strided scan reports every region that passes it once.
* Up to radius 1024, and no further, live search and cache agree for every seed, whatever is viable;
  for one seed and one structure they do exactly as long as no more than 32 attempts of the scanned
  regions are in reach.
* Every attempt inside the circle is looked at, for every seed and radius, exactly for structures
  whose regions are at least 512 blocks wide; for the others the radii at which one can be
  overlooked are given exactly.
* A search run has one winner and counts its probes exactly, over all interleavings of its threads;
  its answer says exactly what the main thread saw, it stops within nine steps of each thread once it is told to, and
  its report of an exhausted search can be relied on exactly if there is nothing to find. A run that
  ends by itself has looked at all of the first `max_seeds` seeds exactly if `max_seeds` and the
  number of threads together do not exceed 2^64.
* The semaphore never exceeds its limit, serves in the order of arrival, makes no waiter wait
  for more releases than its place in the queue, and never reports a worse place than before.

## Where the code differs from what it promises

* `mapShore` leaves a cell unwritten when its parent is a frozen ocean (Minecraft 1.7 and up), so
  the cell keeps a parent value that depends on the window. Over all trees that layers can be put
  together to, it is a function of the world cell exactly up to 1.6
  (`LayerMaps.ShorePlaneLimit`). In the stack of no version does a frozen ocean reach it
  (`LayerStack.EntrySafe`): the ocean types are only mixed in above it.
* With a surface sampler and below scale 4, `genBiomeNoiseBetaScaled` covers its range exactly when
  the offset of the range in its first noise cell and the remainder of its size do not exceed one
  cell together (`BetaColumns.Coverage`); otherwise cells at the far edge are not written
  (`BetaColumns.CoverageFails`).
* A hint given to `climateToBiome` is harmless exactly if it is a leaf (`ClimateTree.HintExact`). The
  first lookup of a run starts with hint 0, the root, and at the climate of the root's box, a
  single point in the shipped tables, the root is what it returns (`ClimateTree.RootAsHint`).
* `getLargestRec` never closes the bars that are open at the last row. It answers the
  largest rectangle that some lower row blocks, which for every grid with a given last row is the
  largest of all exactly when that row has no match (`LargestRectangle.LastRowDecides`).
  The open bars of one column stay on the stack for the next. For the grids of any height with a
  given last row it always fits its buffer exactly if that row has no match but in the last column,
  or in the first without one beside it (`RectangleStack.StackFits`); the 2 by 2 grid in which only
  (1, 0) does not match puts 3 entries into a buffer of 2 (`RectangleStack.PairOverflows`).
* The early exits of `isQuadBaseFeature24` lose nothing for huts, whatever the seed. For structures
  of extent zero every salt has a seed whose four attempts reach one block and fail an exit; for
  desert pyramids it is 2005390828 (`QuadBase.PointExitsLossy`, `QuadBase.ExitsLosslessForHuts`).
* For moduli above 1, `mulInv` answers 1 for the number 0 and for numbers from 2^63 on; moduli of at
  most 1, read as signed words, give 0 (`ModularInverse.MulInv`).
* `search.c` steps through regions as if each were 512 blocks wide. Those of ocean ruins, shipwrecks,
  ancient cities, buried treasures and mineshafts are smaller, so that attempts inside the circle are
  not looked at, by the probe or the full scan: at radius 1000 every seed has the ocean ruin attempt
  of region (-3, 0) inside the circle, and only regions from -2 to 2 are scanned
  (`ScannedRegions.RuinsOverlooked`). A structure's bit means that one can stand inside the circle
  exactly if `ScannedRegions.Escapes` is false of its region size, its draws and the radius
  (`ScannedRegions.ScanLimit`, `ScannedRegions.MaskLimit`).
* Live search keeps 32 candidates per structure. The 33 ocean ruins that seed 1424313348772 attempts
  within 1025 blocks of the origin are more than that, so if only one of those left out is viable,
  the full scan finds it and the probe does not (`SeedSearch.CrowdedDisagrees`).
* `search_run` can report an exhausted search although a thread has found a seed: it reads the found
  flag before it reads that no thread is left. Every search with a seed to be found can end that way
  (`SearchThreads.FoundButReportedExhausted`, `SearchThreads.ExhaustedIsReliable`).
* The number of rounds per thread is computed in wrapping arithmetic: for `max_seeds` = 2^64 - 1, which
  a request of -1 becomes, and two threads it is 0, and the search is reported exhausted without a
  probe (`SeedMix.WrappedRounds`, `SearchThreads.NoRounds`, `SearchThreads.RanOutCoversAll`).
* A signal that fires between the queueing of an acquire and the attachment of its abort handler
  (from inside `onQueued`) has no effect, and the acquire is granted all the same
  (`SemaphoreRuns.AbortBeforeListening`, `SemaphoreRuns.LostSignal`); once the handler is attached
  it rejects the acquire (`SemaphoreRuns.AbortAfterListening`). A signal that has fired before the
  call rejects it exactly if no slot is free (`SemaphoreRuns.FiredBeforeCall`).

## Model

| member | source | states |
|---|---|---|
| LayerTree.Select4IsMode | packages/worker/cubiomes/layers.c:166-185 | select4 returns one of its four cells, and none of them is more frequent among the four |
| LayerDraws.ZoomSeedIsLow | packages/worker/cubiomes/rng.h:287-311 | the 32-bit seed that the zoom layers keep for a block is the low half of its 64-bit chunk seed, for every seed and cell |
| LayerDraws.ZoomDraws | packages/worker/cubiomes/layers.c:118-152 | so all the draws of a zoomed block are those that mcFirstInt makes from the chunk seed and its successors |
| LayerDraws.ZeroAgrees | packages/worker/cubiomes/rng.h:292-303 | mcFirstIsZero holds exactly if mcFirstInt is zero, signed shift and all |
| Windows.OverlapsAgree | packages/worker/cubiomes/layers.c:62-83 | two windows on one plane that share a world cell agree on it, wherever it falls in either |
| Windows.WindowAt | packages/worker/cubiomes/layers.c:62-83 | element (i, j) of a row-by-row window is the plane's value at (x + i, z + j) |
| LayerBuffers.GetMaxArea | packages/worker/cubiomes/generator.c:563-593 | for layers of any zoom and edge, the walk that carries maxima and size along computes the longest side requested anywhere in the tree and the total of all temporary copies |
| LayerBuffers.GetMinLayerCacheSize | packages/worker/cubiomes/generator.c:595-601 | the reported size is that total plus the product of the longest sides along both axes |
| LayerBuffers.ReportedSize | packages/worker/cubiomes/generator.c:563-601 | for the layers that are modelled it is the size within which their methods are shown to stay |
| LayerBuffers.CacheMonotone | packages/worker/cubiomes/generator.c:563-601 | the requested area fits, and a larger request never needs less |
| LayerBuffers.ParentFits | packages/worker/cubiomes/generator.c:563-601 | what a parent needs for its share, beside a copy of the widened area where a layer makes one, fits the layer's own size |
| LayerBuffers.ZoomFits | packages/worker/cubiomes/layers.c:189-265 | the parent area and the doubled area behind it fit, for every parity of the window |
| LayerMaps.MapContinent | packages/worker/cubiomes/layers.c:62-83 | the buffer holds the layer's window, cell (0, 0) of the world being land; nothing beyond the layer's space changes |
| LayerMaps.MapOceanTemp | packages/worker/cubiomes/layers.c:1608-1633 | the buffer holds the ocean type of each cell's temperature |
| LayerMaps.MapZoom | packages/worker/cubiomes/layers.c:85-265 | mapZoom and mapZoomFuzzy, whatever the parent left: the buffer ends up with the zoom of that on the requested window, although the last row and column of the doubled buffer are arbitrary |
| LayerMaps.ZoomBlock | packages/worker/cubiomes/layers.c:118-152 | the shortcut for four equal parents and the draws of the general case give the same four cells |
| LayerMaps.MoveRows | packages/worker/cubiomes/layers.c:156-159 | moving the wanted rows to the front overwrites no row that is still to be moved |
| LayerMaps.MapStencil | packages/worker/cubiomes/layers.c:268-382 | mapLand, mapIsland, mapSmooth and the layers with a rule over the nine cells around each cell: overwriting whatever the parent left in place yields the layer's window over it |
| LayerMaps.AroundRow | packages/worker/cubiomes/layers.c:605-638 | one row of such a layer (mapSnow, mapCool, mapBiomeEdge, mapRiver and the like), while the row above is already overwritten |
| LayerValues.Land16Value | packages/worker/cubiomes/layers.c:412-468 | the loop body of mapLand16, corner after corner, writes what its rule says |
| LayerValues.LandB18Value | packages/worker/cubiomes/layers.c:508-526 | the same of mapLandB18 |
| LayerValues.DeepOceanValue | packages/worker/cubiomes/layers.c:808-847 | the same of mapDeepOcean, which counts the ocean around |
| LayerValues.BiomeEdgeValue | packages/worker/cubiomes/layers.c:1001-1075 | the same of mapBiomeEdge with replaceEdge |
| LayerValues.RiverValue | packages/worker/cubiomes/layers.c:1249-1302 | the same of mapRiver with reduceID |
| LayerValues.BiomeValue | packages/worker/cubiomes/layers.c:876-932 | the same of mapBiome, before and after 1.7 |
| LayerValues.SpecialValue | packages/worker/cubiomes/layers.c:732-745 | the same of mapSpecial |
| LayerValues.SnowValue | packages/worker/cubiomes/layers.c:622-634 | the same of mapSnow |
| LayerMaps.MapPoint | packages/worker/cubiomes/layers.c:861-938 | the layers with a rule over single cells (mapBiome, mapNoise, mapSpecial and the like) turn whatever the parent left into their own window over it |
| LayerMaps.LandRow | packages/worker/cubiomes/layers.c:284-378 | one row of mapLand with the corners carried along, while the row above is already overwritten |
| LayerMaps.LandValue | packages/worker/cubiomes/layers.c:302-373 | the unrolled draws of mapLand are a fold over the four corners |
| LayerMaps.IslandRow | packages/worker/cubiomes/layers.c:549-567 | one row of mapIsland |
| LayerMaps.SmoothRow | packages/worker/cubiomes/layers.c:1329-1359 | one row of mapSmooth |
| LayerMaps.MapShore | packages/worker/cubiomes/layers.c:1423-1533 | the buffer holds the layer's window over what the parent left, with stale parent cells where mapShore skips a cell |
| WindowTrees.ShoreSafeResult | packages/worker/cubiomes/layers.c:1397-1407 | no cell is stale if the parent's window has no frozen ocean |
| WindowTrees.YieldsSafe | packages/worker/cubiomes/layers.c:62-1740 | in a tree without stale cells all that any window can be left with is its part of the tree's plane |
| LayerMaps.ShoreIsNoPlane | packages/worker/cubiomes/layers.c:1495-1498 | for every version after 1.6 there is a parent, though none that a stack has, for which two windows disagree about a shared cell |
| LayerTree.ThawedNeverFrozen | packages/worker/cubiomes/layers.c:1397-1407 | a tree without an ocean type layer, whose rules make no frozen ocean of cells that are none, has a frozen ocean nowhere |
| LayerTree.TameIsSafe | packages/worker/cubiomes/layers.c:1397-1407 | if every mapShore after 1.6 in a tree has such a parent, none of its windows has a stale cell |
| LayerRules.BiomeThaws | packages/worker/cubiomes/layers.c:861-938 | after 1.6 mapBiome makes no frozen ocean of any other cell, for every seed |
| LayerRules.SpecialThaws | packages/worker/cubiomes/layers.c:719-751 | nor does mapSpecial, which only marks cells in higher bits |
| LayerRules.PointThaws | packages/worker/cubiomes/layers.c:972-1013 | nor do mapBamboo and mapSunflower |
| LayerRules.AroundThaws | packages/worker/cubiomes/layers.c:605-859 | nor do mapSnow, mapMushroom, mapCool, mapHeat, mapDeepOcean and mapBiomeEdge, whatever the cells around |
| LayerMaps.ShorePlaneLimit | packages/worker/cubiomes/layers.c:1423-1533 | mapShore shows one plane in all windows, for every parent, exactly up to version 1.6 |
| LayerMaps.MapHills | packages/worker/cubiomes/layers.c:1086-1247 | the biome branch, overwritten in place, and the river branch behind it yield the layer's window over what both left |
| LayerMaps.HillsRow | packages/worker/cubiomes/layers.c:1117-1243 | one row of mapHills, while the rows above are already overwritten |
| LayerMaps.HillsValue | packages/worker/cubiomes/layers.c:1119-1241 | the truncating remainder and the early cases of the source decide as the cell function does |
| LayerMaps.MapRiverMix | packages/worker/cubiomes/layers.c:1565-1605 | what the two parents left is mixed in place into the layer's window |
| LayerMaps.MapOceanMix | packages/worker/cubiomes/layers.c:1636-1740 | the layer's window over what both parents left results although the land window has a border that depends on the ocean cells |
| LayerMaps.OceanBorder | packages/worker/cubiomes/layers.c:1651-1672 | the land window reaches eight cells around every warm or frozen ocean cell, the skipped inner cells included |
| LayerMaps.ScanLand | packages/worker/cubiomes/layers.c:1698-1712 | the five by five scan with its early exit finds a land cell exactly when there is one |
| LayerMaps.GetMap | packages/worker/cubiomes/layers.c:62-382 | for every tree and window the buffer holds what the layers make of each other's windows, which is the layer's plane if no cell is stale, and no cell outside the computed size changes |
| LayerMaps.GenArea | packages/worker/cubiomes/generator.c:603-607 | for every tree and window the result is such a content, within getMinLayerCacheSize cells; without stale cells, cell (i, j) is F at (x + i, z + j); cells beyond stay as they were |
| LayerStack.EntrySafe | packages/worker/cubiomes/generator.c:300-556 | the tree that setupLayerStack builds for any version is one without stale cells, at each of the scales 4, 16, 64 and 256 |
| LayerStack.GenStackArea | packages/worker/cubiomes/generator.c:300-607 | so for every version, seed, scale and window the area is that part of one plane, and nothing beyond the reported buffer size changes |
| LayerTable.SetupLayerStack | packages/worker/cubiomes/generator.c:300-557 | the rows of the table, set up one after the other with the zoom, edge, salt and parents it lists, are the layers of the stack at all four entry points, for every version, with and without large biomes |
| LayerTable.SetupMiddle | packages/worker/cubiomes/generator.c:332-473 | the rows from the ground to the hills are those layers, with the zoom and edge that each map needs |
| LayerScales.EntryScale | packages/worker/cubiomes/generator.c:291-557 | handed down from the entry point of a scale, all branches come to the continents at 1:4096 (1:8192 in Beta 1.8, four times that for large biomes), to the ocean types at 1:256 and to shared layers at one scale, except in the entry of scale 4 for large biomes after 1.7 |
| LayerScales.LargeRivers | packages/worker/cubiomes/generator.c:481-502 | there the land comes from continents at 1:16384, the rivers from continents at 1:4096 |
| LayerScales.CoastScale | packages/worker/cubiomes/generator.c:404-479 | up to 1.0 the shore is made at 1:32, later at 1:16 |
| LayerBorders.ClimatesApart | packages/worker/cubiomes/layers.c:641-717 | after mapCool and mapHeat no warm cell is beside a cold or freezing one, and no lush cell beside a freezing one, whatever the cells before |
| LayerBorders.BiomesApart | packages/worker/cubiomes/layers.c:1015-1084 | above mapBiomeEdge no desert touches snowy tundra, and no swamp touches desert, snowy taiga, snowy tundra or jungle |
| LayerBorders.EdgeAlike | packages/worker/cubiomes/layers.c:1015-1084 | badlands plateaus and giant taigas that it leaves have only similar biomes beside them |
| LayerBorders.DeepInside | packages/worker/cubiomes/layers.c:792-859 | a cell that mapDeepOcean makes deep has ocean on all sides |
| LayerBorders.RiversSeparate | packages/worker/cubiomes/layers.c:1255-1309 | a cell has no river exactly if the noise of its four neighbours is of its own category and, up to 1.6, it is no sea |
| LayerBorders.MushroomsAtSea | packages/worker/cubiomes/layers.c:753-790 | mushroom fields come up only where the cell and its four diagonal neighbours are ocean |
| LayerBorders.CoastsMove | packages/worker/cubiomes/layers.c:268-477 | mapLand and mapLand16 keep every cell whose four diagonal neighbours are sea if it is, and land if it is |
| LayerBorders.CoastsMoveB18 | packages/worker/cubiomes/layers.c:479-546 | so does mapLandB18 |
| LayerBorders.SnowOnLand | packages/worker/cubiomes/layers.c:573-638 | mapSnow keeps the sea and gives land one of three climates; mapSnow16 makes land of land and sea of sea |
| LayerBorders.NoiseOnLand | packages/worker/cubiomes/layers.c:940-969 | the noise below rivers and hills is positive exactly on land |
| LayerBorders.SpecialMarks | packages/worker/cubiomes/layers.c:719-751 | mapSpecial marks land only, with a number from 1 to 15, and keeps the rest of the cell |
| LayerBorders.BiomesByClimate | packages/worker/cubiomes/layers.c:861-938 | after 1.6 each climate, marked or not, becomes one of its biomes, and sea and mushroom fields stay |
| LayerBorders.FewChanges | packages/worker/cubiomes/layers.c:972-1000 | mapBamboo changes nothing but jungle, mapSunflower but plains, mapSwampRiver but swamps and jungles |
| BetaColumns.SameDiagonal | packages/worker/cubiomes/biomenoise.c:1786-1858 | two columns of one diagonal do not share a slot |
| BetaColumns.NextDiagonal | packages/worker/cubiomes/biomenoise.c:1786-1858 | nor do columns of neighbouring diagonals that are alive together |
| BetaColumns.SecondDiagonal | packages/worker/cubiomes/biomenoise.c:1786-1858 | nor does a column and an earlier one two diagonals on |
| BetaColumns.Corners | packages/worker/cubiomes/biomenoise.c:1797-1816 | idx + minDim + 1, idx + minDim and idx, modulo the length, are the slots of the other three corners |
| BetaColumns.NextStripe | packages/worker/cubiomes/biomenoise.c:1846-1857 | the step of idx from one diagonal to the next leads to the slot of its first cell |
| BetaColumns.CellColumns | packages/worker/cubiomes/biomenoise.c:1797-1818 | the four values handed on are the noises of the four corners, and every column still needed stays in its slot |
| BetaColumns.PaintCell | packages/worker/cubiomes/biomenoise.c:1822-1842 | exactly the output cells of one swept cell that lie in the range get their direct values |
| BetaColumns.SweepStripe | packages/worker/cubiomes/biomenoise.c:1788-1857 | one diagonal keeps the ring right, paints its cells and ends at the slot of its last cell |
| BetaColumns.SweepRange | packages/worker/cubiomes/biomenoise.c:1757-1860 | every covered output cell has the value computed from freshly generated noises of its four corners, and no other cell changes |
| BetaColumns.GenBiomeNoiseBetaScaled | packages/worker/cubiomes/biomenoise.c:1726-1860 | for every scale, with and without a surface sampler: the sweep below scale 4 with one, the sample at the middle of each cell otherwise |
| BetaColumns.Coverage | packages/worker/cubiomes/biomenoise.c:1757-1762 | the sweep covers the whole range if and only if offset and remainder fit one cell, on both axes |
| BetaColumns.CoverageFails | packages/worker/cubiomes/biomenoise.c:1757-1762 | a range of two cells whose second cell is not covered |
| BetaColumns.CellOfBlock | packages/worker/cubiomes/biomenoise.c:1757-1762 | every output cell is swept with the four by four blocks that its middle block is in, exactly at scales 1 and 2 |
| BetaColumns.ScalesAgree | packages/worker/cubiomes/biomenoise.c:1757-1843 | two covered cells of any ranges and scales that show the same block get the same value |
| BetaColumns.RingFits | packages/worker/cubiomes/generator.c:145-151 | the ring has the length that getMinCacheSize reserves |
| ClimateTree.GetNpDist | packages/worker/cubiomes/biomenoise.c:1369-1385 | the wrapping 64-bit differences and sums give the squared distance to the box |
| ClimateTree.NodeFields | packages/worker/cubiomes/biomenoise.c:1375-1396 | a 64-bit word has given parameter bytes and first child exactly if it is put together from them, lowest byte first and the child in the top 16 bits |
| ClimateTree.LeavesFarther | packages/worker/cubiomes/biomenoise.c:1388-1431 | no leaf is closer than a box above it, which justifies the pruning |
| ClimateTree.ScanNearest | packages/worker/cubiomes/biomenoise.c:1388-1431 | scanning all leaves gives one of minimal distance, or the given one if none is strictly nearer |
| ClimateTree.GetResultingNode | packages/worker/cubiomes/biomenoise.c:1388-1431 | the pruned search returns exactly what scanning all leaves in order returns, for every start |
| ClimateTree.ClimateToBiome | packages/worker/cubiomes/biomenoise.c:1434-1484 | without a hint, or with a leaf as hint, the result is a nearest leaf; the hint is returned exactly when no leaf is nearer |
| ClimateTree.NearestAgree | packages/worker/cubiomes/biomenoise.c:1434-1484 | two nearest leaves are equally far, and the same unless there is a tie |
| ClimateTree.HintExact | packages/worker/cubiomes/biomenoise.c:1434-1484 | with a given node as hint the lookup finds a nearest leaf for all points exactly if that node is a leaf |
| ClimateTree.RootAsHint | packages/worker/cubiomes/biomenoise.c:1434-1484 | if the root is no leaf and its box is the origin, the lookup at the origin with the root as hint returns the root, which is not a nearest leaf |
| Voronoi.GetVoronoiCell | packages/worker/cubiomes/layers.c:1743-1759 | the push of a cell point is within half a cell on every axis |
| Voronoi.OffsetsExact | packages/worker/cubiomes/layers.c:2151-2171 | the offsets computed for a corner are the differences of the block's and the cell's points, and their squares do not wrap |
| Voronoi.ClosestIsNearest | packages/worker/cubiomes/layers.c:2151-2177 | the chosen corner is nearest among those compared, and strictly nearer than all before it |
| Voronoi.VoronoiAccess3D | packages/worker/cubiomes/layers.c:2137-2181 | the loop with its running minimum finds the first nearest of the eight cells around the block |
| Voronoi.AccessInside | packages/worker/cubiomes/biomenoise.c:1946-1973 | every lookup of a range falls inside its source range |
| Voronoi.CacheFits | packages/worker/cubiomes/generator.c:162-168 | output and source range fit getMinCacheSize |
| Voronoi.GenBiomeNoise3D | packages/worker/cubiomes/biomenoise.c:1563-1586 | every cell of a range has its sample, with the hint that the samples before it leave, and nothing else changes |
| Voronoi.SampleMiddle | packages/worker/cubiomes/biomenoise.c:1563-1586 | above 1:4 the sample of a cell lies at its middle block, or two blocks before it when the cell is an odd number of quarters wide |
| Voronoi.AccessRow | packages/worker/cubiomes/biomenoise.c:1614-1632 | a row of lookups, batched or not, writes the direct sample of every block and leaves the batch alone |
| Voronoi.GenBiomeNoiseScaled | packages/worker/cubiomes/biomenoise.c:1588-1643 | at 1:1 every cell is the sample at its block's cell, batched or not; nothing outside getMinCacheSize is touched |
| Voronoi.RangesAgree | packages/worker/cubiomes/biomenoise.c:1588-1643 | two 1:1 outputs agree on every block they share, whatever their sizes |
| Fortress.CollideMeansShared | packages/worker/cubiomes/finders.c:2663-2668 | the collision test holds exactly if the two boxes share a block |
| Fortress.AppendSafe | packages/worker/cubiomes/finders.c:2673-2684 | placing a piece that fits keeps pieces disjoint, counts exact and within limits, and the chain acyclic with exactly the pending pieces |
| Fortress.CutSafe | packages/worker/cubiomes/finders.c:2844-2846 | taking any pending piece out keeps all that, and takes the piece's weight from the total |
| Fortress.SafeMeans | packages/worker/cubiomes/finders.c:2623-2850 | under the invariant no block lies in two pieces, limited types stay within their limit, the counts add up, and every piece is attached within 112 blocks of the start |
| Fortress.StepWeight | packages/worker/cubiomes/finders.c:2834-2848 | a pending piece weighs more than the at most three pieces a level deeper that replace it |
| Fortress.TrialMeans | packages/worker/cubiomes/finders.c:2737-2751 | a draw leads to a type exactly if that type is not used up, its share of the weights ends beyond the draw, it repeats nothing and fits, and all such types before it repeat nothing and have no room |
| Fortress.RangeTypes | packages/worker/cubiomes/finders.c:2698-2699 | the types tried for a corridor are the seven corridor pieces, those for a bridge the six bridge pieces |
| Fortress.AttachedBeside | packages/worker/cubiomes/finders.c:2623-2652 | a piece stands wall to wall with the piece it continues, its length ahead of it, at the height and side offset of the opening, and never inside it |
| Fortress.TrialFails | packages/worker/cubiomes/finders.c:2737-2751 | a draw that leads to no type has met one, not used up, that would repeat the last one or has no room |
| Fortress.RootedDue | packages/worker/cubiomes/finders.c:2734-2757 | every end piece was due: its depth exceeds 30, no limited type was left, or a type that was left would have repeated the last one or collided there, given the pieces before it |
| Fortress.OneFortress | packages/worker/cubiomes/finders.c:2798-2850 | the random generator, its state and the chunk determine the fortress |
| Fortress.PieceEnv.constructor | packages/worker/cubiomes/finders.c:2813-2832 | the start piece, turned as drawn, and the counters satisfy the invariant |
| Fortress.PieceEnv.LastPending | packages/worker/cubiomes/finders.c:2679-2682 | following the links ends at the last pending piece |
| Fortress.PieceEnv.AddFortressPiece | packages/worker/cubiomes/finders.c:2623-2689 | a piece is placed exactly if it collides with none; then draws are skipped, and a pending one is counted and appended to list and chain; otherwise nothing changes |
| Fortress.PieceEnv.WeighTypes | packages/worker/cubiomes/finders.c:2722-2731 | the flag says whether a limited type is left, and the total is the weight of all types that are not used up |
| Fortress.PieceEnv.CountPending | packages/worker/cubiomes/finders.c:2836-2842 | following the links counts the pending pieces |
| Fortress.PieceEnv.TryTypes | packages/worker/cubiomes/finders.c:2740-2752 | a round places exactly the piece that its draw leads to, if there is one, and changes nothing otherwise |
| Fortress.PieceEnv.TryRounds | packages/worker/cubiomes/finders.c:2737-2752 | the first of five draws that leads to a type decides; if none does, an end piece is due there |
| Fortress.PieceEnv.PlaceEnd | packages/worker/cubiomes/finders.c:2755-2756 | the end piece is placed where it fits, and counted only within 112 blocks of the start |
| Fortress.PieceEnv.ExtendFortress | packages/worker/cubiomes/finders.c:2693-2757 | the new state, generator included, is the one that the five rounds or the end piece lead to; at most one piece is added, on the right side and level of its parent; if none, an end piece there would be out of range or collide |
| Fortress.PieceEnv.ExtendFortressPiece | packages/worker/cubiomes/finders.c:2760-2796 | the openings are continued one after the other, in order; at most three pieces a level deeper are added, none for an end piece, and no opening of the piece is left open |
| Fortress.PieceEnv.TakePending | packages/worker/cubiomes/finders.c:2844-2846 | the i-th pending piece is unlinked and marked as processed, nothing else changes |
| Fortress.GetFortressPieces | packages/worker/cubiomes/finders.c:2798-2850 | whatever is drawn the run ends, with the one fortress that its draws determine: every counted piece but the start was extended once, all openings are closed, every end piece was due, and the invariant holds |
| LargestRectangle.CountRuns | packages/worker/cubiomes/finders.c:5579-5585 | updating the counters turns the run lengths of one column into those of the column to its left |
| LargestRectangle.PushOpen | packages/worker/cubiomes/finders.c:5589-5595 | opening a bar keeps every rectangle that is still open inside some bar |
| LargestRectangle.PopOpen | packages/worker/cubiomes/finders.c:5598-5612 | so does closing the wider bars and shortening the one below them |
| LargestRectangle.CloseBars | packages/worker/cubiomes/finders.c:5598-5612 | every rectangle that the row blocks is at most as large as the best found |
| LargestRectangle.SweepColumn | packages/worker/cubiomes/finders.c:5586-5613 | a column yields the best of all rectangles that start in it and are blocked, and leaves on the stack, and puts there at most, the entries that its run lengths determine |
| LargestRectangle.GetLargestRec | packages/worker/cubiomes/finders.c:5570-5617 | the result is the size of the largest blocked rectangle of matches, whose corners are returned; the most entries the stack ever has are StackPeak |
| LargestRectangle.LastRowBlocks | packages/worker/cubiomes/finders.c:5570-5617 | a last row without a match makes the answer the largest of all rectangles |
| LargestRectangle.LastRowDecides | packages/worker/cubiomes/finders.c:5570-5617 | for all grids with a given last row the answer is the largest of all exactly when that row has no match |
| RectangleStack.EdgesFit | packages/worker/cubiomes/finders.c:5572-5573 | a last row with matches at its edges only keeps the stack within the longer side, in every grid |
| RectangleStack.InnerOverflows | packages/worker/cubiomes/finders.c:5586-5613 | any inner match of a last row has a grid above it in which the stack outgrows its buffer |
| RectangleStack.StackFits | packages/worker/cubiomes/finders.c:5570-5617 | over all grids with a given last row the stack stays inside its buffer exactly if that row has matches at its edges only |
| JavaRandom.JavaNextInt24 | packages/worker/cubiomes/rng.h:137-147 | the macro leaves the next state and yields the next 31-bit draw modulo 24 |
| JavaRandom.Reciprocal24 | packages/worker/cubiomes/rng.h:144-146 | multiplication by the reciprocal and a shift divide every 31-bit number by 24 without overflow |
| JavaRandom.SkipNextN | packages/worker/cubiomes/rng.h:152-173 | the logarithmic jump equals n single steps, for every seed and n |
| JavaRandom.Compose | packages/worker/cubiomes/rng.h:160-169 | two jumps compose to one over the sum of their lengths |
| ModularInverse.MulInv | packages/worker/cubiomes/rng.h:379-400 | for every two words: with a positive number and a modulus above 1, both below 2^63, the result is the inverse in [0, m) or, if there is none, 0, in spite of unsigned wrapping; other moduli give 0, other numbers 1 |
| ModularInverse.CoefficientBound | packages/worker/cubiomes/rng.h:388-399 | the coefficients of the extended algorithm stay below the modulus, so wrapping is undone by one addition |
| StructurePositions.MovedAttempts | packages/worker/cubiomes/finders.h:177-180 | the attempts of a moved seed are those of the original seed at shifted regions |
| StructureDraws.FeatureChunkInRegion | packages/worker/cubiomes/finders.h:746-783 | the running seed, masked after each step, gives the two draws of an attempt, powers of two included |
| StructureDraws.LargeStructureChunkInRegion | packages/worker/cubiomes/finders.h:797-825 | four draws give the two means of a large structure's attempt |
| StructureDraws.NextLong | packages/worker/cubiomes/rng.h:115-118 | two signed draws of 32 bits, the first moved up, in wrapping arithmetic |
| StructureDraws.TreasureChance | packages/worker/cubiomes/finders.c:258-262 | the draw of a buried treasure succeeds exactly if its 24 bits, as a fraction, are below 0.01 |
| StructureDraws.MineshaftChance | packages/worker/cubiomes/finders.c:340-368 | that of a mineshaft exactly if its 53 bits are below 0.004 |
| StructurePositions.AttemptLow | packages/worker/cubiomes/finders.h:747-783 | an attempt depends on the low 48 bits only |
| StructurePositions.AttemptInRegion | packages/worker/cubiomes/finders.c:212-329 | for each kind that is searched for, the attempt of a region lies in that region, for every seed |
| QuadBase.DrawsAreAttempts | packages/worker/cubiomes/quadbase.h:304-344 | the inlined draws of the test are the attempts of getFeatureChunkInRegion |
| QuadBase.GetEnclosingRadius | packages/worker/cubiomes/quadbase.h:215-256 | the result is the smallest reach to the farthest corner over the inner rectangle |
| QuadBase.CentreIsInner | packages/worker/cubiomes/quadbase.h:215-256 | every common centre lies in the inner rectangle, so the restriction loses none |
| QuadBase.IsQuadBaseFeature24 | packages/worker/cubiomes/quadbase.h:304-353 | the test succeeds exactly for attempts that pass the early exits and have a common centre |
| QuadBase.HutExitsLossless | packages/worker/cubiomes/quadbase.h:315-344 | four huts with a common centre pass all early exits |
| QuadBase.PointExitsLossy | packages/worker/cubiomes/quadbase.h:315-344 | for every salt a seed whose four structures of extent zero have a common centre and fail an early exit |
| QuadBase.ExitsLosslessForHuts | packages/worker/cubiomes/quadbase.h:258-278 | of the two extents the dispatch passes on, the exits lose no seed exactly for that of the hut, whatever the salt |
| QuadBase.HutTestIsExact | packages/worker/cubiomes/quadbase.h:304-353 | for huts the test decides whether a common centre exists |
| QuadBase.QuadMoved | packages/worker/cubiomes/quadbase.c:631-635 | the moved seed's four attempts around region (0, 0) are the original's around (i, j) |
| QuadScan.Residue | packages/worker/cubiomes/quadbase.c:624-633 | within a column the regions with the wanted low bits form one residue class |
| QuadScan.FirstIsFirst | packages/worker/cubiomes/quadbase.c:625-628 | the start computed in wrapping arithmetic is the first member of that class in the area |
| QuadScan.ScanForQuadBits | packages/worker/cubiomes/quadbase.c:609-647 | the strided scan lists, in order, the first n wanted regions of the area |
| QuadScan.BInvertible | packages/worker/cubiomes/quadbase.c:654-661 | the inverse for the given number of bits exists, and the built-in one for 20 bits is right |
| QuadScan.ScanForQuads | packages/worker/cubiomes/quadbase.c:649-672 | over all patterns, the first n wanted regions |
| QuadScan.ReportedExactly | packages/worker/cubiomes/quadbase.c:649-672 | a region is listed if and only if it is in the area, has one of the patterns and its moved seed passes the test |
| QuadScan.ReportedOnce | packages/worker/cubiomes/quadbase.c:649-672 | each is listed once if the patterns differ |
| QuadScan.HutScanMeaning | packages/worker/cubiomes/quadbase.c:649-672 | for huts, listed means in the area, with a pattern, and four attempts with a common centre |
| SeedSearch.ScanBiome | packages/worker/src/search.c:83-126 | a position is found exactly if the coarse grid hits the biome; it is the first block of the fine grid around the first hit that has the biome inside the circle, and the hit itself if there is none |
| SeedSearch.PlaceMeans | packages/worker/src/search.c:83-126 | there is one such position at most, inside the circle, and the block there has the biome unless no block of the fine grid around the hit does |
| SeedSearch.CandidatesAre | packages/worker/src/search.c:131-159 | the candidates are the attempts of the scanned regions inside the circle, no more and no fewer |
| SeedSearch.CollectCandidates | packages/worker/src/search.c:140-159 | the first 32 of them are kept, and an empty list is told apart |
| SeedSearch.VerifyStructure | packages/worker/src/search.c:178-188 | a structure is verified exactly if one of its candidates is viable, and the first of those is chosen |
| SeedSearch.ProbeSeed | packages/worker/src/search.c:128-204 | the three filters accept exactly the seeds with every biome seen and every structure standing, whatever the orders, and report for each the position that scan_biome finds or the first viable candidate |
| SeedSearch.SweepBiomes | packages/worker/src/search.c:238-272 | one sweep with its early stop sets exactly the bits of the biomes that a scan of their own would find |
| SeedSearch.StructureExists | packages/worker/src/search.c:216-232 | a structure's bit is set exactly if some attempt of a scanned region inside the circle is viable |
| SeedSearch.FullScan | packages/worker/src/search.c:206-276 | both masks hold exactly the bits of what was seen |
| SeedSearch.CatalogueUnambiguous | packages/worker/src/util.c:7-79 | biomes, structures and bits of the catalogue are distinct, and all bits fit 64-bit masks |
| SeedSearch.HitMeans | packages/bot/src/services/cache.ts:88-94 | a cache hit means that every requested biome was seen and every requested structure stands at an attempt of a scanned region |
| SeedSearch.AllKept | packages/worker/src/search.c:150-154 | up to radius 1024 at most 25 regions are scanned, so none of their attempts is dropped |
| SeedSearch.CacheAgrees | packages/worker/src/search.c:128-276 | up to radius 1024 a seed is accepted live if and only if its masks hit, for every world and specification |
| SeedSearch.OverflowExact | packages/worker/src/search.c:150-154 | for every seed, radius and structure, probe and masks agree whatever is viable exactly if no more than 32 attempts of scanned regions are in reach |
| SeedSearch.CrowdedDisagrees | packages/worker/src/search.c:150-154 | beyond 1024 blocks, a seed whose ocean ruins can be told apart by the masks but not by the probe, when only a dropped candidate is viable |
| SeedSearch.AgreementLimit | packages/worker/src/search.c:128-276 | for each version that can be searched, live search and cache agree about all seeds and specifications, whatever is viable, exactly up to radius 1024 |
| ScannedRegions.ScanLimit | packages/worker/src/search.c:131-132 | for a structure and a radius, every attempt inside the circle is looked at, whatever the seed, exactly if the closest place for one outside of the scanned regions is outside of the circle |
| ScannedRegions.MaskLimit | packages/worker/src/search.c:206-236 | under the same condition, and no other, the structure's bit means that one can stand inside the circle, for every seed and whatever is viable |
| ScannedRegions.WideRegionsScanned | packages/worker/src/search.h:9-13 | so it is at every radius exactly for regions of 32 chunks and more |
| ScannedRegions.RuinsOverlooked | packages/worker/src/search.c:131-159 | at radius 1000 every seed has an ocean ruin attempt inside the circle that is not looked at |
| ScannedRegions.MineshaftsAll | packages/worker/cubiomes/finders.c:332-360 | a seed with a mineshaft in every chunk of a row |
| SearchThreads.RunInv | packages/worker/src/search.c:282-429 | every interleaving keeps the invariant: one winner at most, counters exact, refused seeds probed |
| SearchThreads.OneWinner | packages/worker/src/search.c:309-321 | the result is written at most once, and is a probed, accepted, not excluded seed of some slice |
| SearchThreads.FinishedRun | packages/worker/src/search.c:337-429 | after the joins: a result exactly if the flag is set, the tested counter equals the probes made, and without any flag every seed of every slice was refused |
| SearchThreads.Answer | packages/worker/src/search.c:396-428 | in every run that ends the answer is 1 exactly if the main thread saw the found flag, -1 exactly if it saw that all searches are cancelled, and 0 exactly if it saw that no thread is left or that the time was up |
| SearchThreads.Prompt | packages/worker/src/search.c:282-334 | once one of the three flags is set no thread takes more than nine further steps or makes more than one further probe, over all interleavings |
| SearchThreads.LiveCounter | packages/worker/src/search.c:323-331 | at any time the live counter has no more than the probes made and lacks at most 64 of each thread, and it grows by 64 until a thread leaves |
| SearchThreads.FoundButReportedExhausted | packages/worker/src/search.c:400-421 | in every configuration, for every round whose seed is accepted, an interleaving that ends exhausted although a result was written |
| SearchThreads.ExhaustedIsReliable | packages/worker/src/search.c:400-421 | no run of a configuration is reported exhausted with a result written if and only if every round's seed is refused |
| SearchThreads.ExhaustedCoversAll | packages/worker/src/search.c:337-429 | unless the rounds wrap, each of the first max_seeds mixed seeds is excluded or was rejected when a run ends without any flag |
| SearchThreads.NoRounds | packages/worker/src/search.c:366-413 | if they do, no run makes a probe or finds anything |
| SearchThreads.RanOutCoversAll | packages/worker/src/search.c:337-429 | runs that end without any flag have covered the first max_seeds seeds, whatever the search, exactly if max_seeds and the number of threads do not exceed 2^64 together |
| SeedMix.ShiftInverse | packages/worker/src/util.c:109-117 | exclusive or with a shift by at least a third of the word is undone by two more |
| SeedMix.MixBijection | packages/worker/src/util.c:109-117 | mix64 has an inverse on 64-bit words, from both sides |
| SeedMix.Mix64 | packages/worker/src/util.c:109-117 | the successive assignments yield the mixed word, from which the inverse function gets the input back |
| KnownMix.MixKnown | packages/worker/src/util.c:109-117 | the word mixed from 2^64 divided by the golden ratio is the first that SplitMix64 puts out from state 0 |
| SeedMix.OffsetsDisjoint | packages/worker/src/search.c:292-300 | no offset belongs to two rounds |
| SeedMix.WrappedRounds | packages/worker/src/search.c:366-367 | the number of rounds is the rounded-up quotient if the sum does not wrap, and 0 otherwise |
| SeedMix.OffsetsCover | packages/worker/src/search.c:366-367 | the slices cover the first max_seeds offsets exactly if it does not wrap |
| SeedMix.Overshoot | packages/worker/src/search.c:366-367 | they exceed them by less than the number of threads |
| SeedMix.SeedsDistinct | packages/worker/src/search.c:292-300 | no two rounds of a run probe the same seed, for every max_seeds |
| SemaphoreRuns.RunKeeps | packages/bot/src/services/concurrency.ts:51-169 | every run of balanced calls keeps the invariant |
| SemaphoreRuns.NeverOverLimit | packages/bot/src/services/concurrency.ts:51-131 | slots in use are grants minus releases, at most the limit; waiters exist only when all are in use; waiters with both callbacks were told their place |
| SemaphoreRuns.FirstComeFirstServed | packages/bot/src/services/concurrency.ts:117-131 | of two acquires the earlier one is granted first, unless it was rejected |
| SemaphoreRuns.SettledStays | packages/bot/src/services/concurrency.ts:62-131 | an acquire is settled at most once, and in one way |
| SemaphoreRuns.BoundedWait | packages/bot/src/services/concurrency.ts:117-131 | the waiter in place k, counted from 0, is granted or rejected once k + 1 releases have come, whatever else happens |
| SemaphoreRuns.PlacesImprove | packages/bot/src/services/concurrency.ts:20-39 | over every run of balanced calls no acquire is told a worse place than before, and no waiter a better one than it has |
| SemaphoreRuns.GrantedTold | packages/bot/src/services/concurrency.ts:117-131 | a waiter with a position callback has been told place 0 last when it is granted |
| SemaphoreRuns.ListenAttaches | packages/bot/src/services/concurrency.ts:96-105 | the second part of an acquire attaches the handler of a waiter that has a signal, and leaves it waiting |
| SemaphoreRuns.AbortAfterListening | packages/bot/src/services/concurrency.ts:96-105 | a signal that fires after the handler was attached, at any point of a run at which the acquire still waits, rejects it, and it is never granted |
| SemaphoreRuns.AbortBeforeListening | packages/bot/src/services/concurrency.ts:84-105 | before that a signal changes nothing |
| SemaphoreRuns.FiredBeforeCall | packages/bot/src/services/concurrency.ts:62-94 | an acquire whose signal had fired before is rejected exactly if no slot is free, and otherwise stays granted over every run |
| SemaphoreRuns.LostSignal | packages/bot/src/services/concurrency.ts:84-105 | a run in which an aborted waiter is granted its slot |
| SemaphoreClass.Semaphore.Create | packages/bot/src/services/concurrency.ts:55-59 | a semaphore is made exactly for limits of at least 1, and starts empty |
| SemaphoreClass.Semaphore.Acquire | packages/bot/src/services/concurrency.ts:62-94 | grants, rejects or queues, as the state machine does, and tells the place in the queue |
| SemaphoreClass.Semaphore.Listen | packages/bot/src/services/concurrency.ts:96-105 | attaches the abort handler of a waiter that has a signal |
| SemaphoreClass.Semaphore.IndexOf | packages/bot/src/services/concurrency.ts:98-98 | finds the first waiter of that name |
| SemaphoreClass.Semaphore.AbortHandler | packages/bot/src/services/concurrency.ts:97-103 | removes and rejects the waiter and tells the others their places, or does nothing |
| SemaphoreClass.Semaphore.Release | packages/bot/src/services/concurrency.ts:117-131 | hands the slot to the first waiter, or gives it back |
| SemaphoreClass.Semaphore.NotifyPositions | packages/bot/src/services/concurrency.ts:158-168 | every remaining waiter that listens is told its place, in order |

## Left out

- mapVoronoi, mapVoronoi114 and mapVoronoiPlane, the entry points of scale 1.
- LayerMaps.AroundRow: the source carries two corner cells along in mapLand16 and mapLandB18 and reads all others from the buffer; the model reads all nine.
- LayerMaps.MapOceanMix: for trees with stale cells, which land window is asked for is only said up to the border that each extreme ocean cell needs.
- LayerStack.EntrySafe: areSimilar and the ocean temperatures are parameters, and the seeds of the layers are any function of their salts.
- World coordinates are unbounded integers; the layers' 32-bit and 64-bit coordinate overflow far from the origin is not modelled, the wrapping of their seeds is.
- Climate noise, column noise, and, in live search, viability and biome lookups are parameters: any function of their arguments. So are structure positions there, except where the attempts of a seed are meant (SeedSearch.OverflowExact, SeedSearch.CrowdedDisagrees, SeedSearch.AgreementLimit).
- The shipped biome trees: NodeOk states what is assumed of them (complete, boxes nested). That inputs are small enough for squares not to wrap is a requirement of the lookup.
- BetaColumns.GenBiomeNoiseBetaScaled: the biome at a block, with or without its column noise, is a parameter; that the noise is thinned with the scale is part of it.
- getMinCacheSize for the layered and the beta generator: the former is CacheSize, the latter RingFits; the model follows the branch for samplers without layers. Overflow of its products is not modelled.
- Fortress.GetFortressPieces: what the random generator draws, and what skipping does to it, is any function of its state, which is given as it is after the seeding; the list is as large as needed, since the given capacity is not consulted; the slot behind the list that a rejected piece leaves its fields in is not modelled.
- LargestRectangle.GetLargestRec: the stack is a sequence, so that what writing past its buffer does is not modelled; when that happens is stated for last rows and grids of any height, not for one height.
- isQuadBaseFeature for other ranges and radii, isQuadBaseLarge, and the square root of the returned radius: radii are compared squared and scaled by four.
- QuadScan.ScanForQuads: the precomputed bit lists and the dispatch to other structure types are not modelled; the scan is shown for the two extents that lead to the fast test.
- StructurePositions.MovedAttempts: region numbers are unbounded, not 32-bit.
- StructurePositions.AttemptInRegion: the kinds of the catalogue in the versions the search offers, 1.18 to 1.21; block positions are unbounded.
- SeedSearch.AgreementLimit: biome lookups and viability are any functions, and so is the further draw by which an outpost attempt is dropped, whose generator may repeat draws; those of buried treasures and mineshafts are modelled.
- SeedSearch.ProbeSeed: the sort by rarity is not modelled; the two orders are arbitrary permutations, and the result does not depend on them. Masks are sets of bit numbers.
- SearchThreads: memory order of the atomics is sequential consistency; the clock is an arbitrary choice of the main thread; thread creation never fails.
- SemaphoreRuns.BoundedWait: callbacks are single reports and do not call the semaphore themselves, except between queueing and the attachment of the handler; only holders release. withSlot, which pairs them, is left out.
- End cities, strongholds, surface heights, the Monte Carlo filter, flood fill, biome filters and file resume.
- The tables of biome numbers, structure configurations, and piece sizes and weights are data: the model holds the same numbers, and only what their use needs of them is proved.
- The bot's handlers, its database services and process spawning; of the cache service only the mask predicate is used.
