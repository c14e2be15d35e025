# Procedural terrain and chunk streaming — a Dafny model

This project models the two algorithmic parts of a small Unity world
generator and proves properties about them:

- **`TerrainGenerator`** builds a square heightmap, `width + 1` samples a
  side. Every sample is a fractal sum of noise octaves: each octave
  multiplies the amplitude by `persistence` and the frequency by
  `lacunarity`. The generator then runs `erosionIterations` erosion passes
  and five smoothing passes. Each pass rewrites the interior cells in place,
  row by row, from the four neighbours as they currently stand. Erosion moves
  a cell `strength` of the way towards its neighbour mean and clamps it to
  [0, 1]. Smoothing moves a cell half way towards that mean.
- **`ChunkLoader`** streams square chunks of `chunkSize` world units around
  the player:
  - On start it instantiates the `(2v+1)²` chunks around the origin, where
    `v` is `viewDistance`, and none when `v` is negative.
  - On every frame it floors the player's position to a chunk corner. When
    that corner differs from the last one seen, it fills a buffer with the
    `(2v+1)²` chunk corners around it and runs a job over the buffer.
  - The job instantiates each chunk within `chunkSize * (v + 1)` of the
    player, by Euclidean distance. For every other chunk it destroys the
    first object named `Chunk(Clone)`.

Module layout, following the two source files:

| file | module | contents |
|---|---|---|
| `heightfield.dfy` | `Heightfield` | One pass as pure functions on a grid snapshot: the cell rule (`Step`), the inner loop (`RowPrefix`), the outer loop (`RowsPrefix`), a pass (`Pass`), repeated passes (`Repeat`), and the lemmas about them |
| `fractal_noise.dfy` | `FractalNoise` | The octave sum (`OctaveSum`, `FractalHeight`), with the noise sampler as a parameter, and bounds on it |
| `terrain_generator.dfy` | `TerrainGenerator` | The generator's methods over `array2<real>`, each proved against the functions above |
| `chunk_grid.dfy` | `ChunkGrid` | Chunk arithmetic, the candidate list, and the job's per-candidate decision |
| `chunk_loader.dfy` | `ChunkLoading` | The `ChunkLoader` class: `lastPlayerChunk` and a log of engine calls (`hostCalls`) as fields, and its methods |
| `wrappers.dfy` | `Wrappers` | `Option` |
| `arithmetic.dfy` | `Arithmetic` | Facts about multiplication and Euclidean division that both parts use |

Engine effects are recorded as events in `hostCalls`:
`Instantiate(position)` or `DestroyByName("Chunk(Clone)")`.

The code keeps no set of active chunks, and the model follows the code:
- On a chunk change the code instantiates every candidate within the
  radius again, including chunks that already exist (`ScenarioStepRight`).
- A candidate of the box can be beyond the radius. For it, the code destroys
  some clone instead of keeping it loaded (`ScenarioCornerUnloaded`).
- Chunks that leave the box are never targeted. A destroy by name may still remove one, since the lookup returns whichever clone it finds.

## Model

| member | source | states |
|---|---|---|
| Heightfield.Clamp01 | TerrainGenerator.cs:88 | The result lies in [0, 1]. It equals the input inside [0, 1], is 0 below and 1 above |
| Heightfield.Step | TerrainGenerator.cs:86-116 | The erosion rule (lines 86-88) gives a value in [0, 1]. The smoothing rule (lines 115-116) gives a value between the cell's height and the mean of its four neighbours |
| Heightfield.Pass | TerrainGenerator.cs:82-90 | A pass keeps the grid square and never changes a border cell. A grid with fewer than 3 rows comes back unchanged |
| Heightfield.Repeat | TerrainGenerator.cs:71-74 | Any number of passes leaves every border cell at its original value |
| Heightfield.RowPrefixFrame | TerrainGenerator.cs:84-89 | Row x's inner loop, up to column y, changes only cells (x, 1) .. (x, y - 1) |
| Heightfield.RowsPrefixFrame | TerrainGenerator.cs:82-90 | The outer loop, up to row x, changes only the interior of rows 1 .. x - 1 |
| Heightfield.PassReadsInPlace | TerrainGenerator.cs:82-88 | After a pass, interior cell (x, y) is the rule applied to: its old value, the NEW values of (x-1, y) and (x, y-1), and the OLD values of (x+1, y) and (x, y+1) |
| Heightfield.ErosionPassInUnitRange | TerrainGenerator.cs:88 | After an erosion pass every interior cell lies in [0, 1], whatever the input |
| Heightfield.ErosionRepeatInUnitRange | TerrainGenerator.cs:71-74 | After at least one erosion pass every interior cell lies in [0, 1] |
| Heightfield.SmoothingPassWithin | TerrainGenerator.cs:115-116 | If every cell lies in [lo, hi] before a smoothing pass, every cell lies in [lo, hi] after it |
| Heightfield.SmoothingRepeatWithin | TerrainGenerator.cs:98-103 | The [lo, hi] range is kept through any number of smoothing passes |
| Heightfield.RepeatDegenerate | TerrainGenerator.cs:82-84 | Any number of passes over a grid with fewer than 3 rows leaves it unchanged |
| FractalNoise.FractalHeight | TerrainGenerator.cs:50-62 | A sample is 0 when `octaves` is not positive |
| FractalNoise.GeometricSumClosedForm | TerrainGenerator.cs:46-58 | The total amplitude over n octaves, times (1 - persistence), is 1 - persistence^n |
| FractalNoise.OctaveSumBounds | TerrainGenerator.cs:50-60 | With noise in [0, 1] and persistence ≥ 0, a sum of n octaves lies between 0 and the total amplitude |
| FractalNoise.FractalHeightBounded | TerrainGenerator.cs:46-62 | With persistence in [0, 1), a sample lies in [0, 1 / (1 - persistence)] |
| FractalNoise.DefaultSumExceedsOne | TerrainGenerator.cs:9-11 | The sum is not normalised: with the default settings and noise 1 everywhere, a sample is 1.875 |
| TerrainGenerator.SampleHeight | TerrainGenerator.cs:46-62 | The octave loop, with its amplitude and frequency accumulators, returns the fractal sum: noise sample i weighted by persistence^i at frequency lacunarity^i |
| TerrainGenerator.GenerateHeights | TerrainGenerator.cs:37-66 | Returns a new resolution × resolution array. Every cell holds its fractal height, and one offset is used for the whole grid |
| TerrainGenerator.UpdateCell | TerrainGenerator.cs:86-88 | Writes the rule's value into one interior cell, read from the array as it stands, and changes no other cell |
| TerrainGenerator.SweepRow | TerrainGenerator.cs:84-89 | The inner loop over row x equals `RowPrefix` over the whole row |
| TerrainGenerator.SweepRows | TerrainGenerator.cs:82-90 | The outer loop over rows 1 .. n-2 equals one `Pass` of the grid it starts from |
| TerrainGenerator.Erode | TerrainGenerator.cs:77-94 | After the call, the array is one erosion pass of its old contents, and every interior cell lies in [0, 1] |
| TerrainGenerator.Smooth | TerrainGenerator.cs:106-122 | After the call, the array is one smoothing pass of its old contents |
| TerrainGenerator.ErodeTerrain | TerrainGenerator.cs:69-75 | Applies exactly max(iterations, 0) erosion passes |
| TerrainGenerator.SmoothTerrain | TerrainGenerator.cs:96-104 | Applies exactly 5 smoothing passes |
| TerrainGenerator.PostProcess | TerrainGenerator.cs:32-33 | The finished grid is square, and its border is the raw noise |
| TerrainGenerator.GenerateTerrain | TerrainGenerator.cs:27-35 | The heightmap is (width+1) × (width+1). It is the noise grid after the erosion passes and then the five smoothing passes |
| TerrainGenerator.PostProcessDegenerate | TerrainGenerator.cs:29-33 | A heightmap with fewer than 3 samples a side is never changed after sampling |
| TerrainGenerator.PostProcessInUnitRange | TerrainGenerator.cs:31-33 | If the raw heights lie in [0, 1], so does the finished terrain |
| ChunkGrid.ChunkIndex | ChunkLoader.cs:37-41 | The floored quotient k brackets the coordinate: k·size ≤ p < (k+1)·size, negative positions included |
| ChunkGrid.ChunkIndexUnique | ChunkLoader.cs:37-41 | No other index brackets the coordinate |
| ChunkGrid.PlayerChunk | ChunkLoader.cs:37-41 | The corner is a multiple of the chunk size on both axes, and the player lies in [corner, corner + size) on each axis |
| ChunkGrid.ReDivide | ChunkLoader.cs:62-64 | Re-dividing an aligned corner gives back its chunk index, so the candidates are centred on the player's chunk |
| ChunkGrid.Candidates | ChunkLoader.cs:54-69 | There are (2v+1)² candidates, and none when v < 0 |
| ChunkGrid.SlotHolds | ChunkLoader.cs:57-67 | The slot of offsets (a, b), with a in the outer loop, is in range and holds ((a + kx)·size, (b + kz)·size) |
| ChunkGrid.CandidatesAreBox | ChunkLoader.cs:57-67 | A position is a candidate if and only if it is chunk-aligned and at most v chunks from the centre on each axis |
| ChunkGrid.CandidatesDistinct | ChunkLoader.cs:57-67 | No two candidates are equal |
| ChunkGrid.CandidatesOrdered | ChunkLoader.cs:57-67 | Candidates are in loop order: x never decreases, and z increases while x stays the same |
| ChunkGrid.Execute | ChunkLoader.cs:98-123 | A candidate either instantiates itself or destroys the object named "Chunk(Clone)", never anything else |
| ChunkGrid.ExecuteIsDistanceTest | ChunkLoader.cs:102 | For the Euclidean distance d ≥ 0 with d² equal to the squared distance: unload if and only if d > size·(v+1) |
| ChunkGrid.JobCalls | ChunkLoader.cs:79-80 | The job makes one call per buffer entry |
| ChunkGrid.JobCallsMeaning | ChunkLoader.cs:98-110 | The job instantiates c if and only if c is an entry and passes the distance test. Every other call destroys the clone-named object |
| ChunkGrid.LoadedChunks | ChunkLoader.cs:50-83 | On a chunk change, a chunk is instantiated if and only if it lies in the box around the player's chunk and within the radius |
| ChunkGrid.OwnChunkLoaded | ChunkLoader.cs:98-109 | With v ≥ 1 and the player at most sqrt(2) chunk sizes above the ground, the player's own chunk is instantiated |
| ChunkGrid.ScenarioStepRight | ChunkLoader.cs:37-67 | Size 10, v = 1, player at (12, 0, 0): the calls are the nine instantiations {0, 10, 20} × {-10, 0, 10}, in loop order |
| ChunkGrid.ScenarioCornerUnloaded | ChunkLoader.cs:102-105 | Size 10, v = 1, player at (9.5, 0, 9.5): candidate (-10, 0, -10) is destroyed rather than loaded |
| ChunkLoading.InitialCalls | ChunkLoader.cs:21-32 | The bootstrap makes (2v+1)² calls when v ≥ 0, and none otherwise |
| ChunkLoading.InitialCallsAreBox | ChunkLoader.cs:21-32 | The bootstrap instantiates exactly the box of radius v around chunk (0, 0) and destroys nothing |
| ChunkLoading.ChunkLoader.constructor | ChunkLoader.cs:9-13 | The loader starts with no chunk seen and no engine calls |
| ChunkLoading.ChunkLoader.GenerateInitialTerrain | ChunkLoader.cs:21-32 | The nested loops append the bootstrap's calls, the chunk at (x·size, 0, z·size) for x, z in [-v, v] |
| ChunkLoading.ChunkLoader.Update | ChunkLoader.cs:34-48 | If the player's chunk equals the last one seen, nothing changes. Otherwise the job's calls for that chunk are appended and the chunk is remembered |
| ChunkLoading.ChunkLoader.LoadUnloadChunks | ChunkLoader.cs:50-83 | Appends exactly the job's calls over the candidates around the given chunk |
| ChunkLoading.ChunkLoader.FillCandidates | ChunkLoader.cs:54-69 | The buffer has (2v+1)² entries. The final index equals the number of candidates, the first `index` entries are the candidates in order, and the rest stay at the origin |
| ChunkLoading.ChunkLoader.RunLoadUnloadJob | ChunkLoader.cs:79-80 | Running Execute over buffer entries 0 .. count-1 yields the job's calls for those entries |
| ChunkLoading.UpdateAsWritten | ChunkLoader.cs:43-47 | As declared, a frame fails with a null reference exactly when the last-chunk reference is null |
| ChunkLoading.ReferenceAfterAsWritten | ChunkLoader.cs:43-47 | As written, a frame writes only the position of the Transform the reference points to. A null reference stays null, and a live one ends at the player's chunk |
| ChunkLoading.FramesAsWritten | ChunkLoader.cs:34-48 | A run of frames, as written, gives one outcome per frame, with the reference carried from each frame into the next |
| ChunkLoading.AsWrittenEveryFrameFails | ChunkLoader.cs:13 | Starting from the null reference of the declaration, every frame of every run fails with a null reference before the job runs |
| ChunkLoading.FirstFrameLoadsSecondIsQuiet | ChunkLoader.cs:43-47 | On a fresh loader, the first frame loads the chunks around the player. A second frame in the same chunk makes no engine call |

## Left out

- `Mathf.PerlinNoise` is a function parameter (`Noise`), and `Random.Range`'s offset is a parameter of `GenerateHeights`. The generator's noise values are therefore not modelled.
- Floating point is modelled as exact `real` arithmetic: no rounding, and no 32-bit `int` overflow in chunk arithmetic (`chunkSize * (viewDistance + 1)`, `(2v+1)²`, the candidate coordinates).
- `Vector3.Distance` is not computed, because its square root has no exact `real` counterpart. `Execute` compares squared distance with the squared radius, and `ExecuteIsDistanceTest` ties that to the distance itself.
- Unity's `TerrainData` is not modelled:
  - `GetHeights` and then `SetHeights` are taken to hand back the same array;
  - `heightmapResolution` is taken to be exactly `width + 1`, without Unity's own clamping;
  - `size`, `height` and `terrainHeight` only set the world scale and are not modelled.
- `GenerateTerrain` requires `width + 1 ≥ 0`, because a negative array size throws.
- `Update` requires `chunkSize > 0`, and so do the members that divide by the chunk size. Division by a zero chunk size gives infinities in floating point, which the model does not represent.
- The job system is modelled as a sequential loop in index order: the model returns one of the orders the engine may choose. Not modelled:
  - `IJobParallelFor`, `Schedule(index, 64)`, `Complete`;
  - Burst compilation;
  - `NativeArray` disposal;
  - the engine's refusal of `Instantiate` and `Destroy` off the main thread.
- The job struct reads `viewDistance`, a field of the enclosing component that it cannot reach, so the code does not compile. The model passes the component's `viewDistance` to the job.
- `Start`, `Camera.main` and the coroutine's per-frame `yield` are not modelled. The player's position is a parameter of `Update`, and the bootstrap is a plain loop.
- `Instantiate`, `Destroy` and `GameObject.Find` are events in `hostCalls`, not scene changes. The destroy event names no position, because the name lookup identifies no particular chunk.
- Vector3's `!=` compares approximately. The model compares chunk corners exactly, which gives the same answer because distinct corners are at least one unit apart.
- `ChunkLoading.ChunkLoader.Update`: the last chunk seen is an `Option` that starts as none, because the source's never-assigned reference would fail on every frame (see Findings).

## Findings

| source | as written | input that shows it | evidently intended | confidence | as-written member | corrected member |
|---|---|---|---|---|---|---|
| ChunkLoader.cs:13, 43, 46 | `lastPlayerChunk` is a `Transform` reference that nothing assigns. `Update` reads its `position` on every frame | The first frame, at any player position: the read throws a null reference exception, so no chunk is ever loaded after the bootstrap | Remember the last chunk seen, starting with none, and reload when the player's chunk differs from it | not executed; high, since no line assigns the field | ChunkLoading.FramesAsWritten, ChunkLoading.AsWrittenEveryFrameFails | ChunkLoading.ChunkLoader.Update, ChunkLoading.FirstFrameLoadsSecondIsQuiet |
