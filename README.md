# ProceduralTerrain mesh builder, modelled in Dafny

ProceduralTerrain is a Unity component that turns a layered-Perlin-noise height field into a coloured triangle mesh. This project models the two routines at its core and proves what they compute.

- **`Noise.GenerateNoiseMap`** (`noise.dfy`, module `Noise`) fills a `mapWidth x mapDepth` map, indexed `[x, z]`, in three steps:
  - It draws `octaves` offset pairs from a `System.Random` seeded with the seed string's hash. Each coordinate lies in `[-100000, 100000)`.
  - For every cell it sums `persistence^i * PerlinNoise(xCoord * lacunarity^i + offset_i.x, zCoord * lacunarity^i + offset_i.y)` over the octaves. While doing so it keeps a running maximum and minimum, joined by an `if / else if`.
  - It rewrites every cell in place with `InverseLerp(min, max, value)`.
- **`TerrainGenerator.CreateMesh`** (`terrain_generator.dfy`, module `Terrain`, class `TerrainGenerator`) allocates and fills three arrays:
  - a vertex array with one vertex `(x, curve(height) * multiplier, z)` per cell, at index `z*mapWidth + x`;
  - a colour array holding the colour of the terrain rule that `GetTerrain` picks for that height;
  - a triangle-index array with six entries per interior cell. A running `triangleIndex` advances by six per cell.

`GetTerrain` is a first-match search over threshold rules that falls back to the last rule. It is modelled as a pure recursive function that returns an `Option`; `None` stands for the index-out-of-range exception on an empty rule array.

The other modules:
- `grid.dfy` (module `Grid`) holds the row-major numbering `z*width + x` shared by both routines, with its bijection lemmas.
- `collaborators.dfy` (module `Collaborators`) holds the engine and runtime pieces the code calls: `Vector2`, `Vector3`, `Color`, `Mathf.Clamp01`, `Mathf.InverseLerp` and `System.Random`.
  - `PerlinNoise`, `string.GetHashCode`, the generator's raw output stream and `AnimationCurve.Evaluate` enter as function values. They are not interpreted.

How the model represents the source:
- Heights are `real`.
- `float.MinValue` and `float.MaxValue` are the exact values `-FloatMaxValue` and `FloatMaxValue`.
- The exceptions `CreateMesh` can raise become an `ok == false` result. The arrays already assigned when they occur keep the shape the source leaves them in.

The methods are proved against specification functions:
- `Noise.SeedOffsets`, `Noise.OctaveSum`, `Noise.Raw` (through `Noise.XCoord` and `Noise.ZCoord`), `Noise.Track` (through `Noise.Step`) and `Noise.NoiseValue` for the noise map;
- `Grid.Index`, `Terrain.QuadCorners`, `Terrain.TriangleList`, `Terrain.VertexOfCell` and `Terrain.GetTerrain` for the mesh.

Lemmas then prove the promised properties of those functions: bounds, the index bijection, the six-entry quad pattern, index ranges and first-match selection.

## Model

| member | source | states |
|---|---|---|
| Collaborators.InverseLerp | Assets/Scripts/Noise.cs:60 | result in [0, 1]; 0 when min == max; the ends of the range map to 0 and 1; inside the range the result times (b - a) is value - a |
| Collaborators.NextValue | Assets/Scripts/Noise.cs:16 | a draw Next(lo, hi) lies in [lo, hi), or is lo when lo == hi |
| Collaborators.Random.constructor | Assets/Scripts/Noise.cs:11 | a fresh generator for the given seed that has made no draws |
| Collaborators.Random.Next | Assets/Scripts/Noise.cs:16 | consumes exactly one draw and returns the value of that draw number |
| Grid.IndexOfCell | TerrainGenerator.cs:63 | cell (x, z) gets a number in [0, width*depth), and % and / recover x and z from it |
| Grid.CellOfIndex | TerrainGenerator.cs:63 | every number in [0, width*depth) is the number of the cell (k % width, k / width) |
| Grid.IndexInjective | TerrainGenerator.cs:63 | distinct cells get distinct numbers |
| Grid.IndexInRange | TerrainGenerator.cs:51-64 | every cell's number is a valid index of a width*depth array |
| Grid.Index | TerrainGenerator.cs:63 | cell (x, z) of a width-wide grid is numbered z*width + x, the rule shared by the vertex fill and the quad base at TerrainGenerator.cs:77 |
| Noise.SeedOffsets | Assets/Scripts/Noise.cs:5-17 | exactly `octaves` offsets, each coordinate in [-100000, 100000) |
| Noise.DrawSeedOffsets | Assets/Scripts/Noise.cs:11-17 | the offset loop produces SeedOffsets: octave i takes draws 2i and 2i+1 of the seeded generator |
| Noise.Octave | Assets/Scripts/Noise.cs:36 | one octave: PerlinNoise at the cell's coordinates times the frequency, shifted by that octave's offset |
| Noise.OctaveSum | Assets/Scripts/Noise.cs:34-39 | the sum over octaves i < n of persistence^i times the octave sampled at frequency lacunarity^i |
| Noise.SampleCell | Assets/Scripts/Noise.cs:27-39 | after the octave loop the sample is the weighted octave sum, frequency is lacunarity^octaves and amplitude is persistence^octaves |
| Noise.OctaveSumBounds | Assets/Scripts/Noise.cs:34-39 | with PerlinNoise in [0, 1] and persistence >= 0, a raw sample lies in [0, total octave weight] |
| Noise.OctaveTermBound | Assets/Scripts/Noise.cs:36 | one octave's weighted contribution lies between 0 and its amplitude |
| Noise.AmplitudeSumClosedForm | Assets/Scripts/Noise.cs:28-38 | the total octave weight times (1 - persistence) is 1 - persistence^octaves |
| Noise.XCoord | Assets/Scripts/Noise.cs:31 | the sample x coordinate (x + mapOffset.x) / mapWidth * scale |
| Noise.ZCoord | Assets/Scripts/Noise.cs:32 | the sample z coordinate (z + mapOffset.z) / mapDepth * scale |
| Noise.Raw | Assets/Scripts/Noise.cs:27-39 | the raw height of cell (x, z): the octave sum at that cell's coordinates, with the seeded offsets |
| Noise.ScannedBefore | Assets/Scripts/Noise.cs:23-25 | the first pass has visited exactly z*mapWidth + x cells before cell (x, z) |
| Noise.Samples | Assets/Scripts/Noise.cs:23-53 | the first pass visits exactly mapWidth*mapDepth samples |
| Noise.ScannedBeforeIsPrefix | Assets/Scripts/Noise.cs:23-25 | what is visited before a cell is a prefix of the whole scan |
| Noise.SampleOfCell | Assets/Scripts/Noise.cs:23-51 | cell (x, z) is sample number z*mapWidth + x of the scan |
| Noise.Step | Assets/Scripts/Noise.cs:42-49 | one as-written update: the new maximum is the larger of the old maximum and the sample; the minimum can only fall, and to a sample no higher than the old maximum; a sample that raises the maximum leaves the minimum as it was |
| Noise.Track | Assets/Scripts/Noise.cs:20-49 | the extremes after a scan: float.MinValue and float.MaxValue to start, then one as-written Step per sample in scan order |
| Noise.TrackMaxBound | Assets/Scripts/Noise.cs:20-45 | maxHeight ends at or above every sample, and is float.MinValue or one of the samples |
| Noise.TrackMinBound | Assets/Scripts/Noise.cs:21-49 | minHeight ends at or below every sample that did not raise the maximum when visited, and at most float.MaxValue |
| Noise.FirstSampleNeverLowersMin | Assets/Scripts/Noise.cs:42-49 | the first sample never sets minHeight: it stays float.MaxValue or comes from a later sample |
| Noise.IncreasingScanTrack | Assets/Scripts/Noise.cs:42-49 | on a strictly rising scan the extremes end as (last sample, float.MaxValue) |
| Noise.IncreasingScanNormalisesToOne | Assets/Scripts/Noise.cs:42-62 | as written, a strictly rising scan normalises every cell to 1 |
| Noise.RepeatedMaximumCollapsesToZero | Assets/Scripts/Noise.cs:42-62 | as written, the scan 0, 1, 1 ends with both extremes at 1, so every cell normalises to 0 |
| Noise.StepCorrected | Assets/Scripts/Noise.cs:42-49 | the corrected update: the new maximum is the larger and the new minimum the smaller of the old extreme and the sample |
| Noise.TrackCorrected | Assets/Scripts/Noise.cs:20-49 | the extremes after a scan with the corrected update, from the same starting values |
| Noise.TrackCorrectedIsExact | Assets/Scripts/Noise.cs:42-49 | with both comparisons made, the extremes are exactly the least and greatest sample |
| Noise.CorrectedNormalisationSpansUnitInterval | Assets/Scripts/Noise.cs:42-62 | with both comparisons made, some cell normalises to 0, and to 1 unless all samples are equal |
| Noise.FirstPassExtremes | Assets/Scripts/Noise.cs:20-51 | after the first pass maxHeight >= every raw cell, and minHeight <= every raw cell that did not set a new maximum |
| Noise.NoiseValue | Assets/Scripts/Noise.cs:55-60 | every normalised height lies in [0, 1] |
| Noise.SampleAt | Assets/Scripts/Noise.cs:27-39 | the cell's sample coordinates and octave loop yield the raw height of that cell |
| Noise.TrackAfterCell | Assets/Scripts/Noise.cs:42-49 | visiting one more cell advances the extremes by one as-written update step |
| Noise.VisitCell | Assets/Scripts/Noise.cs:27-51 | stores the cell's raw sample, updates the extremes by the `else if` step, and leaves other cells alone |
| Noise.ScanRow | Assets/Scripts/Noise.cs:25-52 | one row stores its raw samples and carries the extremes from the scan before the row to the scan after it |
| Noise.FirstPass | Assets/Scripts/Noise.cs:20-53 | every cell holds its raw sample and the extremes are those of the whole scan in z-then-x order |
| Noise.NormalisePass | Assets/Scripts/Noise.cs:56-62 | every cell is rewritten exactly once to InverseLerp(min, max, its old value) |
| Noise.GenerateNoiseMap | Assets/Scripts/Noise.cs:7-65 | the map is mapWidth x mapDepth, cell [x, z] is its normalised noise value, and every value lies in [0, 1] |
| Terrain.GetTerrainFrom | TerrainGenerator.cs:100-107 | the search from a position on returns None only for an empty rule array, and otherwise the rule selected for the height |
| Terrain.GetTerrain | TerrainGenerator.cs:98-108 | None exactly when there is no rule; otherwise the first rule whose threshold is strictly above the height, or the last rule |
| Terrain.SelectedUnique | TerrainGenerator.cs:100-107 | at most one rule is selected for a height |
| Terrain.GetTerrainBands | TerrainGenerator.cs:100-105 | with increasing thresholds, a height in [threshold i-1, threshold i) gets rule i |
| Terrain.GetTerrainFallback | TerrainGenerator.cs:107 | a height at or above every threshold gets the last rule |
| Terrain.QuadCorners | TerrainGenerator.cs:79-82 | the six entries v, v+width, v+1, v+1, v+width, v+width+1 that one cell writes, for base vertex v |
| Terrain.RowQuads | TerrainGenerator.cs:75-84 | a row of n cells contributes 6n triangle entries |
| Terrain.GridQuadsLength | TerrainGenerator.cs:73-84 | `rows` rows of interior cells contribute (width-1)*rows*6 entries |
| Terrain.TriangleList | TerrainGenerator.cs:52 | the triangle array has (mapWidth-1)*(mapDepth-1)*6 entries |
| Terrain.RowQuadsCell | TerrainGenerator.cs:75-84 | within a row, cell x owns entries 6x .. 6x+5, which hold its quad |
| Terrain.GridQuadsRow | TerrainGenerator.cs:73-84 | row z's entries follow those of the rows before it |
| Terrain.TriangleListCell | TerrainGenerator.cs:72-84 | interior cell (x, z) owns entries 6*(z*(mapWidth-1)+x) .. +5, holding its quad |
| Terrain.QuadCornersOfCell | TerrainGenerator.cs:77-82 | the six entries are the corners (x,z), (x,z+1), (x+1,z), (x+1,z), (x,z+1), (x+1,z+1): two triangles sharing a diagonal |
| Terrain.QuadInRange | TerrainGenerator.cs:73-82 | every corner of an interior cell is a vertex of the grid |
| Terrain.TriangleSlotOwner | TerrainGenerator.cs:72-86 | entry k of the triangle array is written by interior cell ((k/6) % (mapWidth-1), (k/6) / (mapWidth-1)) at slot k % 6, and by no other interior cell |
| Terrain.TriangleListEntry | TerrainGenerator.cs:72-86 | the triangle array agrees everywhere with a direct formula in k / 6 and k % 6 |
| Terrain.TriangleEntryInRange | TerrainGenerator.cs:73-82 | one triangle entry is in [0, mapWidth*mapDepth) |
| Terrain.TriangleListInRange | TerrainGenerator.cs:73-82 | every triangle entry names a vertex: it is in [0, mapWidth*mapDepth) |
| Terrain.VertexOfCell | TerrainGenerator.cs:64 | the vertex of cell (x, z): x, the curved height times the multiplier, and z |
| Terrain.FillVertices | TerrainGenerator.cs:58-69 | every cell's vertex and terrain colour land at index z*mapWidth + x; with no rule and at least one cell it stops after writing the first vertex |
| Terrain.FillFromNoise | TerrainGenerator.cs:55-69 | the vertex loop over the noise map gives every cell the vertex and colour of its noise value |
| Terrain.FillTriangles | TerrainGenerator.cs:72-86 | the triangle loop fills the whole array with TriangleList; its invariant keeps triangleIndex at 6*(z*(mapWidth-1)+x) before cell (x, z), so the loop ends at the array length |
| Terrain.WriteQuad | TerrainGenerator.cs:77-84 | the six writes of one cell put its quad at triangleIndex .. +5 and touch nothing else |
| Terrain.TriangleCellWrites | TerrainGenerator.cs:77-82 | the values the six writes store are the TriangleList entries at those positions |
| Terrain.TerrainGenerator.constructor | TerrainGenerator.cs:8-22 | the settings hold the given values and the mesh arrays are empty |
| Terrain.TerrainGenerator.CreateMesh | TerrainGenerator.cs:49-87 | three fresh arrays of lengths mapWidth*mapDepth, (mapWidth-1)*(mapDepth-1)*6 and mapWidth*mapDepth; each vertex and colour comes from its cell's noise value; triangle entries are TriangleList and name vertices; ok is false exactly when the source throws |

## Left out

- `Awake`, `Start`, `Update` and the `debugMode` rebuild (TerrainGenerator.cs:27-47) are engine lifecycle plumbing.
- `UpdateMesh` (TerrainGenerator.cs:89-96) uploads to a `Mesh` and calls `RecalculateNormals`. Both are engine calls.
- The internals of `Mathf.PerlinNoise`, `string.GetHashCode`, `System.Random` and `AnimationCurve.Evaluate` are library code. They are function values.
- Collaborators.NextValue: only the range of `Random.Next` is stated. The generator's recurrence and its exact reduction to the range are not modelled.
- Heights, coordinates and colours use exact `real` arithmetic. IEEE single-precision rounding, NaN and infinities are not modelled.
- Terrain.TerrainGenerator.CreateMesh: 32-bit overflow of `mapWidth * mapDepth` and `(mapWidth - 1) * (mapDepth - 1) * 6` is not modelled, because the products are unbounded integers here.
- Terrain.TerrainGenerator.CreateMesh: requires non-negative `mapWidth`, `mapDepth` and `octaves`. For negative values the source throws from a negative array size, and that exception is not modelled.
- Noise.GenerateNoiseMap: requires non-negative `mapWidth`, `mapDepth` and `octaves`. For negative values the source throws from a negative array size.
- Terrain.TerrainGenerator.CreateMesh: when it returns `ok == false` it states only the shapes of the arrays. It does not state the partly written first vertex, which `Terrain.FillVertices` does state.
- Null references (a null seed, rule array or height curve) cannot occur in the model.
- `Color`, `Vector3` and `Material` are plain value records. The mesh code only copies colours, and the material is set by engine code.
- Serialization attributes and inspector defaults (`mapWidth = 150` and the rest) are not modelled. The constructor takes every setting as a parameter.

## Findings

| source | as written | input that shows it | evidently intended | confidence | as-written member | corrected member |
|---|---|---|---|---|---|---|
| Assets/Scripts/Noise.cs:42-49 | the running minimum is only updated in the `else if` branch, so a sample that raises the maximum is never compared with the minimum; the first sample always raises it | a 2 x 1 map whose raw samples are 0.2 at (0, 0) and then 0.7 at (1, 0): maxHeight ends at 0.7, minHeight stays float.MaxValue, and InverseLerp(float.MaxValue, 0.7, v) sends both cells to 1.0; likewise raw samples 0, 1, 1 end with minHeight == maxHeight == 1 and every cell normalises to 0 | minHeight is the smallest raw sample, so the map spans [0, 1] (the smallest cell normalises to 0, the largest to 1) | not executed; high | Noise.IncreasingScanNormalisesToOne | Noise.CorrectedNormalisationSpansUnitInterval |

`Noise.RepeatedMaximumCollapsesToZero` proves the second input's outcome. `Noise.Track` and `Noise.GenerateNoiseMap` keep the bookkeeping as written, so the map is modelled as the program produces it. The corrected bookkeeping is `Noise.TrackCorrected`. It compares every sample with both extremes, and `Noise.TrackCorrectedIsExact` proves it finds the exact least and greatest sample. `Noise.NormalisePass` takes the extremes as parameters, so it performs the corrected normalisation when given `TrackCorrected`'s values. The mesh properties of `Terrain` hold for any height map and do not depend on which bookkeeping is used.
