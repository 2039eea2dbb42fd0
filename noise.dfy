/** Noise.GenerateNoiseMap: a mapWidth x mapDepth height field built from
    `octaves` layers of Perlin noise, each layer shifted by a seeded random
    offset, then rescaled between the smallest and largest raw values seen. */
module Noise {
  import opened Collaborators
  import Grid

  /** Bound of the random octave offsets: each coordinate is drawn from [-OffsetValue, OffsetValue). */
  const OffsetValue: int := 100000

  /** Everything GenerateNoiseMap's result depends on. */
  datatype NoiseInputs = NoiseInputs(
    mapWidth: nat,
    mapDepth: nat,
    mapOffset: Vector3,
    seed: string,
    scale: real,
    octaves: nat,
    lacunarity: real,
    persistence: real,
    lib: Library)

  predicate InOffsetRange(v: real)
  {
    -OffsetValue as real <= v < OffsetValue as real
  }

  /** The octave offsets: octave i takes the generator's draws 2i (x) and 2i+1 (y)
      of a System.Random seeded with the hash of `seed`. */
  function SeedOffsets(seed: string, octaves: nat, lib: Library): (offsets: seq<Vector2>)
    ensures |offsets| == octaves
    ensures forall i :: 0 <= i < |offsets| ==> InOffsetRange(offsets[i].x) && InOffsetRange(offsets[i].y)
  {
    var hash := lib.stringHash(seed);
    seq(octaves, i requires 0 <= i =>
      Vector2(NextValue(hash, lib.randomStream, 2 * i, -OffsetValue, OffsetValue) as real,
              NextValue(hash, lib.randomStream, 2 * i + 1, -OffsetValue, OffsetValue) as real))
  }

  function Pow(b: real, n: nat): real
  {
    if n == 0 then 1.0 else Pow(b, n - 1) * b
  }

  /** One octave: PerlinNoise sampled at the cell's coordinates scaled by
      `frequency` and shifted by the octave's offset. */
  function Octave(perlin: (real, real) -> real, xCoord: real, zCoord: real, offset: Vector2, frequency: real): real
  {
    perlin(xCoord * frequency + offset.x, zCoord * frequency + offset.y)
  }

  /** Sum over octaves i < n of persistence^i * Octave(..., offsets[i], lacunarity^i). */
  function OctaveSum(perlin: (real, real) -> real, xCoord: real, zCoord: real, offsets: seq<Vector2>,
                     lacunarity: real, persistence: real, n: nat): real
    requires n <= |offsets|
  {
    if n == 0 then 0.0
    else OctaveSum(perlin, xCoord, zCoord, offsets, lacunarity, persistence, n - 1)
         + WeightedOctave(perlin, xCoord, zCoord, offsets[n - 1], lacunarity, persistence, n - 1)
  }

  function WeightedOctave(perlin: (real, real) -> real, xCoord: real, zCoord: real, offset: Vector2,
                          lacunarity: real, persistence: real, i: nat): real
  {
    Pow(persistence, i) * Octave(perlin, xCoord, zCoord, offset, Pow(lacunarity, i))
  }

  /** Sum over i < n of persistence^i: the total weight of n octaves. */
  function AmplitudeSum(persistence: real, n: nat): real
  {
    if n == 0 then 0.0 else AmplitudeSum(persistence, n - 1) + Pow(persistence, n - 1)
  }

  lemma {:induction false} PowNonNegative(b: real, n: nat)
    requires 0.0 <= b
    ensures 0.0 <= Pow(b, n)
  {
    if n > 0 {
      PowNonNegative(b, n - 1);
    }
  }

  /** When PerlinNoise stays in [0, 1] and persistence is not negative, a raw
      sample lies between 0 and the total octave weight. */
  lemma {:induction false} OctaveSumBounds(perlin: (real, real) -> real, xCoord: real, zCoord: real,
                                           offsets: seq<Vector2>, lacunarity: real, persistence: real, n: nat)
    requires n <= |offsets|
    requires forall a, b :: 0.0 <= perlin(a, b) <= 1.0
    requires 0.0 <= persistence
    ensures 0.0 <= OctaveSum(perlin, xCoord, zCoord, offsets, lacunarity, persistence, n)
                <= AmplitudeSum(persistence, n)
  {
    if n > 0 {
      OctaveSumBounds(perlin, xCoord, zCoord, offsets, lacunarity, persistence, n - 1);
      OctaveSumUnfold(perlin, xCoord, zCoord, offsets, lacunarity, persistence, n);
      OctaveTermBound(perlin, xCoord, zCoord, offsets[n - 1], lacunarity, persistence, n - 1);
    }
  }

  /** The weighted contribution of octave i lies between 0 and its weight persistence^i. */
  lemma OctaveTermBound(perlin: (real, real) -> real, xCoord: real, zCoord: real, offset: Vector2,
                        lacunarity: real, persistence: real, i: nat)
    requires forall a, b :: 0.0 <= perlin(a, b) <= 1.0
    requires 0.0 <= persistence
    ensures 0.0 <= WeightedOctave(perlin, xCoord, zCoord, offset, lacunarity, persistence, i)
                <= Pow(persistence, i)
  {
    PowNonNegative(persistence, i);
    var w := Pow(persistence, i);
    var p := Octave(perlin, xCoord, zCoord, offset, Pow(lacunarity, i));
    assert 0.0 <= p <= 1.0;
    assert w - w * p == w * (1.0 - p);
  }

  lemma OctaveSumUnfold(perlin: (real, real) -> real, xCoord: real, zCoord: real,
                        offsets: seq<Vector2>, lacunarity: real, persistence: real, n: nat)
    requires 0 < n <= |offsets|
    ensures OctaveSum(perlin, xCoord, zCoord, offsets, lacunarity, persistence, n)
         == OctaveSum(perlin, xCoord, zCoord, offsets, lacunarity, persistence, n - 1)
            + WeightedOctave(perlin, xCoord, zCoord, offsets[n - 1], lacunarity, persistence, n - 1)
    ensures AmplitudeSum(persistence, n) == AmplitudeSum(persistence, n - 1) + Pow(persistence, n - 1)
  {
  }

  /** The total octave weight in closed form: (1 - persistence^n) / (1 - persistence). */
  lemma {:induction false} AmplitudeSumClosedForm(persistence: real, n: nat)
    ensures AmplitudeSum(persistence, n) * (1.0 - persistence) == 1.0 - Pow(persistence, n)
  {
    if n > 0 {
      AmplitudeSumClosedForm(persistence, n - 1);
      var p := Pow(persistence, n - 1);
      calc {
        AmplitudeSum(persistence, n) * (1.0 - persistence);
        (AmplitudeSum(persistence, n - 1) + p) * (1.0 - persistence);
        AmplitudeSum(persistence, n - 1) * (1.0 - persistence) + p * (1.0 - persistence);
        1.0 - p + p * (1.0 - persistence);
        1.0 - p * persistence;
      }
    }
  }

  /** The octave loop for one cell: accumulates the weighted samples while
      frequency and amplitude grow by lacunarity and persistence per octave. */
  method SampleCell(perlin: (real, real) -> real, xCoord: real, zCoord: real, seedOffsets: array<Vector2>,
                    octaves: nat, lacunarity: real, persistence: real)
    returns (noiseSample: real, frequency: real, amplitude: real)
    requires octaves <= seedOffsets.Length
    ensures noiseSample == OctaveSum(perlin, xCoord, zCoord, seedOffsets[..], lacunarity, persistence, octaves)
    ensures frequency == Pow(lacunarity, octaves) && amplitude == Pow(persistence, octaves)
  {
    frequency := 1.0;
    amplitude := 1.0;
    noiseSample := 0.0;
    for i := 0 to octaves
      invariant frequency == Pow(lacunarity, i) && amplitude == Pow(persistence, i)
      invariant noiseSample == OctaveSum(perlin, xCoord, zCoord, seedOffsets[..], lacunarity, persistence, i)
    {
      assert seedOffsets[..][i] == seedOffsets[i];
      var octave := Octave(perlin, xCoord, zCoord, seedOffsets[i], frequency);
      noiseSample := noiseSample + amplitude * octave;
      frequency := frequency * lacunarity;
      amplitude := amplitude * persistence;
    }
  }

  /** Sample coordinates of column x and row z: offset, divided by the map size, times scale. */
  function XCoord(inp: NoiseInputs, x: int): real
    requires inp.mapWidth > 0
  {
    (x as real + inp.mapOffset.x) / inp.mapWidth as real * inp.scale
  }

  function ZCoord(inp: NoiseInputs, z: int): real
    requires inp.mapDepth > 0
  {
    (z as real + inp.mapOffset.z) / inp.mapDepth as real * inp.scale
  }

  /** The raw (unnormalised) height of cell (x, z). */
  function Raw(inp: NoiseInputs, x: int, z: int): real
    requires 0 <= x < inp.mapWidth && 0 <= z < inp.mapDepth
  {
    OctaveSum(inp.lib.perlinNoise, XCoord(inp, x), ZCoord(inp, z), SeedOffsets(inp.seed, inp.octaves, inp.lib),
              inp.lacunarity, inp.persistence, inp.octaves)
  }

  /** The raw samples the first pass visits before cell (x, z): rows z' < z
      in full, then the cells x' < x of row z. */
  function ScannedBefore(inp: NoiseInputs, x: nat, z: nat): (s: seq<real>)
    requires x <= inp.mapWidth && z <= inp.mapDepth && (z == inp.mapDepth ==> x == 0)
    ensures |s| == Grid.Index(inp.mapWidth, x, z)
    decreases z, x
  {
    if x == 0 then
      if z == 0 then []
      else
        Grid.RowEnd(inp.mapWidth, z - 1);
        ScannedBefore(inp, inp.mapWidth, z - 1)
    else ScannedBefore(inp, x - 1, z) + [Raw(inp, x - 1, z)]
  }

  /** All raw heights, in the order the first pass visits them (z outer, x inner). */
  function Samples(inp: NoiseInputs): (s: seq<real>)
    ensures |s| == inp.mapWidth * inp.mapDepth
  {
    ScannedBefore(inp, 0, inp.mapDepth)
  }

  /** What is visited before a cell is a prefix of the whole scan. */
  lemma {:induction false} ScannedBeforeIsPrefix(inp: NoiseInputs, x: nat, z: nat)
    requires x <= inp.mapWidth && z <= inp.mapDepth && (z == inp.mapDepth ==> x == 0)
    ensures ScannedBefore(inp, x, z) <= Samples(inp)
    decreases inp.mapDepth - z, inp.mapWidth - x
  {
    if z == inp.mapDepth {
    } else if x < inp.mapWidth {
      ScannedBeforeIsPrefix(inp, x + 1, z);
    } else {
      ScannedBeforeIsPrefix(inp, 0, z + 1);
    }
  }

  /** Cell (x, z) is visited as sample number z*mapWidth + x. */
  lemma SampleOfCell(inp: NoiseInputs, x: int, z: int)
    requires 0 <= x < inp.mapWidth && 0 <= z < inp.mapDepth
    ensures 0 <= Grid.Index(inp.mapWidth, x, z) < |Samples(inp)|
    ensures Samples(inp)[Grid.Index(inp.mapWidth, x, z)] == Raw(inp, x, z)
    ensures Samples(inp)[..Grid.Index(inp.mapWidth, x, z)] == ScannedBefore(inp, x, z)
  {
    ScannedBeforeIsPrefix(inp, x + 1, z);
    var k := Grid.Index(inp.mapWidth, x, z);
    assert ScannedBefore(inp, x + 1, z)[k] == Raw(inp, x, z);
  }

  /** Running largest and smallest raw height. */
  datatype Extremes = Extremes(maxHeight: real, minHeight: real)

  /** The starting values float.MinValue and float.MaxValue. */
  const Unset: Extremes := Extremes(-FloatMaxValue, FloatMaxValue)

  /** One update of the first pass as written: a sample that raises the
      maximum is never considered for the minimum (`else if`). */
  function Step(e: Extremes, sample: real): (r: Extremes)
    ensures e.maxHeight <= r.maxHeight && sample <= r.maxHeight
    ensures r.maxHeight == e.maxHeight || r.maxHeight == sample
    ensures r.minHeight <= e.minHeight && (sample <= e.maxHeight ==> r.minHeight <= sample)
    ensures r.minHeight == e.minHeight || r.minHeight == sample
    ensures sample > e.maxHeight ==> r.minHeight == e.minHeight
  {
    if sample > e.maxHeight then e.(maxHeight := sample)
    else if sample < e.minHeight then e.(minHeight := sample)
    else e
  }

  /** The extremes after a scan over `samples`, as the first pass computes them. */
  function Track(samples: seq<real>): Extremes
  {
    if |samples| == 0 then Unset
    else Step(Track(samples[..|samples| - 1]), samples[|samples| - 1])
  }

  /** maxHeight ends at or above every sample, and is either its start value
      float.MinValue or one of the samples. */
  lemma {:induction false} TrackMaxBound(s: seq<real>)
    ensures forall k :: 0 <= k < |s| ==> s[k] <= Track(s).maxHeight
    ensures -FloatMaxValue <= Track(s).maxHeight
    ensures Track(s).maxHeight == -FloatMaxValue || exists k :: 0 <= k < |s| && Track(s).maxHeight == s[k]
  {
    if |s| > 0 {
      var p := s[..|s| - 1];
      TrackMaxBound(p);
      assert forall k :: 0 <= k < |p| ==> p[k] == s[k];
      if Track(s).maxHeight != Track(p).maxHeight {
        assert Track(s).maxHeight == s[|s| - 1];
      }
    }
  }

  /** minHeight ends at or below every sample that did not raise the maximum
      when it was visited, and never above its start value float.MaxValue. */
  lemma {:induction false} TrackMinBound(s: seq<real>)
    ensures forall k :: 0 <= k < |s| && s[k] <= Track(s[..k]).maxHeight ==> Track(s).minHeight <= s[k]
    ensures Track(s).minHeight <= FloatMaxValue
  {
    if |s| > 0 {
      var p := s[..|s| - 1];
      TrackMinBound(p);
      forall k | 0 <= k < |s| && s[k] <= Track(s[..k]).maxHeight
        ensures Track(s).minHeight <= s[k]
      {
        if k < |p| {
          assert s[..k] == p[..k];
        } else {
          assert s[..k] == p;
        }
      }
    }
  }

  /** The first sample always raises the maximum, so the `else if` never lets
      it lower the minimum: minHeight is still float.MaxValue or comes from a later sample. */
  lemma {:induction false} FirstSampleNeverLowersMin(s: seq<real>)
    requires |s| > 0 && -FloatMaxValue < s[0]
    ensures Track(s).minHeight == FloatMaxValue || exists k :: 1 <= k < |s| && Track(s).minHeight == s[k]
  {
    if |s| > 1 {
      var p := s[..|s| - 1];
      FirstSampleNeverLowersMin(p);
      assert forall k :: 0 <= k < |p| ==> p[k] == s[k];
      if Track(s).minHeight != Track(p).minHeight {
        assert Track(s).minHeight == s[|s| - 1];
      }
    } else {
      assert s[..0] == [];
    }
  }

  /** On a scan that keeps rising, every sample raises the maximum, so the
      minimum is never set. */
  lemma {:induction false} IncreasingScanTrack(s: seq<real>)
    requires |s| > 0 && -FloatMaxValue < s[0]
    requires forall k :: 0 < k < |s| ==> s[k - 1] < s[k]
    ensures Track(s) == Extremes(s[|s| - 1], FloatMaxValue)
  {
    if |s| > 1 {
      var p := s[..|s| - 1];
      assert forall k :: 0 <= k < |p| ==> p[k] == s[k];
      IncreasingScanTrack(p);
    } else {
      assert s[..0] == [];
    }
  }

  /** As written, a scan whose raw samples keep rising leaves minHeight at
      float.MaxValue, and the normalisation then sends EVERY cell to 1, the
      smallest sample included, instead of spreading them over [0, 1]. */
  lemma IncreasingScanNormalisesToOne(s: seq<real>)
    requires |s| > 0 && -FloatMaxValue < s[0] && s[|s| - 1] < FloatMaxValue
    requires forall k :: 0 < k < |s| ==> s[k - 1] < s[k]
    ensures Track(s).minHeight == FloatMaxValue
    ensures forall k :: 0 <= k < |s| ==> InverseLerp(Track(s).minHeight, Track(s).maxHeight, s[k]) == 1.0
  {
    IncreasingScanTrack(s);
    TrackMaxBound(s);
    var top := s[|s| - 1];
    forall k | 0 <= k < |s|
      ensures InverseLerp(FloatMaxValue, top, s[k]) == 1.0
    {
      RatioAtLeastOne(s[k] - FloatMaxValue, top - FloatMaxValue);
    }
  }

  /** As written, a maximum that is reached again later is taken as the
      minimum: the scan 0, 1, 1 ends with both extremes at 1, and the
      normalisation then sends every cell, 0 included, to 0. */
  lemma RepeatedMaximumCollapsesToZero()
    ensures Track([0.0, 1.0, 1.0]) == Extremes(1.0, 1.0)
    ensures forall v :: InverseLerp(Track([0.0, 1.0, 1.0]).minHeight, Track([0.0, 1.0, 1.0]).maxHeight, v) == 0.0
  {
    var s := [0.0, 1.0, 1.0];
    assert s[..2] == [0.0, 1.0] && s[..2][..1] == [0.0] && s[..2][..1][..0] == [];
    assert Track([0.0]) == Extremes(0.0, FloatMaxValue);
    assert Track([0.0, 1.0]) == Extremes(1.0, FloatMaxValue);
  }

  lemma RatioAtLeastOne(n: real, d: real)
    requires d < 0.0 && n <= d
    ensures n / d >= 1.0
  {
    var q := n / d;
    assert q * d == n;
  }

  /** One update of the textbook bookkeeping: each sample is compared with
      both extremes. */
  function StepCorrected(e: Extremes, sample: real): (r: Extremes)
    ensures e.maxHeight <= r.maxHeight && sample <= r.maxHeight
    ensures r.maxHeight == e.maxHeight || r.maxHeight == sample
    ensures r.minHeight <= e.minHeight && r.minHeight <= sample
    ensures r.minHeight == e.minHeight || r.minHeight == sample
  {
    Extremes(if sample > e.maxHeight then sample else e.maxHeight,
             if sample < e.minHeight then sample else e.minHeight)
  }

  function TrackCorrected(samples: seq<real>): Extremes
  {
    if |samples| == 0 then Unset
    else StepCorrected(TrackCorrected(samples[..|samples| - 1]), samples[|samples| - 1])
  }

  /** With both comparisons made, the tracked extremes are exactly the
      smallest and the largest sample. */
  lemma {:induction false} TrackCorrectedIsExact(s: seq<real>)
    requires forall k :: 0 <= k < |s| ==> -FloatMaxValue < s[k] < FloatMaxValue
    ensures forall k :: 0 <= k < |s| ==> TrackCorrected(s).minHeight <= s[k] <= TrackCorrected(s).maxHeight
    ensures |s| > 0 ==> exists k :: 0 <= k < |s| && TrackCorrected(s).minHeight == s[k]
    ensures |s| > 0 ==> exists k :: 0 <= k < |s| && TrackCorrected(s).maxHeight == s[k]
  {
    if |s| > 0 {
      var p := s[..|s| - 1];
      assert forall k :: 0 <= k < |p| ==> p[k] == s[k];
      TrackCorrectedIsExact(p);
      var last := |s| - 1;
      if TrackCorrected(s).minHeight != TrackCorrected(p).minHeight {
        assert TrackCorrected(s).minHeight == s[last];
      }
      if TrackCorrected(s).maxHeight != TrackCorrected(p).maxHeight {
        assert TrackCorrected(s).maxHeight == s[last];
      }
    }
  }

  /** With the corrected bookkeeping, normalisation maps the smallest sample
      to 0 and, unless all samples are equal, the largest to 1. */
  lemma CorrectedNormalisationSpansUnitInterval(s: seq<real>)
    requires |s| > 0
    requires forall k :: 0 <= k < |s| ==> -FloatMaxValue < s[k] < FloatMaxValue
    ensures exists k :: (0 <= k < |s| &&
      InverseLerp(TrackCorrected(s).minHeight, TrackCorrected(s).maxHeight, s[k]) == 0.0)
    ensures (exists i, j :: 0 <= i < |s| && 0 <= j < |s| && s[i] != s[j]) ==>
      exists k :: (0 <= k < |s| &&
        InverseLerp(TrackCorrected(s).minHeight, TrackCorrected(s).maxHeight, s[k]) == 1.0)
  {
    TrackCorrectedIsExact(s);
  }

  /** The first pass over a grid: maxHeight is at or above every raw cell
      value, and minHeight is at or below every cell that did not set a new
      maximum when it was visited. */
  lemma FirstPassExtremes(inp: NoiseInputs, x: int, z: int)
    requires 0 <= x < inp.mapWidth && 0 <= z < inp.mapDepth
    ensures Raw(inp, x, z) <= Track(Samples(inp)).maxHeight
    ensures Raw(inp, x, z) <= Track(ScannedBefore(inp, x, z)).maxHeight ==>
      Track(Samples(inp)).minHeight <= Raw(inp, x, z)
  {
    var s := Samples(inp);
    var k := Grid.Index(inp.mapWidth, x, z);
    SampleOfCell(inp, x, z);
    TrackMaxBound(s);
    TrackMinBound(s);
    if s[k] <= Track(s[..k]).maxHeight {
      assert Track(s).minHeight <= s[k];
    }
  }

  /** The normalised height of cell (x, z) in the returned map. */
  function NoiseValue(inp: NoiseInputs, x: int, z: int): (h: real)
    requires 0 <= x < inp.mapWidth && 0 <= z < inp.mapDepth
    ensures 0.0 <= h <= 1.0
  {
    var e := Track(Samples(inp));
    InverseLerp(e.minHeight, e.maxHeight, Raw(inp, x, z))
  }

  /** The offset loop: `octaves` pairs drawn from a generator seeded with the seed's hash. */
  method DrawSeedOffsets(seed: string, octaves: nat, lib: Library) returns (seedOffsets: array<Vector2>)
    ensures seedOffsets[..] == SeedOffsets(seed, octaves, lib)
  {
    var randomSeed := new Random(lib.stringHash(seed), lib.randomStream);
    seedOffsets := new Vector2[octaves];
    for i := 0 to octaves
      modifies randomSeed, seedOffsets
      invariant randomSeed.draws == 2 * i
      invariant forall j :: 0 <= j < i ==> seedOffsets[j] == SeedOffsets(seed, octaves, lib)[j]
    {
      var ox := randomSeed.Next(-OffsetValue, OffsetValue);
      var oy := randomSeed.Next(-OffsetValue, OffsetValue);
      seedOffsets[i] := Vector2(ox as real, oy as real);
    }
  }

  /** The body of the first pass for cell (x, z): sample coordinates, then the octave loop. */
  method SampleAt(inp: NoiseInputs, seedOffsets: array<Vector2>, x: nat, z: nat) returns (noiseSample: real)
    requires x < inp.mapWidth && z < inp.mapDepth
    requires seedOffsets[..] == SeedOffsets(inp.seed, inp.octaves, inp.lib)
    ensures noiseSample == Raw(inp, x, z)
  {
    var xCoord := XCoord(inp, x);
    var zCoord := ZCoord(inp, z);
    var frequency, amplitude;
    noiseSample, frequency, amplitude := SampleCell(inp.lib.perlinNoise, xCoord, zCoord, seedOffsets,
                                                    inp.octaves, inp.lacunarity, inp.persistence);
  }

  /** One visit of the first pass: the scan's tracked extremes after cell
      (x, z) follow from those before it by one Step on its raw sample. */
  lemma TrackAfterCell(inp: NoiseInputs, x: nat, z: nat)
    requires x < inp.mapWidth && z < inp.mapDepth
    ensures Track(ScannedBefore(inp, x + 1, z)) == Step(Track(ScannedBefore(inp, x, z)), Raw(inp, x, z))
  {
    var before := ScannedBefore(inp, x, z);
    assert (before + [Raw(inp, x, z)])[..|before|] == before;
  }

  /** The first pass at cell (x, z): the raw sample is stored in the map and
      folded into the extremes, a new maximum taking precedence (`else if`). */
  method VisitCell(noiseMap: array2<real>, inp: NoiseInputs, seedOffsets: array<Vector2>, x: nat, z: nat,
                   maxIn: real, minIn: real)
    returns (maxHeight: real, minHeight: real)
    requires noiseMap.Length0 == inp.mapWidth && noiseMap.Length1 == inp.mapDepth
    requires x < inp.mapWidth && z < inp.mapDepth
    requires seedOffsets[..] == SeedOffsets(inp.seed, inp.octaves, inp.lib)
    modifies noiseMap
    ensures Extremes(maxHeight, minHeight) == Step(Extremes(maxIn, minIn), Raw(inp, x, z))
    ensures noiseMap[x, z] == Raw(inp, x, z)
    ensures forall x', z' :: 0 <= x' < inp.mapWidth && 0 <= z' < inp.mapDepth && (x' != x || z' != z) ==>
      noiseMap[x', z'] == old(noiseMap[x', z'])
  {
    var noiseSample := SampleAt(inp, seedOffsets, x, z);
    maxHeight, minHeight := maxIn, minIn;
    if noiseSample > maxHeight {
      maxHeight := noiseSample;
    } else if noiseSample < minHeight {
      minHeight := noiseSample;
    }
    noiseMap[x, z] := noiseSample;
  }

  /** One row (fixed z) of the first pass, in increasing x. */
  method ScanRow(noiseMap: array2<real>, inp: NoiseInputs, seedOffsets: array<Vector2>, z: nat,
                 maxIn: real, minIn: real)
    returns (maxHeight: real, minHeight: real)
    requires noiseMap.Length0 == inp.mapWidth && noiseMap.Length1 == inp.mapDepth && z < inp.mapDepth
    requires seedOffsets[..] == SeedOffsets(inp.seed, inp.octaves, inp.lib)
    requires Extremes(maxIn, minIn) == Track(ScannedBefore(inp, 0, z))
    modifies noiseMap
    ensures Extremes(maxHeight, minHeight) == Track(ScannedBefore(inp, 0, z + 1))
    ensures forall x' :: 0 <= x' < inp.mapWidth ==> noiseMap[x', z] == Raw(inp, x', z)
    ensures forall x', z' :: 0 <= x' < inp.mapWidth && 0 <= z' < inp.mapDepth && z' != z ==>
      noiseMap[x', z'] == old(noiseMap[x', z'])
  {
    maxHeight, minHeight := maxIn, minIn;
    for x := 0 to inp.mapWidth
      invariant Extremes(maxHeight, minHeight) == Track(ScannedBefore(inp, x, z))
      invariant forall x' :: 0 <= x' < x ==> noiseMap[x', z] == Raw(inp, x', z)
      invariant forall x', z' :: 0 <= x' < inp.mapWidth && 0 <= z' < inp.mapDepth && z' != z ==>
        noiseMap[x', z'] == old(noiseMap[x', z'])
    {
      TrackAfterCell(inp, x, z);
      maxHeight, minHeight := VisitCell(noiseMap, inp, seedOffsets, x, z, maxHeight, minHeight);
    }
    Grid.RowEnd(inp.mapWidth, z);
  }

  /** The first pass: stores every raw sample in the map and tracks the extremes
      in scan order (z outer, x inner). */
  method FirstPass(noiseMap: array2<real>, inp: NoiseInputs, seedOffsets: array<Vector2>)
    returns (maxHeight: real, minHeight: real)
    requires noiseMap.Length0 == inp.mapWidth && noiseMap.Length1 == inp.mapDepth
    requires seedOffsets[..] == SeedOffsets(inp.seed, inp.octaves, inp.lib)
    modifies noiseMap
    ensures Extremes(maxHeight, minHeight) == Track(Samples(inp))
    ensures forall x, z :: 0 <= x < inp.mapWidth && 0 <= z < inp.mapDepth ==> noiseMap[x, z] == Raw(inp, x, z)
  {
    maxHeight := -FloatMaxValue;
    minHeight := FloatMaxValue;
    for z := 0 to inp.mapDepth
      invariant Extremes(maxHeight, minHeight) == Track(ScannedBefore(inp, 0, z))
      invariant forall x', z' :: 0 <= x' < inp.mapWidth && 0 <= z' < z ==> noiseMap[x', z'] == Raw(inp, x', z')
    {
      maxHeight, minHeight := ScanRow(noiseMap, inp, seedOffsets, z, maxHeight, minHeight);
    }
  }

  /** The second pass: every cell is rewritten once with InverseLerp(minHeight, maxHeight, value). */
  method NormalisePass(noiseMap: array2<real>, minHeight: real, maxHeight: real)
    modifies noiseMap
    ensures forall x, z :: 0 <= x < noiseMap.Length0 && 0 <= z < noiseMap.Length1 ==>
      noiseMap[x, z] == InverseLerp(minHeight, maxHeight, old(noiseMap[x, z]))
  {
    for z := 0 to noiseMap.Length1
      invariant forall x', z' :: 0 <= x' < noiseMap.Length0 && 0 <= z' < noiseMap.Length1 ==>
        noiseMap[x', z'] == if z' < z then InverseLerp(minHeight, maxHeight, old(noiseMap[x', z'])) else old(noiseMap[x', z'])
    {
      for x := 0 to noiseMap.Length0
        invariant forall x', z' :: 0 <= x' < noiseMap.Length0 && 0 <= z' < noiseMap.Length1 ==>
          noiseMap[x', z'] == if z' < z || (z' == z && x' < x) then InverseLerp(minHeight, maxHeight, old(noiseMap[x', z']))
                              else old(noiseMap[x', z'])
      {
        noiseMap[x, z] := InverseLerp(minHeight, maxHeight, noiseMap[x, z]);
      }
    }
  }

  /** Noise.GenerateNoiseMap: the map is indexed [x, z]; every cell ends up as
      its raw sample rescaled between the extremes the first pass found. */
  method GenerateNoiseMap(mapWidth: int, mapDepth: int, mapOffset: Vector3, seed: string, scale: real,
                          octaves: int, lacunarity: real, persistence: real, lib: Library)
    returns (noiseMap: array2<real>)
    requires 0 <= mapWidth && 0 <= mapDepth && 0 <= octaves
    ensures noiseMap.Length0 == mapWidth && noiseMap.Length1 == mapDepth
    ensures forall x, z :: 0 <= x < mapWidth && 0 <= z < mapDepth ==>
      noiseMap[x, z] == NoiseValue(NoiseInputs(mapWidth, mapDepth, mapOffset, seed, scale, octaves,
                                               lacunarity, persistence, lib), x, z)
    ensures forall x, z :: 0 <= x < mapWidth && 0 <= z < mapDepth ==> 0.0 <= noiseMap[x, z] <= 1.0
  {
    var inp := NoiseInputs(mapWidth, mapDepth, mapOffset, seed, scale, octaves, lacunarity, persistence, lib);
    noiseMap := new real[mapWidth, mapDepth];
    var seedOffsets := DrawSeedOffsets(seed, octaves, lib);
    var maxHeight, minHeight := FirstPass(noiseMap, inp, seedOffsets);
    NormalisePass(noiseMap, minHeight, maxHeight);
  }
}
