/** Stand-ins for the engine and runtime pieces that the terrain code calls but
    does not define: UnityEngine's Vector2, Vector3, Color and Mathf, and
    System.Random. Library internals (Perlin gradients, string hashing, the
    generator's recurrence) are uninterpreted: they enter as function values. */
module Collaborators {

  datatype Option<T> = None | Some(value: T)

  datatype Vector2 = Vector2(x: real, y: real)

  datatype Vector3 = Vector3(x: real, y: real, z: real)

  /** An opaque RGBA colour; the mesh code only copies colours around. */
  datatype Color = Color(r: real, g: real, b: real, a: real)

  /** float.MaxValue, the largest finite single-precision value (2^128 - 2^104);
      float.MinValue is its negation. */
  const FloatMaxValue: real := 340282346638528859811704183484516925440.0

  /** The library functions the noise pass depends on:
      - perlinNoise: Mathf.PerlinNoise(x, y);
      - stringHash: string.GetHashCode();
      - randomStream(seed, k): the k-th raw output of a System.Random seeded with `seed`. */
  datatype Library = Library(
    perlinNoise: (real, real) -> real,
    stringHash: string -> int,
    randomStream: (int, nat) -> int)

  /** Mathf.Clamp01. */
  function Clamp01(v: real): (r: real)
    ensures 0.0 <= r <= 1.0
    ensures 0.0 <= v <= 1.0 ==> r == v
    ensures v <= 0.0 ==> r == 0.0
    ensures 1.0 <= v ==> r == 1.0
  {
    if v < 0.0 then 0.0 else if v > 1.0 then 1.0 else v
  }

  /** Mathf.InverseLerp(a, b, value): where `value` lies between a and b as a
      fraction in [0, 1], clamped; 0 when the range is empty (a == b). */
  function InverseLerp(a: real, b: real, value: real): (r: real)
    ensures 0.0 <= r <= 1.0
    ensures a == b ==> r == 0.0
    ensures a != b && value == a ==> r == 0.0
    ensures a != b && value == b ==> r == 1.0
    ensures a < b && a <= value <= b ==> r * (b - a) == value - a
  {
    if a != b then
      RatioFacts(value - a, b - a);
      Clamp01((value - a) / (b - a))
    else 0.0
  }

  /** The facts about a quotient n / d that InverseLerp's contract rests on. */
  lemma RatioFacts(n: real, d: real)
    requires d != 0.0
    ensures (n / d) * d == n
    ensures n == 0.0 ==> n / d == 0.0
    ensures n == d ==> n / d == 1.0
    ensures 0.0 <= n <= d ==> 0.0 <= n / d <= 1.0
  {
    assert (n / d) * d == n;
    if 0.0 <= n <= d {
      RatioInUnit(n, d);
    }
  }

  /** A quotient of a numerator in [0, d] by d lies in [0, 1]. */
  lemma RatioInUnit(n: real, d: real)
    requires 0.0 <= n <= d && d != 0.0
    ensures 0.0 <= n / d <= 1.0
  {
    var q := n / d;
    assert q * d == n && (1.0 - q) * d == d - n;
    assert d > 0.0;
  }

  /** The value of the k-th call Next(minValue, maxValue) on a System.Random
      seeded with `seed`: the raw stream reduced to the requested range. Only
      the range is meaningful; the generator's own recurrence is not modelled. */
  function NextValue(seed: int, stream: (int, nat) -> int, k: nat, minValue: int, maxValue: int): (r: int)
    requires minValue <= maxValue
    ensures minValue == maxValue ==> r == minValue
    ensures minValue < maxValue ==> minValue <= r < maxValue
  {
    if minValue == maxValue then minValue else minValue + stream(seed, k) % (maxValue - minValue)
  }

  /** System.Random: a seeded generator whose state is the number of draws made. */
  class Random {
    const seed: int
    const stream: (int, nat) -> int
    var draws: nat

    constructor (seed: int, stream: (int, nat) -> int)
      ensures this.seed == seed && this.stream == stream && draws == 0
    {
      this.seed := seed;
      this.stream := stream;
      draws := 0;
    }

    /** Next(minValue, maxValue): an integer in [minValue, maxValue), or
        minValue when the two are equal; the runtime throws when minValue > maxValue. */
    method Next(minValue: int, maxValue: int) returns (r: int)
      requires minValue <= maxValue
      modifies this
      ensures draws == old(draws) + 1
      ensures r == NextValue(seed, stream, old(draws), minValue, maxValue)
    {
      r := NextValue(seed, stream, draws, minValue, maxValue);
      draws := draws + 1;
    }
  }
}
