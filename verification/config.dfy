/** The fixed configuration of the terrain viewer (chunk-map.py lines 15-25). */
module ChunkConfig {

  /** Window size in world pixels. */
  const Width: int := 300
  const Height: int := 300

  /** Upscale factor: each terrain cell becomes a PX x PX pixel block. */
  const PX: int := 3

  /** Side length of a chunk, in cells (= world pixels). */
  const BlockSize: int := 20

  /** Side length of a rendered chunk, in screen pixels. */
  const SpriteSize: int := BlockSize * PX

  /** Clamp to the unit interval: both `np.clip(v, 0, 1)` and `max(min(1, v), 0)`. */
  function Clamp01(v: real): (r: real)
    ensures 0.0 <= r <= 1.0
    ensures 0.0 <= v <= 1.0 ==> r == v
    ensures v <= 0.0 ==> r == 0.0
    ensures v >= 1.0 ==> r == 1.0
  {
    if v < 0.0 then 0.0 else if v > 1.0 then 1.0 else v
  }

  /** A two-dimensional grid stored row-major as `g[x][y]`, every row of length n. */
  predicate IsSquare<T>(g: seq<seq<T>>, n: int)
  {
    |g| == n && forall x :: 0 <= x < |g| ==> |g[x]| == n
  }
}
