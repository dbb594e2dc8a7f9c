/**
  The terrain field of one chunk (`generate_chunk`, chunk-map.py lines 27-41):
  which world columns and rows a chunk samples, the fractal noise it samples
  there, and the normalise-then-clip step that puts every cell in [0,1].
 */
module Terrain {
  import opened ChunkConfig
  import Perlin

  /** The fractal-noise parameters `generate_chunk` passes (chunk-map.py line 35). */
  const Octaves: nat := 7
  const Persistence: real := 0.4
  const Lacunarity: real := 3.0

  /** The band of noise values stretched onto [0,1] (chunk-map.py line 39). */
  const TMin: real := 0.25
  const TMax: real := 0.75

  /** An elevation grid, indexed `field[x][y]` as NumPy's `indexing='ij'` lays it out. */
  type Field = seq<seq<real>>

  /** `np.arange(X * block_size, (X + 1) * block_size)`: the world columns (or rows) chunk X samples. */
  function ChunkSpan(X: int): (r: seq<int>)
    ensures |r| == BlockSize
    ensures forall i :: 0 <= i < BlockSize ==> r[i] / BlockSize == X && r[i] % BlockSize == i
  {
    seq(BlockSize, i => X * BlockSize + i)
  }

  /** Every world coordinate is sampled by chunk `w / block_size` at index `w % block_size`, and by no other chunk. */
  lemma ChunksTileTheWorld(w: int, X: int)
    ensures ChunkSpan(w / BlockSize)[w % BlockSize] == w
    ensures w in ChunkSpan(X) <==> X == w / BlockSize
  {
    var S := ChunkSpan(X);
    if w in S {
      var i :| 0 <= i < |S| && S[i] == w;
      assert S[i] / BlockSize == X;
    }
    if X == w / BlockSize {
      assert S[w % BlockSize] == w;
    }
  }

  /** Neighbouring chunks abut: the column after chunk X's last is chunk X+1's first. */
  lemma AdjacentChunksAbut(X: int)
    ensures ChunkSpan(X)[BlockSize - 1] + 1 == ChunkSpan(X + 1)[0]
  {
  }

  /** `((v + 1) / 2 - tmin) / (tmax - tmin)`: the closed form is a shift by one half. */
  function Normalise(v: real): (r: real)
    ensures r == v + 0.5
  {
    ((v + 1.0) / 2.0 - TMin) / (TMax - TMin)
  }

  /** The fractal noise `generate_chunk` samples at a noise-space point. */
  function SampleNoise(p: Perlin.HashTable, sx: real, sy: real): real
  {
    Perlin.AmplitudeSumAtLeastOne(Persistence, Octaves);
    Perlin.FractalNoise(Perlin.PerlinOctave(p), sx, sy, Octaves, Persistence, Lacunarity).value
  }

  /** The elevation at world pixel (wx, wy): sample at `w * scale`, normalise, clip. */
  function WorldCell(p: Perlin.HashTable, scale: real, wx: int, wy: int): real
  {
    Clamp01(Normalise(SampleNoise(p, (wx as real) * scale, (wy as real) * scale)))
  }

  /** A cell is 0 exactly when the noise is at most -1/2 and 1 exactly when it is at least 1/2. */
  lemma CellSaturation(v: real)
    ensures Clamp01(Normalise(v)) == 0.0 <==> v <= -0.5
    ensures Clamp01(Normalise(v)) == 1.0 <==> v >= 0.5
  {
  }

  /** The block_size x block_size field of chunk (X, Y). */
  function GenerateChunk(p: Perlin.HashTable, scale: real, X: int, Y: int): (field: Field)
    ensures IsSquare(field, BlockSize)
    ensures forall i, j :: 0 <= i < BlockSize && 0 <= j < BlockSize ==> 0.0 <= field[i][j] <= 1.0
  {
    var xs, ys := ChunkSpan(X), ChunkSpan(Y);
    seq(BlockSize, i requires 0 <= i < BlockSize =>
      seq(BlockSize, j requires 0 <= j < BlockSize => WorldCell(p, scale, xs[i], ys[j])))
  }

  /**
    Chunks are windows onto one world field: the cell a world pixel lands in,
    in the one chunk that holds it, is that pixel's elevation. So values agree
    across chunk seams and do not depend on which chunk was generated first.
   */
  lemma ChunkCellIsWorldCell(p: Perlin.HashTable, scale: real, wx: int, wy: int)
    ensures GenerateChunk(p, scale, wx / BlockSize, wy / BlockSize)[wx % BlockSize][wy % BlockSize]
         == WorldCell(p, scale, wx, wy)
  {
    ChunksTileTheWorld(wx, wx / BlockSize);
    ChunksTileTheWorld(wy, wy / BlockSize);
  }
}
