# Procedural terrain generator — chunk cache, colouring and noise lattice

A Dafny model of the core of a small procedural terrain viewer. The world is an
infinite elevation field cut into square chunks of `block_size` = 20 cells.
For each frame the viewer:

- works out which chunks the 300×300 viewport needs (`make_data`);
- evicts every cached chunk outside that rectangle;
- generates the elevation field of every missing chunk (`generate_chunk`, fractal Perlin noise, then normalise and clip);
- colours the missing chunks into PX = 3 upscaled sprites (`draw_chunk`);
- blits every sprite at an integer screen offset (`draw_to_screen`).

The model covers the three parts of this that can be stated exactly.

- **Chunk streaming cache** (`streaming.dfy`, module `Streaming`). The required rectangle comes from floor division. Eviction is done by `out_of_bound`. The generate/draw loop fills what is missing, or everything after a rescale. The per-frame pass ends with the `scaled` flag cleared, and the screen offsets use integer arithmetic. Chunk payloads are opaque: `gen` stands for `generate_chunk` and `draw` for `draw_chunk`.
- **Chunk fields and per-cell colouring** (`terrain.dfy`, module `Terrain`; `render.dfy`, module `Render`). This part covers:
  - the world columns and rows a chunk samples, and the normalise-and-clip step;
  - the clamped `if/elif` band chain and its slope- and random-gated overrides;
  - the slope stencils, the order in which the seeded random stream is consumed, and the PX×PX pixel fill.
- **Noise lattice and hash layer** (`perlin.dfy`, module `Perlin`). This part covers:
  - `floor & 255` lattice indices;
  - the doubled 512-entry permutation table and the double lookups `p[p[xi]+yi]`;
  - the gradient choice `h % 8`, the `fade`/`lerp` polynomials and the octave normaliser of `generate_fractal_noise`.

The remaining files hold shared pieces. `config.dfy` (module `ChunkConfig`) has the window and chunk constants and the clamp. `wrappers.dfy` (module `Wrappers`) has `Option`/`Result`. `arith.dfy` (module `Arith`) has a few facts about Euclidean division.

Python's `//` and `%` with a positive divisor are Dafny's Euclidean `/` and `%`, so the index arithmetic carries over unchanged. `x & 255` is applied to `np.floor(x).astype(int)`, a NumPy int64; within that range its two's-complement AND agrees with the one on unbounded integers, which is modelled bit by bit (`Perlin.BitAnd`) and proved equal to `x mod 256` for negative `x` too. Noise values are computed over exact `real`s. `random.random()` is an oracle stream `nat -> real` for each seed. A chunk's cell reads the stream at the number of draws consumed before it, and a draw is consumed only when Python's short-circuit `and` reaches the call.

Three behaviours of `draw_chunk` worth noting:

- The meadow band has two flower colours: (153,69,209) on the flats, and (106,101,240) at random on the checkerboard, which takes priority.
- The seed argument `X + 200*Y` collides for chunks 200 columns apart (`Render.SeedsCollideFarApart`). Across the 16 columns a viewport can hold, no two chunks pass the same argument (`Streaming.RequiredSeedsDistinct`).
- CPython's `random.seed` of an integer seeds from its absolute value, so chunks whose arguments are opposite, such as (1,0) and (-1,0), draw the same stream and get the same random decoration. Both can be on screen at once (`Streaming.RequiredStreamsCanCollide`).

## Model

| member | source | states |
|---|---|---|
| ChunkConfig.Clamp01 | chunk-map.py:52 | the clamp lands in [0,1]; it is the identity on [0,1], 0 below and 1 above |
| Perlin.Fade | perlin.py:3-5 | the Horner form equals 6t⁵ − 15t⁴ + 10t³; fade(0) = 0 and fade(1) = 1 |
| Perlin.FadeSymmetric | perlin.py:3-5 | fade(1-t) = 1 - fade(t) |
| Perlin.FadeNonNegative | perlin.py:3-5 | fade is non-negative on t ≥ 0 |
| Perlin.FadeInUnitInterval | perlin.py:3-5 | fade maps [0,1] into [0,1], so u and v are valid interpolation weights |
| Perlin.Lerp | perlin.py:7-8 | lerp(a,b,0) = a and lerp(a,b,1) = b |
| Perlin.LerpBetween | perlin.py:7-8 | with a weight in [0,1] the result lies between the two endpoints |
| Perlin.GradientVector | perlin.py:12-15 | `vectors[h % 8]` has components in {-1,0,1}, is never the zero vector and is one of the eight listed directions |
| Perlin.Gradient | perlin.py:10-16 | the gradient dot product vanishes at a zero offset |
| Perlin.BitAnd | perlin.py:20-21 | `a & m` never exceeds the non-negative mask m |
| Perlin.BitAndOddMask | perlin.py:20-21 | an odd mask keeps the low bit of a and masks the rest of a with the halved mask |
| Perlin.BitAndMaskStep | perlin.py:20-21 | if masking with P-1 reduces mod P, masking with 2P-1 reduces mod 2P |
| Perlin.BitAndLowByte | perlin.py:20-21 | `a & 255` equals a mod 256 for every integer a, negative ones included |
| Perlin.LatticeIndex | perlin.py:20-21 | `floor & 255` lies in [0,255] and equals floor mod 256 |
| Perlin.LatticeIndexPeriodic | perlin.py:20-21 | shifting the floor by a multiple of 256 leaves the lattice index unchanged |
| Perlin.LatticeShift | perlin.py:20-21 | shifting a real coordinate by a multiple of 256 leaves the lattice index of its floor unchanged |
| Perlin.PermutationTable | perlin.py:46 | the tiled table has twice the base's length, starts with the base, and p[i+256] = p[i] |
| Perlin.PermutationValues | perlin.py:43-44 | a shuffle of 0..255 has 256 entries, all in [0,255], and contains every value of that range |
| Perlin.PermutationTableIsHashTable | perlin.py:41-46 | the doubled shuffle has 512 entries, each in [0,255] |
| Perlin.UndoubledTableOverflows | perlin.py:29-33 | without the doubling some corner index `p[xi] + (yi+1)` reaches 511, past a 256-entry table |
| Perlin.Hash | perlin.py:29-33 | with `xi+1 ≤ 256` and `yi+1 ≤ 256` both lookups stay inside the 512-entry table, and the hash is in [0,255] |
| Perlin.CornerHashes | perlin.py:29-33 | all four corner hashes n00..n11 lie in [0,255] |
| Perlin.CellHashesPeriodic | perlin.py:20-33 | shifting x or y by a multiple of 256 gives the same four corner hashes |
| Perlin.Frac | perlin.py:23-24 | the offset `x - floor(x)` inside the lattice cell lies in [0,1) |
| Perlin.FracPeriodic | perlin.py:23-24 | the cell offset repeats with period 256 |
| Perlin.Perlin2DZeroOnLattice | perlin.py:18-39 | the single-octave noise is 0 at every integer lattice point |
| Perlin.Perlin2DPeriodic | perlin.py:18-39 | the single-octave noise repeats with period 256 along each axis |
| Perlin.PowNonNegative | perlin.py:56 | repeated multiplication by a non-negative persistence keeps the amplitude non-negative |
| Perlin.AmplitudeSumAtLeastOne | perlin.py:48-58 | with at least one octave and persistence ≥ 0, the sum of persistence^k for k < octaves is at least 1 |
| Perlin.GenerateFractalNoise | perlin.py:48-58 | the loop's max_val is the sum of persistence^k and total is the weighted octave sum at frequencies lacunarity^k; the result is their quotient, defined whenever octaves ≥ 1 and persistence ≥ 0 |
| Terrain.ChunkSpan | chunk-map.py:29-30 | chunk X samples 20 consecutive world coordinates; entry i floor-divides to X with remainder i |
| Terrain.ChunksTileTheWorld | chunk-map.py:29-30 | world coordinate w is sampled by chunk w / 20 at index w % 20, and by no other chunk |
| Terrain.AdjacentChunksAbut | chunk-map.py:29-30 | the first column of chunk X+1 directly follows the last column of chunk X |
| Terrain.Normalise | chunk-map.py:38-40 | the normalisation with tmin = 0.25 and tmax = 0.75 is a shift by one half |
| Terrain.CellSaturation | chunk-map.py:38-41 | a clipped cell is 0 exactly when the noise is at most -1/2, and 1 exactly when it is at least 1/2 |
| Terrain.GenerateChunk | chunk-map.py:27-41 | the chunk field is a 20×20 grid with every value in [0,1] |
| Terrain.ChunkCellIsWorldCell | chunk-map.py:27-41 | the cell of the chunk holding a world pixel is that pixel's elevation, so values agree across chunk seams |
| Render.SeedsDistinctNearby | chunk-map.py:45 | two different chunks fewer than 200 columns apart pass different integers to `random.seed` |
| Render.SeedsCollideFarApart | chunk-map.py:45 | chunks (200,0) and (0,1) get the same seed |
| Render.StreamSeed | chunk-map.py:45 | the generator is initialised from the seed argument or its negation, whichever is non-negative |
| Render.SameStreamIffEqualOrOpposite | chunk-map.py:45 | two chunks draw the same stream exactly when their seed arguments are equal or opposite |
| Render.MirroredChunksShareStream | chunk-map.py:45 | chunks (X,Y) and (-X,-Y) draw the same stream |
| Render.ClassifyIsBand | chunk-map.py:72-121 | on a clamped value the chain picks band b exactly when the value lies in b's interval, so the chain is exhaustive and the default colour never survives |
| Render.ColourIgnoresUnusedDraw | chunk-map.py:75-105 | a cell whose condition never reaches `random.random()` does not depend on the draw |
| Render.ExtremeValues | chunk-map.py:71-121 | a value clamped up from ≤ 0 is void or void shine; one clamped down from ≥ 1 is (230,230,250) |
| Render.CliffsExactlyOnSteepHighland | chunk-map.py:106-117 | a cliff colour appears exactly when gradient_sqr > 0.65 and 0.62 ≤ value < 0.95 |
| Render.ShineOnlyInDeepWater | chunk-map.py:72-86 | a shine colour appears only on the `(2x+y) % 10 == 0` stripe with value < 0.26; void on the stripe always shines |
| Render.RocksExactlyOnShoreline | chunk-map.py:93-98 | rock appears exactly in the core sub-band, or in a fringe sub-band when the draw is below 0.4 |
| Render.FlowersOnlyInMeadow | chunk-map.py:99-105 | the random flower appears exactly in the meadow on the checkerboard with draw < 0.05; the flats flower exactly in the meadow with gradient_sqr < 0.09 when the random flower does not fire |
| Render.SlopeStencil | chunk-map.py:55-68 | both neighbour indices lie in [0,20) around i; the stencil is centred (i-1, i+1) exactly for interior i and one-sided at 0 and 19 |
| Render.GradientSqr | chunk-map.py:53-69 | the squared slope is non-negative |
| Render.CellValue | chunk-map.py:51-52 | the clamped cell value lies in [0,1] |
| Render.DrawsBefore | chunk-map.py:49-104 | the first k cells consume at most k draws of the stream |
| Render.DrawsStep | chunk-map.py:49-50 | cell (x,y), at linear position 20x+y in x-major order, consumes one draw exactly when its condition reaches `random.random()` |
| Render.PaintBlock | chunk-map.py:123 | painting cell (x,y) sets exactly the pixels (i,j) with i / 3 = x and j / 3 = y and leaves every other pixel unchanged |
| Render.PaintStep | chunk-map.py:123 | painting the next cell's block extends the correctly painted prefix by one cell |
| Render.DrawRow | chunk-map.py:50-123 | one inner loop advances the stream cursor past the draws of row x and paints row x's blocks |
| Render.DrawChunk | chunk-map.py:44-123 | the sprite is 60×60 and pixel (i,j) carries the colour of cell (i / 3, j / 3), read with the stream CPython seeds from the absolute value of X + 200Y |
| Streaming.Required | chunk-map.py:136-137 | the required rectangle is never empty and spans 15 or 16 chunks per axis |
| Streaming.RequiredIsExactlyVisible | chunk-map.py:136-137 | a chunk is required exactly when its world square overlaps the viewport |
| Streaming.RectKeysCard | chunk-map.py:148-149 | a rectangle of w columns and h rows holds w·h keys |
| Streaming.RequiredCountBounded | chunk-map.py:136-137 | whatever the camera position, between 225 and 256 chunks are required |
| Streaming.RequiredSeedsDistinct | chunk-map.py:45 | no two chunks required at the same time pass the same integer to `random.seed` |
| Streaming.RequiredStreamsCollideOnlyWhenOpposite | chunk-map.py:45 | two different chunks required at the same time draw the same stream only when their seed arguments are opposite and non-zero |
| Streaming.RequiredStreamsCanCollide | chunk-map.py:45 | with the camera at (-100,0) chunks (1,0) and (-1,0) are both required and draw the same stream |
| Streaming.OutOfBound | chunk-map.py:130-131 | `out_of_bound` is true exactly when the key is outside the closed rectangle |
| Streaming.Evict | chunk-map.py:140-145 | exactly the in-rectangle keys survive, with their values unchanged |
| Streaming.FilledStart | chunk-map.py:148-149 | before the loop, the maps are what eviction left and nothing is logged |
| Streaming.FillStep | chunk-map.py:150-153 | visiting a key refreshes it when it is missing or stale and logs it once |
| Streaming.NextColumn | chunk-map.py:148-149 | finishing column X is starting column X+1 |
| Streaming.FilledAll | chunk-map.py:148-153 | once every column is visited, the map holds the whole rectangle and the log lists exactly the refreshed keys, once each |
| Streaming.VisitKey | chunk-map.py:150-153 | generates the field if missing or stale, then draws the sprite from the field now cached if missing or stale |
| Streaming.PopulateColumn | chunk-map.py:149-153 | the inner Y loop visits a whole column |
| Streaming.Populate | chunk-map.py:147-153 | key sets become the rectangle; fresh entries keep their values; missing or stale ones are generated, or drawn from the final field, exactly once |
| Streaming.MakeData | chunk-map.py:134-156 | both key sets equal the required rectangle; cached entries keep their values unless scaled; after a rescale every required chunk is generated and drawn exactly once |
| Streaming.ScreenOffsetIsWorldOffset | chunk-map.py:167-173 | the offset from the left-most chunk equals (X·20 - cameraX)·PX |
| Streaming.FirstChunkOffsetRange | chunk-map.py:160-173 | the left-most visible chunk is drawn at an offset in (-60, 0] |
| Streaming.AdjacentOffsetsAbut | chunk-map.py:167-168 | neighbouring chunks are drawn exactly one sprite width apart |
| Streaming.DrawSingle | chunk-map.py:170-174 | blitting one chunk succeeds exactly when its sprite is cached, at its world position relative to the camera |
| Streaming.DrawToScreen | chunk-map.py:158-169 | the full redraw succeeds exactly when every required sprite is cached, with one blit per required chunk |
| Streaming.Frame | chunk-map.py:220-222 | after a frame both caches hold exactly the required chunks, the flag is clear and the full redraw cannot fail; cached entries keep their values unless missing or scaled; the generated and drawn logs list exactly the missing or stale required chunks, once each, so after a rescale every required chunk is regenerated and redrawn; a frame over an up-to-date cache changes nothing and logs nothing; each blit is the chunk's single-chunk blit |

## Left out

- The pygame window, event loop, keyboard handling, FPS caption and frame limiting (chunk-map.py lines 10-20 and 177-226) are I/O and user interface.
- `pygame.surfarray.make_surface`, `screen.blit` and `pygame.display.flip` are display calls. A sprite is a colour grid, and a blit is the `Blit` record it would be drawn with.
- The real-time draw inside the generation loop (chunk-map.py lines 155-156) is recorded only as the `drawn` log of `Streaming.Populate`. Its offset is `Streaming.DrawSingle`.
- The zoom handler's recentring (chunk-map.py lines 190-200) is float arithmetic with `int()` truncation. Only its effect, the `scaled` flag, is modelled.
- NumPy's `default_rng(42).shuffle` is not modelled. The base permutation is an input, required to be a permutation of 0..255.
- Python's `random` generator is not modelled. Each non-negative seed CPython derives from the argument selects an oracle stream of draws.
- Render.SeedsDistinctNearby: claims distinct integer arguments to `random.seed`, not distinct streams, because CPython seeds from the absolute value (`Render.MirroredChunksShareStream`).
- Streaming.RequiredSeedsDistinct: claims distinct integer arguments for chunks on screen, not distinct streams; opposite arguments share one (`Streaming.RequiredStreamsCanCollide`).
- The float-to-int64 cast `np.floor(x).astype(int)` (perlin.py lines 20-21) is modelled as the exact floor. NumPy leaves the cast undefined once |floor(x)| reaches 2⁶³, and the model does not represent that range.
- `unitdist = 2 * scale ** 0.92` is a positive parameter, because Dafny has no real exponentiation.
- Perlin.GenerateFractalNoise: the values are exact reals, not IEEE doubles. The octave primitive is a parameter, which `Perlin.PerlinOctave` instantiates with the table's `perlin_2d`.
- Perlin.FractalNoise: the NaN or infinity NumPy yields for a zero normaliser is `None`. It cannot arise with the constants `generate_chunk` uses.
- The default colour `int(value*255), int(value*180), 50` (chunk-map.py line 71) is never represented, because the band chain always overwrites it (`Render.ClassifyIsBand`).
- NumPy vectorisation and batching are library details. The model evaluates cell by cell.
- The `uint8` sprite buffer's initial zeros are represented as black pixels that every cell overwrites.
