/**
  The chunk renderer (`draw_chunk`, chunk-map.py lines 44-124): per-cell clamp,
  finite-difference slope, the ordered band chain with its slope- and
  random-gated overrides, and the PX x PX pixel fill. `random.random()` is an
  oracle stream `draw`, the stream `random.seed(X + 200*Y)` selects; CPython
  seeds its generator from the absolute value of an integer argument.
 */
module Render {
  import opened ChunkConfig
  import Arith

  datatype Rgb = Rgb(r: int, g: int, b: int)

  /** The classification bands, in the order the chain tests them. */
  datatype Band =
    | Void | Abyss | DeepSea | Sea | ShallowSea | Foam | Shoreline
    | Meadow | Forest | Mountain | HighMountain | Peaks | Snowcap

  const CliffThreshold: real := 0.65
  const FlatsThreshold: real := 0.09
  /** Centre of the shoreline rock sub-bands (`l1`). */
  const RockLevel: real := 0.420
  /** Multiplier of Y in the per-chunk random seed. */
  const SeedStride: int := 200

  // ---------------------------------------------------------------------
  // Palette (chunk-map.py lines 72-121)
  // ---------------------------------------------------------------------

  const VoidBase := Rgb(15, 0, 40)
  const VoidShine := Rgb(60, 20, 80)
  const AbyssBase := Rgb(44, 9, 84)
  const AbyssShine := Rgb(80, 60, 120)
  const DeepSeaBase := Rgb(60, 30, 150)
  const DeepSeaShine := Rgb(160, 160, 200)
  const SeaBase := Rgb(80, 80, 200)
  const ShallowSeaBase := Rgb(90, 150, 255)
  const FoamBase := Rgb(184, 210, 255)
  const ShoreBase := Rgb(242, 216, 189)
  const Rock := Rgb(97, 79, 61)
  const MeadowBase := Rgb(115, 191, 99)
  const FlatFlower := Rgb(153, 69, 209)
  const RandomFlower := Rgb(106, 101, 240)
  const ForestBase := Rgb(54, 156, 83)
  const Hillside := Rgb(120, 70, 50)
  const MountainBase := Rgb(18, 102, 57)
  const MountainCliff := Rgb(92, 53, 37)
  const HighMountainBase := Rgb(7, 77, 43)
  const HighMountainCliff := Rgb(66, 38, 32)
  const PeaksBase := Rgb(200, 200, 220)
  const Snow := Rgb(230, 230, 250)

  /** The colour `np.zeros` leaves before a cell is painted. */
  const Black := Rgb(0, 0, 0)

  const CliffColours: set<Rgb> := {Hillside, MountainCliff, HighMountainCliff}
  const ShineColours: set<Rgb> := {VoidShine, AbyssShine, DeepSeaShine}

  // ---------------------------------------------------------------------
  // Per-chunk random stream (chunk-map.py line 45)
  // ---------------------------------------------------------------------

  /** The argument `random.seed` receives for chunk (X, Y). */
  function ChunkSeed(X: int, Y: int): int
  {
    X + SeedStride * Y
  }

  /**
    The number CPython's generator is initialised from: `random.seed` of an
    integer uses its absolute value, so this is |X + 200*Y|.
   */
  function StreamSeed(X: int, Y: int): (s: nat)
    ensures s == ChunkSeed(X, Y) || s == -ChunkSeed(X, Y)
  {
    if ChunkSeed(X, Y) < 0 then -ChunkSeed(X, Y) else ChunkSeed(X, Y)
  }

  /** Two chunks draw the same stream exactly when their seed arguments are equal or opposite. */
  lemma SameStreamIffEqualOrOpposite(X1: int, Y1: int, X2: int, Y2: int)
    ensures StreamSeed(X1, Y1) == StreamSeed(X2, Y2)
        <==> ChunkSeed(X1, Y1) == ChunkSeed(X2, Y2) || ChunkSeed(X1, Y1) == -ChunkSeed(X2, Y2)
  {
  }

  /** Mirrored chunks (X, Y) and (-X, -Y) draw the same stream although their seed arguments differ. */
  lemma MirroredChunksShareStream(X: int, Y: int)
    ensures StreamSeed(X, Y) == StreamSeed(-X, -Y)
  {
  }

  /**
    Two chunks fewer than 200 columns apart never pass the same argument to
    `random.seed`. This is about the integer argument only: mirrored chunks
    still share a stream (`MirroredChunksShareStream`).
   */
  lemma SeedsDistinctNearby(X1: int, Y1: int, X2: int, Y2: int)
    requires (X1, Y1) != (X2, Y2)
    requires -SeedStride < X1 - X2 < SeedStride
    ensures ChunkSeed(X1, Y1) != ChunkSeed(X2, Y2)
  {
  }

  /** Chunks 200 columns apart do collide: (200, 0) and (0, 1) draw the same stream. */
  lemma SeedsCollideFarApart()
    ensures ChunkSeed(200, 0) == ChunkSeed(0, 1)
  {
  }

  // ---------------------------------------------------------------------
  // Band chain (chunk-map.py lines 72-121)
  // ---------------------------------------------------------------------

  /** The `if/elif` chain on the clamped value. */
  function Classify(v: real): Band
  {
    if v == 0.0 then Void
    else if v < 0.10 then Abyss
    else if v < 0.26 then DeepSea
    else if v < 0.32 then Sea
    else if v < 0.38 then ShallowSea
    else if v < 0.40 then Foam
    else if v < 0.50 then Shoreline
    else if v < 0.62 then Meadow
    else if v < 0.72 then Forest
    else if v < 0.82 then Mountain
    else if v < 0.95 then HighMountain
    else if v < 1.0 then Peaks
    else Snowcap
  }

  /** The interval of clamped values each band covers. */
  predicate InBand(v: real, b: Band)
  {
    match b
    case Void => v == 0.0
    case Abyss => 0.0 < v < 0.10
    case DeepSea => 0.10 <= v < 0.26
    case Sea => 0.26 <= v < 0.32
    case ShallowSea => 0.32 <= v < 0.38
    case Foam => 0.38 <= v < 0.40
    case Shoreline => 0.40 <= v < 0.50
    case Meadow => 0.50 <= v < 0.62
    case Forest => 0.62 <= v < 0.72
    case Mountain => 0.72 <= v < 0.82
    case HighMountain => 0.82 <= v < 0.95
    case Peaks => 0.95 <= v < 1.0
    case Snowcap => v == 1.0
  }

  /**
    On clamped values the chain picks exactly the band whose interval holds
    the value: the intervals partition [0,1], so every cell gets a band colour
    and the default colour set before the chain never survives.
   */
  lemma ClassifyIsBand(v: real, b: Band)
    requires 0.0 <= v <= 1.0
    ensures Classify(v) == b <==> InBand(v, b)
  {
  }

  // ---------------------------------------------------------------------
  // Overrides (chunk-map.py lines 74-117)
  // ---------------------------------------------------------------------

  /** The diagonal stripe pattern on which water may shine. */
  predicate ShineCell(x: int, y: int)
  {
    (2 * x + y) % 10 == 0
  }

  /** The checkerboard on which a meadow cell may flower at random. */
  predicate FlowerCell(x: int, y: int)
  {
    (x + y) % 2 == 0
  }

  /** The two shoreline sub-bands where rocks appear at random. */
  predicate RockFringe(v: real)
  {
    (RockLevel - 0.005 < v < RockLevel) || (RockLevel + 0.005 < v < RockLevel + 0.010)
  }

  /** The shoreline sub-band that is always rock. */
  predicate RockCore(v: real)
  {
    RockLevel < v < RockLevel + 0.005
  }

  /** Whether the cell's condition reaches a `random.random()` call (Python's `and` short-circuits). */
  predicate NeedsDraw(v: real, x: int, y: int)
  {
    match Classify(v)
    case Abyss => ShineCell(x, y)
    case DeepSea => ShineCell(x, y)
    case Shoreline => RockFringe(v)
    case Meadow => FlowerCell(x, y)
    case _ => false
  }

  /** The colour of a cell with clamped value v, squared slope gsq, at (x, y), given the next draw d. */
  function CellColour(v: real, gsq: real, x: int, y: int, d: real): Rgb
  {
    match Classify(v)
    case Void => if ShineCell(x, y) then VoidShine else VoidBase
    case Abyss => if ShineCell(x, y) && d < 0.7 then AbyssShine else AbyssBase
    case DeepSea => if ShineCell(x, y) && d < 0.4 then DeepSeaShine else DeepSeaBase
    case Sea => SeaBase
    case ShallowSea => ShallowSeaBase
    case Foam => FoamBase
    case Shoreline => if (RockFringe(v) && d < 0.4) || RockCore(v) then Rock else ShoreBase
    case Meadow =>
      if FlowerCell(x, y) && d < 0.05 then RandomFlower
      else if gsq < FlatsThreshold then FlatFlower
      else MeadowBase
    case Forest => if gsq > CliffThreshold then Hillside else ForestBase
    case Mountain => if gsq > CliffThreshold then MountainCliff else MountainBase
    case HighMountain => if gsq > CliffThreshold then HighMountainCliff else HighMountainBase
    case Peaks => PeaksBase
    case Snowcap => Snow
  }

  /** A cell that does not reach `random.random()` does not depend on the stream. */
  lemma ColourIgnoresUnusedDraw(v: real, gsq: real, x: int, y: int, d1: real, d2: real)
    requires !NeedsDraw(v, x, y)
    ensures CellColour(v, gsq, x, y, d1) == CellColour(v, gsq, x, y, d2)
  {
  }

  /** A cell whose raw value is at most 0 is void (possibly shining); at least 1 is snow. */
  lemma ExtremeValues(w: real, gsq: real, x: int, y: int, d: real)
    ensures w <= 0.0 ==> CellColour(Clamp01(w), gsq, x, y, d) in {VoidBase, VoidShine}
    ensures w >= 1.0 ==> CellColour(Clamp01(w), gsq, x, y, d) == Snow
  {
  }

  /** Cliff colours appear exactly on steep cells of the forest, mountain and high-mountain bands. */
  lemma CliffsExactlyOnSteepHighland(v: real, gsq: real, x: int, y: int, d: real)
    requires 0.0 <= v <= 1.0
    ensures CellColour(v, gsq, x, y, d) in CliffColours <==> gsq > CliffThreshold && 0.62 <= v < 0.95
  {
  }

  /** Shine appears only on the stripe pattern, and only in the three deepest bands. */
  lemma ShineOnlyInDeepWater(v: real, gsq: real, x: int, y: int, d: real)
    requires 0.0 <= v <= 1.0
    ensures CellColour(v, gsq, x, y, d) in ShineColours ==> ShineCell(x, y) && v < 0.26
    ensures v == 0.0 && ShineCell(x, y) ==> CellColour(v, gsq, x, y, d) == VoidShine
  {
  }

  /** Rock appears exactly in the core sub-band, or in a fringe sub-band when the draw is below 0.4. */
  lemma RocksExactlyOnShoreline(v: real, gsq: real, x: int, y: int, d: real)
    requires 0.0 <= v <= 1.0
    ensures CellColour(v, gsq, x, y, d) == Rock <==> RockCore(v) || (RockFringe(v) && d < 0.4)
  {
  }

  /** Flowers grow only in the meadow band: at random on the checkerboard, otherwise on the flats. */
  lemma FlowersOnlyInMeadow(v: real, gsq: real, x: int, y: int, d: real)
    requires 0.0 <= v <= 1.0
    ensures CellColour(v, gsq, x, y, d) == RandomFlower <==> 0.50 <= v < 0.62 && FlowerCell(x, y) && d < 0.05
    ensures CellColour(v, gsq, x, y, d) == FlatFlower
        <==> 0.50 <= v < 0.62 && gsq < FlatsThreshold && !(FlowerCell(x, y) && d < 0.05)
  {
  }

  // ---------------------------------------------------------------------
  // Slope (chunk-map.py lines 53-69)
  // ---------------------------------------------------------------------

  /** The pair of neighbour indices a finite difference reads along one axis. */
  datatype Stencil = Centred(lo: int, hi: int) | OneSided(lo: int, hi: int)

  /** Centred difference inside the chunk, one-sided at its first and last index. */
  function SlopeStencil(i: int): (s: Stencil)
    requires 0 <= i < BlockSize
    ensures 0 <= s.lo < s.hi < BlockSize
    ensures s.lo <= i <= s.hi
    ensures s.Centred? <==> 0 < i < BlockSize - 1
    ensures s.Centred? ==> s.lo == i - 1 && s.hi == i + 1
    ensures s.OneSided? ==> s.hi == s.lo + 1 && (s.lo == i || s.hi == i)
  {
    if 0 < i < BlockSize - 1 then Centred(i - 1, i + 1)
    else if i == 0 then OneSided(i, i + 1)
    else OneSided(i - 1, i)
  }

  /** The difference quotient over a stencil: halved for a centred one, then divided by `unitdist`. */
  function Quotient(s: Stencil, atLo: real, atHi: real, unitdist: real): real
    requires unitdist > 0.0
  {
    match s
    case Centred(_, _) => (atHi - atLo) / 2.0 / unitdist
    case OneSided(_, _) => (atHi - atLo) / unitdist
  }

  /** `xslope * xslope + yslope * yslope` at cell (x, y) of the raw field. */
  function GradientSqr(field: seq<seq<real>>, x: int, y: int, unitdist: real): (g: real)
    requires IsSquare(field, BlockSize)
    requires 0 <= x < BlockSize && 0 <= y < BlockSize
    requires unitdist > 0.0
    ensures g >= 0.0
  {
    var sx, sy := SlopeStencil(x), SlopeStencil(y);
    var xslope := Quotient(sx, field[sx.lo][y], field[sx.hi][y], unitdist);
    var yslope := Quotient(sy, field[x][sy.lo], field[x][sy.hi], unitdist);
    xslope * xslope + yslope * yslope
  }

  // ---------------------------------------------------------------------
  // The whole chunk (chunk-map.py lines 45-124)
  // ---------------------------------------------------------------------

  type Sprite = seq<seq<Rgb>>

  /** The clamped value of cell (x, y) (chunk-map.py line 52). */
  function CellValue(field: seq<seq<real>>, x: int, y: int): (v: real)
    requires IsSquare(field, BlockSize)
    requires 0 <= x < BlockSize && 0 <= y < BlockSize
    ensures 0.0 <= v <= 1.0
  {
    Clamp01(field[x][y])
  }

  /** How many draws the first k cells (in the source's x-major order) consume. */
  function DrawsBefore(field: seq<seq<real>>, k: nat): (n: nat)
    requires IsSquare(field, BlockSize)
    requires k <= BlockSize * BlockSize
    ensures n <= k
  {
    if k == 0 then 0
    else
      var x, y := (k - 1) / BlockSize, (k - 1) % BlockSize;
      DrawsBefore(field, k - 1) + (if NeedsDraw(CellValue(field, x, y), x, y) then 1 else 0)
  }

  /** The colour cell (x, y) of a chunk receives, reading the stream at the draws consumed before it. */
  function CellColourAt(field: seq<seq<real>>, unitdist: real, draw: nat -> real, x: int, y: int): Rgb
    requires IsSquare(field, BlockSize)
    requires 0 <= x < BlockSize && 0 <= y < BlockSize
    requires unitdist > 0.0
  {
    var d := draw(DrawsBefore(field, x * BlockSize + y));
    CellColour(CellValue(field, x, y), GradientSqr(field, x, y, unitdist), x, y, d)
  }

  /** `sprite[x*PX:(x+1)*PX, y*PX:(y+1)*PX] = c`: paints one cell's pixel block. */
  function PaintBlock(s: Sprite, x: int, y: int, c: Rgb): (s': Sprite)
    requires IsSquare(s, SpriteSize)
    requires 0 <= x < BlockSize && 0 <= y < BlockSize
    ensures IsSquare(s', SpriteSize)
    ensures forall i, j :: 0 <= i < SpriteSize && 0 <= j < SpriteSize ==>
      s'[i][j] == if i / PX == x && j / PX == y then c else s[i][j]
  {
    seq(SpriteSize, i requires 0 <= i < SpriteSize =>
      if x * PX <= i < (x + 1) * PX then s[i][..y * PX] + seq(PX, _ => c) + s[i][(y + 1) * PX..]
      else s[i])
  }

  /** Every pixel whose cell comes before linear position k has its cell's colour. */
  ghost predicate PaintedBefore(s: Sprite, field: seq<seq<real>>, unitdist: real, draw: nat -> real, k: int)
    requires IsSquare(s, SpriteSize) && IsSquare(field, BlockSize) && unitdist > 0.0
  {
    forall i, j :: 0 <= i < SpriteSize && 0 <= j < SpriteSize && (i / PX) * BlockSize + j / PX < k ==>
      s[i][j] == CellColourAt(field, unitdist, draw, i / PX, j / PX)
  }

  /** Painting the block of cell (x, y), at linear position k, extends the painted prefix by one cell. */
  lemma PaintStep(s: Sprite, field: seq<seq<real>>, unitdist: real, draw: nat -> real, k: int, x: int, y: int, c: Rgb)
    requires IsSquare(s, SpriteSize) && IsSquare(field, BlockSize) && unitdist > 0.0
    requires 0 <= x < BlockSize && 0 <= y < BlockSize && k == x * BlockSize + y
    requires PaintedBefore(s, field, unitdist, draw, k)
    requires c == CellColourAt(field, unitdist, draw, x, y)
    ensures PaintedBefore(PaintBlock(s, x, y, c), field, unitdist, draw, k + 1)
  {
    var painted := PaintBlock(s, x, y, c);
    forall i, j | 0 <= i < SpriteSize && 0 <= j < SpriteSize && (i / PX) * BlockSize + j / PX < k + 1
      ensures painted[i][j] == CellColourAt(field, unitdist, draw, i / PX, j / PX)
    {
      if i / PX == x && j / PX == y {
        assert painted[i][j] == c;
      } else {
        assert (i / PX) * BlockSize + j / PX < k;
      }
    }
  }

  /** The cell at linear position k = x * block_size + y is (x, y). */
  lemma DrawsStep(field: seq<seq<real>>, k: int, x: int, y: int)
    requires IsSquare(field, BlockSize)
    requires 0 <= x < BlockSize && 0 <= y < BlockSize && k == x * BlockSize + y
    ensures DrawsBefore(field, k + 1)
         == DrawsBefore(field, k) + (if NeedsDraw(CellValue(field, x, y), x, y) then 1 else 0)
  {
    Arith.ModUnique(k, BlockSize, x, y);
    assert (k + 1 - 1) / BlockSize == x && (k + 1 - 1) % BlockSize == y;
  }

  /**
    Renders chunk (X, Y) from its field: every pixel (i, j) of the
    (block_size*PX)-square sprite takes the colour of cell (i / PX, j / PX),
    coloured with the stream CPython seeds from |X + 200*Y|.
   */
  method DrawChunk(X: int, Y: int, field: seq<seq<real>>, unitdist: real, rng: nat -> (nat -> real))
    returns (sprite: Sprite)
    requires IsSquare(field, BlockSize)
    requires unitdist > 0.0
    ensures IsSquare(sprite, SpriteSize)
    ensures forall i, j :: 0 <= i < SpriteSize && 0 <= j < SpriteSize ==>
      sprite[i][j] == CellColourAt(field, unitdist, rng(StreamSeed(X, Y)), i / PX, j / PX)
  {
    var draw := rng(StreamSeed(X, Y));
    sprite := seq(SpriteSize, _ => seq(SpriteSize, _ => Black));
    var cursor := 0;
    var x := 0;
    while x < BlockSize
      invariant 0 <= x <= BlockSize
      invariant IsSquare(sprite, SpriteSize)
      invariant cursor == DrawsBefore(field, x * BlockSize)
      invariant PaintedBefore(sprite, field, unitdist, draw, x * BlockSize)
    {
      sprite, cursor := DrawRow(field, unitdist, draw, x, sprite, cursor);
      x := x + 1;
    }
  }

  /** The inner `for y` loop of `draw_chunk` for one x: colours and paints cells (x, 0) .. (x, block_size - 1). */
  method DrawRow(field: seq<seq<real>>, unitdist: real, draw: nat -> real, x: int, sprite: Sprite, cursor: nat)
    returns (sprite': Sprite, cursor': nat)
    requires IsSquare(field, BlockSize) && unitdist > 0.0
    requires 0 <= x < BlockSize
    requires IsSquare(sprite, SpriteSize)
    requires cursor == DrawsBefore(field, x * BlockSize)
    requires PaintedBefore(sprite, field, unitdist, draw, x * BlockSize)
    ensures IsSquare(sprite', SpriteSize)
    ensures cursor' == DrawsBefore(field, (x + 1) * BlockSize)
    ensures PaintedBefore(sprite', field, unitdist, draw, (x + 1) * BlockSize)
  {
    sprite', cursor' := sprite, cursor;
    var y, k := 0, x * BlockSize;
    while y < BlockSize
      invariant 0 <= y <= BlockSize && k == x * BlockSize + y
      invariant IsSquare(sprite', SpriteSize)
      invariant cursor' == DrawsBefore(field, k)
      invariant PaintedBefore(sprite', field, unitdist, draw, k)
    {
      var value := CellValue(field, x, y);
      var gsq := GradientSqr(field, x, y, unitdist);
      // The stream value at the cursor is consumed only when the cell's condition reaches it.
      var c := CellColour(value, gsq, x, y, draw(cursor'));
      assert c == CellColourAt(field, unitdist, draw, x, y) by {
        assert cursor' == DrawsBefore(field, x * BlockSize + y);
      }
      DrawsStep(field, k, x, y);
      if NeedsDraw(value, x, y) {
        cursor' := cursor' + 1;
      }
      PaintStep(sprite', field, unitdist, draw, k, x, y, c);
      sprite' := PaintBlock(sprite', x, y, c);
      y, k := y + 1, k + 1;
    }
    Arith.MulSucc(x, BlockSize);
  }
}
