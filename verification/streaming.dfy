/**
  The chunk streaming cache (chunk-map.py lines 128-174 and the per-frame
  pass at lines 220-222): the rectangle of chunks the viewport needs, eviction
  of everything outside it, generation of what is missing (or of everything
  after a rescale), and the screen offsets chunks are drawn at.
  Chunk payloads are opaque: `gen` stands for `generate_chunk` at the current
  scale and `draw` for `draw_chunk` on the chunk's current field.
 */
module Streaming {
  import opened Wrappers
  import opened ChunkConfig
  import opened Arith
  import Render

  /** A chunk coordinate `(X, Y)`, the key of both caches. */
  type Key = (int, int)

  /** The closed rectangle `[left, right] x [top, bottom]` of chunk indices. */
  datatype Rect = Rect(left: int, right: int, top: int, bottom: int) {
    predicate Contains(k: Key)
    {
      left <= k.0 <= right && top <= k.1 <= bottom
    }
  }

  /** The cache state: both dictionaries and the rescale flag. */
  datatype World<T, S> = World(terrain: map<Key, T>, sprites: map<Key, S>, scaled: bool)

  // ---------------------------------------------------------------------
  // The required rectangle (chunk-map.py lines 136-137)
  // ---------------------------------------------------------------------

  /** The chunks holding the window's top-left and bottom-right pixels, by floor division. */
  function Required(cameraX: int, cameraY: int): (r: Rect)
    ensures r.left <= r.right && r.top <= r.bottom
    ensures 14 <= r.right - r.left <= 15 && 14 <= r.bottom - r.top <= 15
  {
    Rect(cameraX / BlockSize, (cameraX + Width - 1) / BlockSize,
         cameraY / BlockSize, (cameraY + Height - 1) / BlockSize)
  }

  /** `q <= a / 20` exactly when `20 * q <= a`, for every sign of a. */
  lemma FloorDivBound(a: int, q: int)
    ensures q <= a / BlockSize <==> q * BlockSize <= a
  {
  }

  /**
    The required rectangle is exactly the set of chunks whose world square
    `[X*20, X*20+20) x [Y*20, Y*20+20)` overlaps the window
    `[cameraX, cameraX+300) x [cameraY, cameraY+300)`.
   */
  lemma RequiredIsExactlyVisible(cameraX: int, cameraY: int, k: Key)
    ensures Required(cameraX, cameraY).Contains(k) <==>
      && k.0 * BlockSize < cameraX + Width && cameraX < k.0 * BlockSize + BlockSize
      && k.1 * BlockSize < cameraY + Height && cameraY < k.1 * BlockSize + BlockSize
  {
    FloorDivBound(cameraX + Width - 1, k.0);
    FloorDivBound(cameraY + Height - 1, k.1);
    FloorDivBound(cameraX, k.0 + 1);
    FloorDivBound(cameraY, k.1 + 1);
  }

  /** The keys of a rectangle. */
  function RectKeys(r: Rect): set<Key>
  {
    set x: int, y: int | r.left <= x <= r.right && r.top <= y <= r.bottom :: (x, y)
  }

  lemma RectKeysContains(r: Rect, k: Key)
    ensures k in RectKeys(r) <==> r.Contains(k)
  {
    if r.Contains(k) {
      assert (k.0, k.1) in RectKeys(r);
    }
  }

  /** The keys `(x, top) .. (x, bottom)` of one column of a rectangle. */
  function ColumnKeys(x: int, top: int, bottom: int): set<Key>
  {
    set y: int | top <= y <= bottom :: (x, y)
  }

  lemma {:induction false} ColumnKeysCard(x: int, top: int, bottom: int)
    requires top <= bottom + 1
    ensures |ColumnKeys(x, top, bottom)| == bottom - top + 1
    decreases bottom - top
  {
    if top > bottom {
      assert ColumnKeys(x, top, bottom) == {};
    } else {
      ColumnKeysCard(x, top, bottom - 1);
      assert ColumnKeys(x, top, bottom) == ColumnKeys(x, top, bottom - 1) + {(x, bottom)};
    }
  }

  /** A rectangle is the one without its last column, plus that column; the two share no key. */
  lemma SplitLastColumn(r: Rect)
    requires r.left <= r.right
    ensures RectKeys(r) == RectKeys(r.(right := r.right - 1)) + ColumnKeys(r.right, r.top, r.bottom)
    ensures RectKeys(r.(right := r.right - 1)) * ColumnKeys(r.right, r.top, r.bottom) == {}
  {
    var narrower := r.(right := r.right - 1);
    var column := ColumnKeys(r.right, r.top, r.bottom);
    forall k
      ensures k in RectKeys(r) <==> k in RectKeys(narrower) || k in column
      ensures k in column ==> k !in RectKeys(narrower)
    {
      RectKeysContains(r, k);
      RectKeysContains(narrower, k);
      if k.0 == r.right && r.top <= k.1 <= r.bottom {
        assert (k.0, k.1) in column;
      }
    }
  }

  /** A rectangle of w columns and h rows holds w * h keys. */
  lemma {:induction false} RectKeysCard(r: Rect)
    requires r.left <= r.right + 1 && r.top <= r.bottom + 1
    ensures |RectKeys(r)| == (r.right - r.left + 1) * (r.bottom - r.top + 1)
    decreases r.right - r.left
  {
    if r.left > r.right {
      assert RectKeys(r) == {};
    } else {
      var narrower := r.(right := r.right - 1);
      RectKeysCard(narrower);
      ColumnKeysCard(r.right, r.top, r.bottom);
      SplitLastColumn(r);
      MulSucc(r.right - 1 - r.left + 1, r.bottom - r.top + 1);
    }
  }

  /** Wherever the camera is, the viewport needs between 15*15 and 16*16 chunks. */
  lemma RequiredCountBounded(cameraX: int, cameraY: int)
    ensures 225 <= |RectKeys(Required(cameraX, cameraY))| <= 256
  {
    var r := Required(cameraX, cameraY);
    RectKeysCard(r);
    var w, h := r.right - r.left + 1, r.bottom - r.top + 1;
    assert (w == 15 || w == 16) && (h == 15 || h == 16);
    assert 225 <= w * h <= 256;
  }

  /**
    Chunks needed at the same time never pass the same argument to
    `random.seed`. The streams themselves can coincide
    (`RequiredStreamsCanCollide`).
   */
  lemma RequiredSeedsDistinct(cameraX: int, cameraY: int, a: Key, b: Key)
    requires Required(cameraX, cameraY).Contains(a) && Required(cameraX, cameraY).Contains(b)
    requires a != b
    ensures Render.ChunkSeed(a.0, a.1) != Render.ChunkSeed(b.0, b.1)
  {
    Render.SeedsDistinctNearby(a.0, a.1, b.0, b.1);
  }

  /** Two chunks needed at the same time share a stream only when their seed arguments are opposite. */
  lemma RequiredStreamsCollideOnlyWhenOpposite(cameraX: int, cameraY: int, a: Key, b: Key)
    requires Required(cameraX, cameraY).Contains(a) && Required(cameraX, cameraY).Contains(b)
    requires a != b
    requires Render.StreamSeed(a.0, a.1) == Render.StreamSeed(b.0, b.1)
    ensures Render.ChunkSeed(a.0, a.1) == -Render.ChunkSeed(b.0, b.1) != 0
  {
    RequiredSeedsDistinct(cameraX, cameraY, a, b);
    Render.SameStreamIffEqualOrOpposite(a.0, a.1, b.0, b.1);
  }

  /** With the camera at (-100, 0), chunks (1, 0) and (-1, 0) are both required and draw the same stream. */
  lemma RequiredStreamsCanCollide()
    ensures Required(-100, 0).Contains((1, 0)) && Required(-100, 0).Contains((-1, 0))
    ensures Render.StreamSeed(1, 0) == Render.StreamSeed(-1, 0)
  {
    assert Required(-100, 0) == Rect(-5, 9, 0, 14);
  }

  // ---------------------------------------------------------------------
  // Eviction (chunk-map.py lines 130-145)
  // ---------------------------------------------------------------------

  /** `out_of_bound`: the key lies outside `[left, right] x [top, bottom]`. */
  function OutOfBound(key: Key, left: int, right: int, top: int, bottom: int): (b: bool)
    ensures b <==> !Rect(left, right, top, bottom).Contains(key)
  {
    key.0 < left || key.0 > right || key.1 < top || key.1 > bottom
  }

  /** The `for key in list(m.keys())` loop deleting every out-of-bound key. */
  method Evict<V>(m: map<Key, V>, r: Rect) returns (m': map<Key, V>)
    ensures forall k :: k in m' <==> k in m && r.Contains(k)
    ensures forall k :: k in m' ==> m'[k] == m[k]
  {
    m' := m;
    var pending := m.Keys;
    while pending != {}
      invariant pending <= m.Keys
      invariant forall k :: k in m' <==> k in m && (k in pending || r.Contains(k))
      invariant forall k :: k in m' ==> m'[k] == m[k]
      decreases pending
    {
      var k :| k in pending;
      if OutOfBound(k, r.left, r.right, r.top, r.bottom) {
        m' := m' - {k};
      }
      pending := pending - {k};
    }
  }

  // ---------------------------------------------------------------------
  // Generation (chunk-map.py lines 147-156)
  // ---------------------------------------------------------------------

  /** Key k of rectangle r has been visited once the `for X` / `for Y` loops have passed (X, Y). */
  predicate Visited(r: Rect, k: Key, X: int, Y: int)
  {
    r.Contains(k) && (k.0 < X || (k.0 == X && k.1 < Y))
  }

  ghost predicate Distinct<T>(s: seq<T>)
  {
    forall i, j :: 0 <= i < j < |s| ==> s[i] != s[j]
  }

  /** A log without repeats that lists exactly the members of a set is as long as the set is large. */
  lemma {:induction false} DistinctLogLength<T>(s: seq<T>, A: set<T>)
    requires Distinct(s)
    requires forall x :: x in s <==> x in A
    ensures |s| == |A|
    decreases |s|
  {
    if |s| > 0 {
      var last := s[|s| - 1];
      var init := s[..|s| - 1];
      assert forall x :: x in init <==> x in A - {last} by {
        forall x
          ensures x in init <==> x in A - {last}
        {
          if x in init {
            var i :| 0 <= i < |init| && init[i] == x;
            assert s[i] == x && i < |s| - 1;
          }
          if x in s && x != last {
            var i :| 0 <= i < |s| && s[i] == x;
            assert i != |s| - 1;
            assert init[i] == x;
          }
        }
      }
      DistinctLogLength(init, A - {last});
    } else {
      assert forall x :: x !in A by {
        forall x
          ensures x !in A
        {
          assert x !in s;
        }
      }
      assert A == {};
    }
  }

  /**
    How far the generation loops have got for one map once they reach (X, Y):
    each visited key holds `target` where it was missing or stale, every other
    key still holds what eviction left, and the log lists exactly the keys
    refreshed so far, each once.
   */
  ghost predicate Filled<V>(r: Rect, m0: map<Key, V>, scaled: bool, target: Key -> V,
                            m: map<Key, V>, log: seq<Key>, X: int, Y: int)
  {
    && (forall k :: k in m <==> r.Contains(k) && (k in m0 || Visited(r, k, X, Y)))
    && (forall k :: k in m ==> m[k] == if Visited(r, k, X, Y) && (k !in m0 || scaled) then target(k) else m0[k])
    && Distinct(log)
    && (forall k :: k in log <==> Visited(r, k, X, Y) && (k !in m0 || scaled))
  }

  /** Visiting (X, Y): refresh the entry if it is missing or stale, and log the refresh. */
  lemma FillStep<V>(r: Rect, m0: map<Key, V>, scaled: bool, target: Key -> V,
                    m: map<Key, V>, log: seq<Key>, X: int, Y: int)
    requires r.Contains((X, Y))
    requires Filled(r, m0, scaled, target, m, log, X, Y)
    ensures var refresh := (X, Y) !in m || scaled;
      Filled(r, m0, scaled, target,
             if refresh then m[(X, Y) := target((X, Y))] else m,
             if refresh then log + [(X, Y)] else log, X, Y + 1)
  {
    var key := (X, Y);
    assert key !in log;
    forall k
      ensures Visited(r, k, X, Y + 1) <==> Visited(r, k, X, Y) || k == key
    {
    }
  }

  /** Finishing column X is the same as starting column X + 1. */
  lemma NextColumn<V>(r: Rect, m0: map<Key, V>, scaled: bool, target: Key -> V,
                      m: map<Key, V>, log: seq<Key>, X: int)
    requires Filled(r, m0, scaled, target, m, log, X, r.bottom + 1)
    ensures Filled(r, m0, scaled, target, m, log, X + 1, r.top)
  {
    var end, start := r.bottom + 1, r.top;
    forall k
      ensures Visited(r, k, X, end) <==> Visited(r, k, X + 1, start)
    {
    }
  }

  /** Before the first key is visited, the map is what eviction left and the log is empty. */
  lemma FilledStart<V>(r: Rect, m0: map<Key, V>, scaled: bool, target: Key -> V)
    requires forall k :: k in m0 ==> r.Contains(k)
    ensures Filled(r, m0, scaled, target, m0, [], r.left, r.top)
  {
    var left, start := r.left, r.top;
    forall k
      ensures !Visited(r, k, left, start)
    {
    }
  }

  /** Once every column has been visited, the map and log hold their final contents. */
  lemma FilledAll<V>(r: Rect, m0: map<Key, V>, scaled: bool, target: Key -> V,
                     m: map<Key, V>, log: seq<Key>, X: int)
    requires X > r.right || r.top > r.bottom
    requires Filled(r, m0, scaled, target, m, log, X, r.top)
    ensures forall k :: k in m <==> r.Contains(k)
    ensures forall k :: k in m ==> m[k] == if k !in m0 || scaled then target(k) else m0[k]
    ensures Distinct(log)
    ensures forall k :: k in log <==> r.Contains(k) && (k !in m0 || scaled)
  {
    var start := r.top;
    forall k
      ensures Visited(r, k, X, start) <==> r.Contains(k)
    {
    }
  }

  /** The field a chunk ends up with: the cached one unless it is missing or stale. */
  function TerrainTarget<T>(terrain0: map<Key, T>, scaled: bool, gen: Key -> T): Key -> T
  {
    k => if k in terrain0 && !scaled then terrain0[k] else gen(k)
  }

  /** The sprite a chunk ends up with when it is redrawn: drawn from its final field. */
  function SpriteTarget<T, S>(terrain0: map<Key, T>, scaled: bool, gen: Key -> T, draw: (Key, T) -> S): Key -> S
  {
    k => draw(k, TerrainTarget(terrain0, scaled, gen)(k))
  }

  /**
    The body of the generation loop at chunk (X, Y): `generate_chunk` when the
    field is missing or stale, then `draw_chunk` on the field now cached when
    the sprite is missing or stale.
   */
  method VisitKey<T, S>(r: Rect, terrain0: map<Key, T>, sprites0: map<Key, S>, scaled: bool,
                        gen: Key -> T, draw: (Key, T) -> S,
                        terrain: map<Key, T>, sprites: map<Key, S>, generated: seq<Key>, drawn: seq<Key>,
                        X: int, Y: int)
    returns (terrain': map<Key, T>, sprites': map<Key, S>, generated': seq<Key>, drawn': seq<Key>)
    requires r.Contains((X, Y))
    requires Filled(r, terrain0, scaled, TerrainTarget(terrain0, scaled, gen), terrain, generated, X, Y)
    requires Filled(r, sprites0, scaled, SpriteTarget(terrain0, scaled, gen, draw), sprites, drawn, X, Y)
    ensures Filled(r, terrain0, scaled, TerrainTarget(terrain0, scaled, gen), terrain', generated', X, Y + 1)
    ensures Filled(r, sprites0, scaled, SpriteTarget(terrain0, scaled, gen, draw), sprites', drawn', X, Y + 1)
  {
    var key := (X, Y);
    var fields := TerrainTarget(terrain0, scaled, gen);
    FillStep(r, terrain0, scaled, fields, terrain, generated, X, Y);
    FillStep(r, sprites0, scaled, SpriteTarget(terrain0, scaled, gen, draw), sprites, drawn, X, Y);
    terrain', generated' := terrain, generated;
    if key !in terrain || scaled {
      assert gen(key) == fields(key);
      terrain' := terrain[key := gen(key)];
      generated' := generated + [key];
    }
    assert terrain'[key] == fields(key);
    sprites', drawn' := sprites, drawn;
    if key !in sprites || scaled {
      sprites' := sprites[key := draw(key, terrain'[key])];
      drawn' := drawn + [key];
    }
  }

  /** One pass of the inner `for Y in range(top, bottom+1)` loop at column X. */
  method PopulateColumn<T, S>(r: Rect, terrain0: map<Key, T>, sprites0: map<Key, S>, scaled: bool,
                              gen: Key -> T, draw: (Key, T) -> S,
                              terrain: map<Key, T>, sprites: map<Key, S>, generated: seq<Key>, drawn: seq<Key>, X: int)
    returns (terrain': map<Key, T>, sprites': map<Key, S>, generated': seq<Key>, drawn': seq<Key>)
    requires r.left <= X <= r.right && r.top <= r.bottom
    requires Filled(r, terrain0, scaled, TerrainTarget(terrain0, scaled, gen), terrain, generated, X, r.top)
    requires Filled(r, sprites0, scaled, SpriteTarget(terrain0, scaled, gen, draw), sprites, drawn, X, r.top)
    ensures Filled(r, terrain0, scaled, TerrainTarget(terrain0, scaled, gen), terrain', generated', X, r.bottom + 1)
    ensures Filled(r, sprites0, scaled, SpriteTarget(terrain0, scaled, gen, draw), sprites', drawn', X, r.bottom + 1)
  {
    terrain', sprites', generated', drawn' := terrain, sprites, generated, drawn;
    var Y := r.top;
    while Y <= r.bottom
      invariant r.top <= Y <= r.bottom + 1
      invariant Filled(r, terrain0, scaled, TerrainTarget(terrain0, scaled, gen), terrain', generated', X, Y)
      invariant Filled(r, sprites0, scaled, SpriteTarget(terrain0, scaled, gen, draw), sprites', drawn', X, Y)
    {
      terrain', sprites', generated', drawn' :=
        VisitKey(r, terrain0, sprites0, scaled, gen, draw, terrain', sprites', generated', drawn', X, Y);
      Y := Y + 1;
    }
  }

  /**
    The `for X in range(left, right+1)` / `for Y in range(top, bottom+1)` loop
    over evicted maps: generates a field where it is missing or stale, then
    redraws a sprite where it is missing or stale. `generated` and `drawn` log
    the `generate_chunk` and `draw_chunk` calls in order.
   */
  method Populate<T, S>(terrain0: map<Key, T>, sprites0: map<Key, S>, scaled: bool, r: Rect,
                        gen: Key -> T, draw: (Key, T) -> S)
    returns (terrain: map<Key, T>, sprites: map<Key, S>, generated: seq<Key>, drawn: seq<Key>)
    requires forall k :: k in terrain0 ==> r.Contains(k)
    requires forall k :: k in sprites0 ==> r.Contains(k)
    ensures forall k :: k in terrain <==> r.Contains(k)
    ensures forall k :: k in sprites <==> r.Contains(k)
    ensures forall k :: k in terrain ==>
      terrain[k] == if k !in terrain0 || scaled then gen(k) else terrain0[k]
    ensures forall k :: k in sprites ==>
      sprites[k] == if k !in sprites0 || scaled then draw(k, terrain[k]) else sprites0[k]
    ensures Distinct(generated) && Distinct(drawn)
    ensures forall k :: k in generated <==> r.Contains(k) && (k !in terrain0 || scaled)
    ensures forall k :: k in drawn <==> r.Contains(k) && (k !in sprites0 || scaled)
  {
    var fields := TerrainTarget(terrain0, scaled, gen);
    var pictures := SpriteTarget(terrain0, scaled, gen, draw);
    terrain, sprites, generated, drawn := terrain0, sprites0, [], [];
    FilledStart(r, terrain0, scaled, fields);
    FilledStart(r, sprites0, scaled, pictures);
    var X := r.left;
    if r.top <= r.bottom {
      while X <= r.right
        invariant X <= r.right + 1 || X == r.left
        invariant Filled(r, terrain0, scaled, fields, terrain, generated, X, r.top)
        invariant Filled(r, sprites0, scaled, pictures, sprites, drawn, X, r.top)
      {
        terrain, sprites, generated, drawn :=
          PopulateColumn(r, terrain0, sprites0, scaled, gen, draw, terrain, sprites, generated, drawn, X);
        NextColumn(r, terrain0, scaled, fields, terrain, generated, X);
        NextColumn(r, sprites0, scaled, pictures, sprites, drawn, X);
        X := X + 1;
      }
    }
    FilledAll(r, terrain0, scaled, fields, terrain, generated, X);
    FilledAll(r, sprites0, scaled, pictures, sprites, drawn, X);
    forall k | k in sprites
      ensures sprites[k] == if k !in sprites0 || scaled then draw(k, terrain[k]) else sprites0[k]
    {
      assert terrain[k] == fields(k);
    }
  }

  /**
    `make_data`: evicts every key outside the required rectangle from both
    maps, then fills the rectangle. Afterwards both key sets are exactly the
    rectangle; an entry already cached (and not stale) keeps its value; each
    missing or stale chunk is generated and drawn exactly once.
   */
  method MakeData<T, S>(w: World<T, S>, cameraX: int, cameraY: int, gen: Key -> T, draw: (Key, T) -> S)
    returns (terrain: map<Key, T>, sprites: map<Key, S>, generated: seq<Key>, drawn: seq<Key>)
    ensures terrain.Keys == RectKeys(Required(cameraX, cameraY))
    ensures sprites.Keys == RectKeys(Required(cameraX, cameraY))
    ensures forall k :: k in terrain ==>
      terrain[k] == if k !in w.terrain || w.scaled then gen(k) else w.terrain[k]
    ensures forall k :: k in sprites ==>
      sprites[k] == if k !in w.sprites || w.scaled then draw(k, terrain[k]) else w.sprites[k]
    ensures Distinct(generated) && Distinct(drawn)
    ensures forall k :: k in generated <==> k in RectKeys(Required(cameraX, cameraY)) && (k !in w.terrain || w.scaled)
    ensures forall k :: k in drawn <==> k in RectKeys(Required(cameraX, cameraY)) && (k !in w.sprites || w.scaled)
    ensures w.scaled ==> |generated| == |RectKeys(Required(cameraX, cameraY))| == |drawn|
  {
    var r := Required(cameraX, cameraY);
    var terrain0 := Evict(w.terrain, r);
    var sprites0 := Evict(w.sprites, r);
    terrain, sprites, generated, drawn := Populate(terrain0, sprites0, w.scaled, r, gen, draw);
    forall k
      ensures k in RectKeys(r) <==> r.Contains(k)
    {
      RectKeysContains(r, k);
    }
    assert terrain.Keys == RectKeys(r);
    assert sprites.Keys == RectKeys(r);
    if w.scaled {
      DistinctLogLength(generated, RectKeys(r));
      DistinctLogLength(drawn, RectKeys(r));
    }
  }

  // ---------------------------------------------------------------------
  // Screen offsets (chunk-map.py lines 158-174)
  // ---------------------------------------------------------------------

  /** `((X - left) * block_size - cameraX % block_size) * PX`, the screen column (or row) of chunk X. */
  function ScreenOffset(X: int, left: int, camera: int): int
  {
    ((X - left) * BlockSize - camera % BlockSize) * PX
  }

  /** Relative to the first visible chunk, the offset is just the chunk's world position minus the camera, upscaled. */
  lemma ScreenOffsetIsWorldOffset(X: int, camera: int)
    ensures ScreenOffset(X, camera / BlockSize, camera) == (X * BlockSize - camera) * PX
  {
  }

  /** The first visible chunk starts at most one chunk width left of the window edge, never right of it. */
  lemma FirstChunkOffsetRange(camera: int)
    ensures -BlockSize * PX < ScreenOffset(camera / BlockSize, camera / BlockSize, camera) <= 0
  {
  }

  /** Neighbouring chunks are drawn exactly one sprite width apart: no gap, no overlap. */
  lemma AdjacentOffsetsAbut(X: int, left: int, camera: int)
    ensures ScreenOffset(X + 1, left, camera) == ScreenOffset(X, left, camera) + SpriteSize
  {
  }

  /** One `screen.blit(sprite, (x, y))` call. */
  datatype Blit<S> = Blit(sprite: S, x: int, y: int)

  /** Looking up a chunk the cache does not hold (a `KeyError` in the source). */
  datatype DrawError = MissingChunk

  /** `draw_to_screen(single=True, Xi, Yi)`: where one chunk's sprite is blitted. */
  function DrawSingle<S>(sprites: map<Key, S>, cameraX: int, cameraY: int, key: Key): (r: Result<Blit<S>, DrawError>)
    ensures r.Success? <==> key in sprites
    ensures r.Success? ==> r.value.x == (key.0 * BlockSize - cameraX) * PX && r.value.y == (key.1 * BlockSize - cameraY) * PX
  {
    var rect := Required(cameraX, cameraY);
    if key !in sprites then Failure(MissingChunk)
    else
      ScreenOffsetIsWorldOffset(key.0, cameraX);
      ScreenOffsetIsWorldOffset(key.1, cameraY);
      Success(Blit(sprites[key], ScreenOffset(key.0, rect.left, cameraX), ScreenOffset(key.1, rect.top, cameraY)))
  }

  /** `draw_to_screen()`: one blit per required chunk; fails if any required sprite is missing. */
  function DrawToScreen<S>(sprites: map<Key, S>, cameraX: int, cameraY: int): (r: Result<map<Key, Blit<S>>, DrawError>)
    ensures r.Success? <==> RectKeys(Required(cameraX, cameraY)) <= sprites.Keys
    ensures r.Success? ==> r.value.Keys == RectKeys(Required(cameraX, cameraY))
    ensures r.Success? ==> forall k :: k in r.value ==> DrawSingle(sprites, cameraX, cameraY, k) == Success(r.value[k])
  {
    var keys := RectKeys(Required(cameraX, cameraY));
    if keys <= sprites.Keys then
      Success(map k | k in keys :: DrawSingle(sprites, cameraX, cameraY, k).value)
    else
      Failure(MissingChunk)
  }

  // ---------------------------------------------------------------------
  // One frame (chunk-map.py lines 220-222)
  // ---------------------------------------------------------------------

  /**
    `make_data(); scaled = False; draw_to_screen()`: after the pass the cache
    holds exactly the required chunks, with the values `make_data` leaves; the
    flag is clear; `generated` and `drawn` log each missing or stale chunk
    once; and the full redraw finds every sprite it needs.
   */
  method Frame<T(==), S(==)>(w: World<T, S>, cameraX: int, cameraY: int, gen: Key -> T, draw: (Key, T) -> S)
    returns (w': World<T, S>, generated: seq<Key>, drawn: seq<Key>, blits: Result<map<Key, Blit<S>>, DrawError>)
    ensures w'.terrain.Keys == w'.sprites.Keys == RectKeys(Required(cameraX, cameraY))
    ensures !w'.scaled
    ensures forall k :: k in w'.terrain ==>
      w'.terrain[k] == if k !in w.terrain || w.scaled then gen(k) else w.terrain[k]
    ensures forall k :: k in w'.sprites ==>
      w'.sprites[k] == if k !in w.sprites || w.scaled then draw(k, w'.terrain[k]) else w.sprites[k]
    ensures Distinct(generated) && Distinct(drawn)
    ensures forall k :: k in generated <==> k in RectKeys(Required(cameraX, cameraY)) && (k !in w.terrain || w.scaled)
    ensures forall k :: k in drawn <==> k in RectKeys(Required(cameraX, cameraY)) && (k !in w.sprites || w.scaled)
    ensures w.scaled ==> |generated| == |RectKeys(Required(cameraX, cameraY))| == |drawn|
    ensures !w.scaled && w.terrain.Keys == w.sprites.Keys == RectKeys(Required(cameraX, cameraY)) ==>
      w' == w && generated == [] && drawn == []
    ensures blits.Success? && blits.value.Keys == RectKeys(Required(cameraX, cameraY))
    ensures blits.Success? ==> forall k :: k in blits.value ==>
      DrawSingle(w'.sprites, cameraX, cameraY, k) == Success(blits.value[k])
  {
    var terrain, sprites;
    terrain, sprites, generated, drawn := MakeData(w, cameraX, cameraY, gen, draw);
    w' := World(terrain, sprites, false);
    if !w.scaled && w.terrain.Keys == w.sprites.Keys == RectKeys(Required(cameraX, cameraY)) {
      assert terrain == w.terrain;
      assert sprites == w.sprites;
      DistinctLogLength(generated, {});
      DistinctLogLength(drawn, {});
    }
    blits := DrawToScreen(sprites, cameraX, cameraY);
  }
}
