/**
 * `RandomTilemapGenerator::generate`: a 21 x 21 square of tiles around the
 * origin, written row by row into a fresh tilemap. The noise sample that
 * picks each tile's atlas entry is a parameter of the model.
 *
 * With the truncating chunk division every coordinate of the square lies in
 * chunk (0, 0); local slots 0..10 receive global 0..10 and local slots
 * 22..31 receive global -10..-1, so no two calls share a slot.
 */
module Generator {
  import opened Common
  import opened Tilemap

  /** The square spans [-Radius, Radius] on both axes. */
  const Radius: int := 10

  /** Coordinates per axis. */
  const Side: int := 21

  /** Number of `set_tile` calls. */
  const Calls: int := 441

  /**
   * The atlas entry chosen for global tile (x, y): `(|noise(x/100, y/100)| * 5) as u16`
   * in the source, where the noise generator is seeded randomly.
   */
  type Sampler = (int, int) -> u16

  predicate InSquare(g: int)
  {
    -Radius <= g <= Radius
  }

  /** How many calls come before the one that writes (x, y): rows outer, columns inner. */
  function CallIndex(x: int, y: int): (k: int)
    ensures InSquare(x) && InSquare(y) ==> 0 <= k < Calls
  {
    (y + Radius) * Side + (x + Radius)
  }

  /** The global coordinate the square writes to a local coordinate of chunk (0, 0). */
  function GlobalOf(l: int): int
  {
    if l <= Radius then l else l - ChunkSize
  }

  /** Slot `i` of chunk (0, 0) once the first `k` calls have run. */
  function Cell(sample: Sampler, k: int, i: int): TileData
  {
    var gx, gy := GlobalOf(i / ChunkSize), GlobalOf(i % ChunkSize);
    if InSquare(gx) && InSquare(gy) && CallIndex(gx, gy) < k then NewTile(sample(gx, gy)) else DefaultTile
  }

  /** Chunk (0, 0) once the first `k` calls have run. */
  function PartialChunk(sample: Sampler, k: int): TileArray
  {
    seq(TilesPerChunk, i => Cell(sample, k, i))
  }

  /** Chunk (0, 0) once the generator has finished. */
  function GeneratedChunk(sample: Sampler): TileArray
  {
    PartialChunk(sample, Calls)
  }

  /** The whole store once the first `k` calls have run. */
  function StoreAfter(sample: Sampler, k: int): ChunkMap
  {
    if k <= 0 then map[] else map[0 := map[0 := PartialChunk(sample, k)]]
  }

  /** Every coordinate of the square lies in chunk (0, 0), and its slot decodes back to it. */
  lemma SquareSlot(x: i32, y: i32)
    requires InSquare(x) && InSquare(y)
    ensures TilemapToChunk(IVec2(x, y)) == IVec2(0, 0)
    ensures GlobalOf(SlotOf(IVec2(x, y)) / ChunkSize) == x
    ensures GlobalOf(SlotOf(IVec2(x, y)) % ChunkSize) == y
  {
    WrapLocalIsResidue(x);
    WrapLocalIsResidue(y);
  }

  /** Distinct coordinates of the square are written by distinct calls. */
  lemma CallIndexInjective(x: int, y: int, x': int, y': int)
    requires InSquare(x) && InSquare(y) && InSquare(x') && InSquare(y')
    ensures CallIndex(x, y) == CallIndex(x', y') ==> x == x' && y == y'
  {
    if CallIndex(x, y) == CallIndex(x', y') {
      assert CallIndex(x, y) / Side == y + Radius;
      assert CallIndex(x', y') / Side == y' + Radius;
    }
  }

  /** Folding the global coordinate of a local one gives the local one back. */
  lemma LocalOfGlobal(l: int)
    requires 0 <= l < ChunkSize && InSquare(GlobalOf(l))
    ensures WrapLocal(GlobalOf(l)) == l
  {
    WrapLocalIsResidue(GlobalOf(l));
  }

  /** A slot whose decoded coordinates lie in the square is the slot of those coordinates. */
  lemma SlotOfDecoded(i: int)
    requires 0 <= i < TilesPerChunk
    requires InSquare(GlobalOf(i / ChunkSize)) && InSquare(GlobalOf(i % ChunkSize))
    ensures SlotOf(IVec2(GlobalOf(i / ChunkSize), GlobalOf(i % ChunkSize))) == i
  {
    var lx, ly := i / ChunkSize, i % ChunkSize;
    LocalOfGlobal(lx);
    LocalOfGlobal(ly);
    assert TilemapToChunkTile(IVec2(GlobalOf(lx), GlobalOf(ly))) == UVec2(lx, ly);
    assert i == ly + lx * ChunkSize;
  }

  /** In chunk (0, 0), call `k` writes exactly the slot of (x, y). */
  lemma {:induction false} StepChunk(sample: Sampler, x: i32, y: i32)
    requires InSquare(x) && InSquare(y)
    ensures PartialChunk(sample, CallIndex(x, y))[SlotOf(IVec2(x, y)) := NewTile(sample(x, y))]
         == PartialChunk(sample, CallIndex(x, y) + 1)
  {
    var k := CallIndex(x, y);
    var s := SlotOf(IVec2(x, y));
    SquareSlot(x, y);
    var after := PartialChunk(sample, k)[s := NewTile(sample(x, y))];
    var next := PartialChunk(sample, k + 1);
    forall i | 0 <= i < TilesPerChunk
      ensures after[i] == next[i]
    {
      var gx, gy := GlobalOf(i / ChunkSize), GlobalOf(i % ChunkSize);
      if i != s && InSquare(gx) && InSquare(gy) {
        SlotOfDecoded(i);
        CallIndexInjective(gx, gy, x, y);
      }
    }
  }

  /** One call of the loop body turns the store after `k` calls into the store after `k + 1`. */
  lemma {:induction false} Step(sample: Sampler, x: i32, y: i32)
    requires InSquare(x) && InSquare(y)
    ensures Stored(StoreAfter(sample, CallIndex(x, y)), IVec2(x, y), NewTile(sample(x, y)))
         == StoreAfter(sample, CallIndex(x, y) + 1)
  {
    var k := CallIndex(x, y);
    SquareSlot(x, y);
    StepChunk(sample, x, y);
    var column := ColumnOrEmpty(StoreAfter(sample, k), 0);
    assert ChunkOrDefault(column, 0) == PartialChunk(sample, k);
    assert StoredInColumn(column, 0, SlotOf(IVec2(x, y)), NewTile(sample(x, y))) == map[0 := PartialChunk(sample, k + 1)];
  }

  /**
   * The store just before the call for (x, y), obtained by replaying every
   * earlier call through `Stored`: rows below `y` in full, then the columns of
   * row `y` left of `x`. Column `Radius + 1` stands for "row `y` finished".
   */
  function Replay(sample: Sampler, x: int, y: int): ChunkMap
    requires -Radius <= x <= Radius + 1 && -Radius <= y <= Radius + 1
    requires y <= Radius || x == -Radius
    decreases y + Radius, x + Radius
  {
    if x == -Radius && y == -Radius then map[]
    else if x == -Radius then Replay(sample, Radius + 1, y - 1)
    else Stored(Replay(sample, x - 1, y), IVec2(x - 1, y), NewTile(sample(x - 1, y)))
  }

  /** Replaying the calls builds exactly the closed form `StoreAfter`. */
  lemma {:induction false} ReplayMatches(sample: Sampler, x: int, y: int)
    requires -Radius <= x <= Radius + 1 && -Radius <= y <= Radius + 1
    requires y <= Radius || x == -Radius
    ensures Replay(sample, x, y) == StoreAfter(sample, CallIndex(x, y))
    decreases y + Radius, x + Radius
  {
    if x == -Radius && y == -Radius {
    } else if x == -Radius {
      ReplayMatches(sample, Radius + 1, y - 1);
      assert CallIndex(Radius + 1, y - 1) == CallIndex(x, y);
    } else {
      ReplayMatches(sample, x - 1, y);
      ReplayStep(sample, x, y);
    }
  }

  /** Replaying the call for (x - 1, y) on top of the closed form after its predecessors gives the closed form again. */
  lemma {:induction false} ReplayStep(sample: Sampler, x: int, y: int)
    requires -Radius < x <= Radius + 1 && InSquare(y)
    requires Replay(sample, x - 1, y) == StoreAfter(sample, CallIndex(x - 1, y))
    ensures Replay(sample, x, y) == StoreAfter(sample, CallIndex(x, y))
  {
    ReplayColumn(sample, x - 1, y);
    Step(sample, x - 1, y);
    assert CallIndex(x - 1, y) + 1 == CallIndex(x, y);
  }

  /**
   * `RandomTilemapGenerator::generate`: 441 `set_tile` calls leave exactly one
   * chunk, (0, 0), holding `GeneratedChunk`; `TilemapBundle::make` unwraps
   * that chunk.
   */
  method Generate(sample: Sampler) returns (tilemap: TilemapData)
    ensures fresh(tilemap) && tilemap.Valid()
    ensures tilemap.Tiles == map[0 := map[0 := GeneratedChunk(sample)]]
    ensures tilemap.GetChunk(IVec2(0, 0)).Some?
  {
    tilemap := new TilemapData();
    for y := -Radius to Radius + 1
      invariant fresh(tilemap) && fresh(tilemap.Repr) && tilemap.Valid()
      invariant tilemap.Tiles == Replay(sample, -Radius, y)
    {
      WriteRow(tilemap, sample, y);
    }
    ReplayMatches(sample, -Radius, Radius + 1);
  }

  /** One pass of the inner loop: row `y` of the square, columns -10 to 10 in order. */
  method WriteRow(tilemap: TilemapData, sample: Sampler, y: i32)
    requires InSquare(y) && tilemap.Valid()
    requires tilemap.Tiles == Replay(sample, -Radius, y)
    modifies tilemap, tilemap.Repr
    ensures tilemap.Valid() && fresh(tilemap.Repr - old(tilemap.Repr))
    ensures tilemap.Tiles == Replay(sample, -Radius, y + 1)
  {
    for x := -Radius to Radius + 1
      invariant tilemap.Valid() && fresh(tilemap.Repr - old(tilemap.Repr))
      invariant tilemap.Tiles == Replay(sample, x, y)
    {
      ReplayColumn(sample, x, y);
      tilemap.SetTile(IVec2(x, y), NewTile(sample(x, y)));
    }
  }

  /** The call for (x, y) extends the replay up to it by one `Stored`. */
  lemma ReplayColumn(sample: Sampler, x: int, y: int)
    requires InSquare(x) && InSquare(y)
    ensures Replay(sample, x + 1, y) == Stored(Replay(sample, x, y), IVec2(x, y), NewTile(sample(x, y)))
  {
  }

  /** Every generated coordinate reads back the tile written for it: no call overwrote another. */
  lemma {:induction false} GeneratedReadBack(sample: Sampler, x: i32, y: i32)
    requires InSquare(x) && InSquare(y)
    ensures TileAt(map[0 := map[0 := GeneratedChunk(sample)]], IVec2(x, y)) == Some(NewTile(sample(x, y)))
  {
    SquareSlot(x, y);
  }

  /** Slots whose local x or local y lies in 11..21 are never written and keep the default tile. */
  lemma {:induction false} UnwrittenSlotsDefault(sample: Sampler, i: int)
    requires 0 <= i < TilesPerChunk
    requires Radius < i / ChunkSize < ChunkSize - Radius || Radius < i % ChunkSize < ChunkSize - Radius
    ensures GeneratedChunk(sample)[i] == DefaultTile
  {
  }
}
