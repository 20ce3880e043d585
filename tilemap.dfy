/**
 * The chunked tilemap store: a sparse map from chunk coordinates to
 * fixed 32x32 arrays of tiles, with the conversion of a global tile
 * coordinate into a chunk coordinate and a slot inside that chunk.
 *
 * The chunk coordinate is the global one divided by 32 with Rust's
 * truncating `/`, while the slot wraps negative remainders into [0, 32).
 * The two therefore disagree for negative coordinates that are not a
 * multiple of 32: global -1 and global 31 share chunk 0, slot 31.
 * `AxisRoundTrip` and `NegativeAliasing` state this; `FloorChunk` is the
 * floor-division reference against which it is measured.
 */
module Tilemap {
  import opened Common

  /** TILEMAP_CHUNK_SIZE: the side of a chunk, in tiles. */
  const ChunkSize: int := 32

  /** Number of slots in a chunk's tile array. */
  const TilesPerChunk: int := 1024

  /** An RGBA tint; never inspected by the tilemap logic. */
  datatype Color = Rgba(r: real, g: real, b: real, a: real)

  datatype TileData = TileData(atlasIndex: nat, color: Option<Color>)

  /** `TileData::default()`: atlas entry 0 and no tint. */
  const DefaultTile: TileData := TileData(0, None)

  /** The contents of a freshly created chunk: the default tile in every slot. */
  function DefaultTiles(): (s: seq<TileData>)
    ensures |s| == TilesPerChunk
    ensures forall i :: 0 <= i < |s| ==> s[i] == DefaultTile
  {
    seq(TilesPerChunk, _ => DefaultTile)
  }

  /** The value of a chunk's tile array. */
  type TileArray = s: seq<TileData> | |s| == TilesPerChunk witness DefaultTiles()

  /** The value of the whole store: chunk x, then chunk y, then the tile array. */
  type ChunkMap = map<int, map<int, TileArray>>

  datatype IVec2 = IVec2(x: i32, y: i32)

  datatype UVec2 = UVec2(x: u32, y: u32)

  /** A chunk-coordinate point of `get_chunk_rect`; the source holds it as `f32`. */
  datatype Vec2 = Vec2(x: int, y: int)

  /** An axis-aligned rectangle given by its minimum and maximum corners. */
  datatype Rect = Rect(min: Vec2, max: Vec2)

  /** `TileData::new`: a tile that differs from the default one only in its atlas entry. */
  function NewTile(atlasIndex: nat): (t: TileData)
    ensures t.color == DefaultTile.color
    ensures t == DefaultTile <==> atlasIndex == 0
  {
    TileData(atlasIndex, None)
  }

  // ---------------------------------------------------------------------
  // Coordinate folding
  // ---------------------------------------------------------------------

  /** Rust's `a / 32` on `i32`: the quotient truncated toward zero. */
  function TruncDiv(a: i32): (q: i32)
    ensures 0 <= a ==> 0 <= a - 32 * q < 32
    ensures a < 0 ==> -32 < a - 32 * q <= 0
  {
    var n: int := a;
    if n >= 0 then n / 32 else -((-n) / 32)
  }

  /** Rust's `a % 32` on `i32`: the remainder that goes with `TruncDiv`, signed like `a`. */
  function TruncRem(a: i32): (r: int)
    ensures r == a - 32 * TruncDiv(a)
    ensures 0 <= a ==> 0 <= r < 32
    ensures a < 0 ==> -32 < r <= 0
  {
    var n: int := a;
    if n >= 0 then n % 32 else -((-n) % 32)
  }

  /** One axis of `tilemap_to_chunk_tile`: a negative remainder is moved up by 32. */
  function WrapLocal(a: i32): (l: u32)
    ensures 0 <= l < ChunkSize
  {
    var r := TruncRem(a);
    if r < 0 then ChunkSize + r else r
  }

  /**
   * `TilemapData::tilemap_to_chunk`: both axes divided by 32, truncating, so
   * on each axis the part left over has the sign of the coordinate.
   */
  function TilemapToChunk(loc: IVec2): (c: IVec2)
    ensures 0 <= loc.x ==> 0 <= loc.x - ChunkSize * c.x < ChunkSize
    ensures loc.x < 0 ==> -ChunkSize < loc.x - ChunkSize * c.x <= 0
    ensures 0 <= loc.y ==> 0 <= loc.y - ChunkSize * c.y < ChunkSize
    ensures loc.y < 0 ==> -ChunkSize < loc.y - ChunkSize * c.y <= 0
  {
    IVec2(TruncDiv(loc.x), TruncDiv(loc.y))
  }

  /** `ChunkData::tilemap_to_chunk_tile`: the slot inside the chunk, in [0, 32) on both axes. */
  function TilemapToChunkTile(loc: IVec2): (l: UVec2)
    ensures l.x < ChunkSize && l.y < ChunkSize
  {
    UVec2(WrapLocal(loc.x), WrapLocal(loc.y))
  }

  /** `ChunkData::tile_index_at`: the flat slot of local (x, y), inside the array for a local coordinate. */
  function TileIndexAt(x: u32, y: u32): (i: nat)
    ensures x < ChunkSize && y < ChunkSize ==> i < TilesPerChunk
  {
    y + x * ChunkSize
  }

  /** Floor division by 32: the chunk a coordinate would belong to if chunks tiled the axis without overlap. */
  function FloorChunk(g: int): (c: int)
    ensures 32 * c <= g < 32 * c + 32
  {
    g / 32
  }

  /** The local slot is the Euclidean residue of the global coordinate. */
  lemma WrapLocalIsResidue(g: i32)
    ensures WrapLocal(g) == g % 32
  {
  }

  /** Both local coordinates are the Euclidean residues of the global ones. */
  lemma ChunkTileIsResidue(loc: IVec2)
    ensures TilemapToChunkTile(loc) == UVec2(loc.x % ChunkSize, loc.y % ChunkSize)
  {
    WrapLocalIsResidue(loc.x);
    WrapLocalIsResidue(loc.y);
  }

  /** Inside a chunk the flat slot decodes back to the local coordinate: x is the quotient, y the remainder. */
  lemma TileIndexDecode(x: u32, y: u32)
    requires x < ChunkSize && y < ChunkSize
    ensures TileIndexAt(x, y) / ChunkSize == x && TileIndexAt(x, y) % ChunkSize == y
  {
  }

  /** With the floor reference, chunk and slot always reassemble the global coordinate. */
  lemma FloorRoundTrip(g: i32)
    ensures 32 * FloorChunk(g) + WrapLocal(g) == g
  {
  }

  /**
   * With the truncating chunk division of the source, chunk and slot
   * reassemble the global coordinate only when it is non-negative or a
   * multiple of 32; any other negative coordinate comes back 32 too high.
   */
  lemma {:induction false} AxisRoundTrip(g: i32)
    ensures 32 * TruncDiv(g) + WrapLocal(g) == (if g >= 0 || g % 32 == 0 then g else g + 32)
    ensures 32 * TruncDiv(g) + WrapLocal(g) == g <==> g >= 0 || g % 32 == 0
  {
    var r := TruncRem(g);
    if r < 0 {
      assert WrapLocal(g) == 32 + r;
    } else if g < 0 {
      assert g == 32 * TruncDiv(g);
    }
  }

  /** The truncating chunk agrees with the floor reference exactly on non-negative coordinates and on multiples of 32. */
  lemma {:induction false} TruncMatchesFloorIff(g: i32)
    ensures TruncDiv(g) == FloorChunk(g) <==> g >= 0 || g % 32 == 0
  {
    FloorRoundTrip(g);
    AxisRoundTrip(g);
  }

  /**
   * Every negative coordinate -k with 0 < k < 32 lands in the same chunk and
   * the same slot as the positive coordinate 32 - k: two tiles of the map share
   * one slot.
   */
  lemma NegativeAliasing(k: int)
    requires 0 < k < 32
    ensures TruncDiv(-k) == TruncDiv(32 - k) == 0
    ensures WrapLocal(-k) == WrapLocal(32 - k) == 32 - k
  {
  }

  /** The two coordinates of the module's own test: (40, 45) and (-1, -5). */
  lemma LocationTestVectors()
    ensures TilemapToChunkTile(IVec2(40, 45)) == UVec2(8, 13)
    ensures TilemapToChunkTile(IVec2(-1, -5)) == UVec2(31, 27)
    ensures TilemapToChunk(IVec2(-1, 0)) == TilemapToChunk(IVec2(31, 0)) == IVec2(0, 0)
    ensures TilemapToChunkTile(IVec2(-1, 0)) == TilemapToChunkTile(IVec2(31, 0)) == UVec2(31, 0)
  {
  }

  /** Distinct local coordinates inside a chunk use distinct slots. */
  lemma TileIndexInjective(x: u32, y: u32, x': u32, y': u32)
    requires x < ChunkSize && y < ChunkSize && x' < ChunkSize && y' < ChunkSize
    requires TileIndexAt(x, y) == TileIndexAt(x', y')
    ensures x == x' && y == y'
  {
    TileIndexDecode(x, y);
    TileIndexDecode(x', y');
  }

  // ---------------------------------------------------------------------
  // The store, as a value
  // ---------------------------------------------------------------------

  /** The slot of the store that global coordinate `loc` is written to. */
  function SlotOf(loc: IVec2): (i: nat)
    ensures i < TilesPerChunk
  {
    var l := TilemapToChunkTile(loc);
    TileIndexAt(l.x, l.y)
  }

  /**
   * The value of the store after `set_tile(loc, tile)`: the chunk column and
   * the chunk are created when absent, a created chunk holds default tiles,
   * and exactly one slot is overwritten (`StoredSpec`).
   */
  function Stored(m: ChunkMap, loc: IVec2, tile: TileData): ChunkMap
  {
    m[TilemapToChunk(loc).x := StoredInColumn(ColumnOrEmpty(m, TilemapToChunk(loc).x), TilemapToChunk(loc).y, SlotOf(loc), tile)]
  }

  /**
   * `Stored` is the two steps of `set_tile`: the entry for the chunk is made
   * (a default chunk when absent), then its slot is overwritten.
   */
  lemma StoredInTwoSteps(m: ChunkMap, loc: IVec2, tile: TileData)
    ensures var c := TilemapToChunk(loc);
      var entered := m[c.x := ColumnOrEmpty(m, c.x)[c.y := ChunkOrDefault(ColumnOrEmpty(m, c.x), c.y)]];
      Stored(m, loc, tile) == entered[c.x := entered[c.x][c.y := entered[c.x][c.y][SlotOf(loc) := tile]]]
  {
    var c := TilemapToChunk(loc);
    var column := ColumnOrEmpty(m, c.x);
    var chunk: TileArray := ChunkOrDefault(column, c.y)[SlotOf(loc) := tile];
    var entered: ChunkMap := m[c.x := column[c.y := ChunkOrDefault(column, c.y)]];
    var enteredColumn: map<int, TileArray> := entered[c.x];
    assert enteredColumn[c.y := chunk] == column[c.y := chunk];
  }

  /** What `Stored` keeps, creates and overwrites. */
  lemma StoredSpec(m: ChunkMap, loc: IVec2, tile: TileData)
    ensures var r, c := Stored(m, loc, tile), TilemapToChunk(loc);
      && r.Keys == m.Keys + {c.x}
      && r[c.x].Keys == ColumnOrEmpty(m, c.x).Keys + {c.y}
      && r[c.x][c.y][SlotOf(loc)] == tile
      && (forall i :: 0 <= i < TilesPerChunk && i != SlotOf(loc) ==>
            r[c.x][c.y][i] == (if c.x in m && c.y in m[c.x] then m[c.x][c.y][i] else DefaultTile))
      && (forall x, y :: x in m && y in m[x] && (x != c.x || y != c.y) ==>
            x in r && y in r[x] && r[x][y] == m[x][y])
  {
  }

  /** The tile a store holds for global coordinate `loc`: `get_chunk` followed by `get_tile`. */
  function TileAt(m: ChunkMap, loc: IVec2): (r: Option<TileData>)
    ensures var c := TilemapToChunk(loc);
      r.Some? <==> c.x in m && c.y in m[c.x]
    ensures var c := TilemapToChunk(loc);
      r.Some? ==> r.value == m[c.x][c.y][ChunkSize * (loc.x % ChunkSize) + loc.y % ChunkSize]
  {
    var c := TilemapToChunk(loc);
    ChunkTileIsResidue(loc);
    if c.x in m && c.y in m[c.x] then Some(m[c.x][c.y][SlotOf(loc)]) else None
  }

  /**
   * Reading back after `set_tile`: the written coordinate yields the tile; a
   * coordinate in another chunk or another slot reads as before, or as the
   * default tile when its chunk was the one just created.
   */
  lemma {:induction false} StoredReadBack(m: ChunkMap, loc: IVec2, tile: TileData, other: IVec2)
    ensures TileAt(Stored(m, loc, tile), loc) == Some(tile)
    ensures TilemapToChunk(other) != TilemapToChunk(loc) ==>
      TileAt(Stored(m, loc, tile), other) == TileAt(m, other)
    ensures TilemapToChunk(other) == TilemapToChunk(loc) && SlotOf(other) != SlotOf(loc) ==>
      TileAt(Stored(m, loc, tile), other) == Some(if TileAt(m, other).Some? then TileAt(m, other).value else DefaultTile)
  {
    StoredSpec(m, loc, tile);
  }

  /**
   * Writing global (-1, 0) overwrites the tile that global (31, 0) reads: the
   * two coordinates share chunk (0, 0) and slot 992.
   */
  lemma {:induction false} AliasedWrite(m: ChunkMap, tile: TileData)
    ensures TileAt(Stored(m, IVec2(-1, 0), tile), IVec2(31, 0)) == Some(tile)
  {
    LocationTestVectors();
    StoredReadBack(m, IVec2(-1, 0), tile, IVec2(-1, 0));
  }

  /** Chunk key (x, y) lies inside `r`, edges included. */
  predicate Within(r: Rect, x: int, y: int)
  {
    r.min.x <= x <= r.max.x && r.min.y <= y <= r.max.y
  }

  /** `v` is 0 or the x key of a stored chunk. */
  ghost predicate ColumnReached<T>(chunks: map<int, map<int, T>>, v: int)
  {
    v == 0 || exists y :: v in chunks && y in chunks[v]
  }

  /** `v` is 0 or the y key of a stored chunk. */
  ghost predicate RowReached<T>(chunks: map<int, map<int, T>>, v: int)
  {
    v == 0 || exists x :: x in chunks && v in chunks[x]
  }

  /** Corners that hold the origin and whose every coordinate is 0 or reached by a stored chunk. */
  ghost predicate Anchored<T>(chunks: map<int, map<int, T>>, lo: Vec2, hi: Vec2)
  {
    && lo.x <= 0 <= hi.x && lo.y <= 0 <= hi.y
    && ColumnReached(chunks, lo.x) && ColumnReached(chunks, hi.x)
    && RowReached(chunks, lo.y) && RowReached(chunks, hi.y)
  }

  /**
   * The inner loop of `TilemapData::get_chunk_rect` over column `x`: the
   * corners only widen, stay anchored, and end up enclosing every chunk of
   * the column.
   */
  method WidenToColumn<T>(chunks: map<int, map<int, T>>, x: int, lo: Vec2, hi: Vec2) returns (lo': Vec2, hi': Vec2)
    requires x in chunks && Anchored(chunks, lo, hi)
    ensures Anchored(chunks, lo', hi')
    ensures lo'.x <= lo.x && lo'.y <= lo.y && hi.x <= hi'.x && hi.y <= hi'.y
    ensures forall y :: y in chunks[x] ==> Within(Rect(lo', hi'), x, y)
  {
    lo', hi' := lo, hi;
    var rows := chunks[x].Keys;
    while rows != {}
      invariant rows <= chunks[x].Keys
      invariant Anchored(chunks, lo', hi')
      invariant lo'.x <= lo.x && lo'.y <= lo.y && hi.x <= hi'.x && hi.y <= hi'.y
      invariant forall y :: y in chunks[x] && y !in rows ==> Within(Rect(lo', hi'), x, y)
      decreases rows
    {
      var y := PickKey(rows);
      assert ColumnReached(chunks, x) && RowReached(chunks, y);
      lo' := Vec2(if x < lo'.x then x else lo'.x, if y < lo'.y then y else lo'.y);
      hi' := Vec2(if x > hi'.x then x else hi'.x, if y > hi'.y then y else hi'.y);
      rows := rows - {y};
    }
  }

  /** `Rect::from_corners`: the componentwise minimum and maximum of two corners. */
  function FromCorners(p: Vec2, q: Vec2): (r: Rect)
    ensures r.min.x <= r.max.x && r.min.y <= r.max.y
    ensures (r.min.x == p.x && r.max.x == q.x) || (r.min.x == q.x && r.max.x == p.x)
    ensures (r.min.y == p.y && r.max.y == q.y) || (r.min.y == q.y && r.max.y == p.y)
  {
    Rect(Vec2(if p.x <= q.x then p.x else q.x, if p.y <= q.y then p.y else q.y),
         Vec2(if p.x <= q.x then q.x else p.x, if p.y <= q.y then q.y else p.y))
  }

  /** `entry(x).or_default()` on an outer map, read-only. */
  function ColumnOrEmpty<T>(m: map<int, map<int, T>>, x: int): map<int, T>
  {
    if x in m then m[x] else map[]
  }

  /** The column after its chunk `y` (created when absent) had slot `i` overwritten. */
  function StoredInColumn(column: map<int, TileArray>, y: int, i: nat, tile: TileData): map<int, TileArray>
    requires i < TilesPerChunk
  {
    column[y := ChunkOrDefault(column, y)[i := tile]]
  }

  /** `entry(y).or_insert_with(ChunkData::new)` on a column, read-only. */
  function ChunkOrDefault(column: map<int, TileArray>, y: int): TileArray
  {
    if y in column then column[y] else DefaultTiles()
  }

  // ---------------------------------------------------------------------
  // The store, as objects
  // ---------------------------------------------------------------------

  /** One chunk: a fixed array of 1024 tiles, written in place. */
  class ChunkData {
    const tiles: array<TileData>

    ghost predicate Valid()
    {
      tiles.Length == TilesPerChunk
    }

    /** `ChunkData::new`: every slot holds the default tile. */
    constructor ()
      ensures Valid() && fresh(tiles)
      ensures tiles[..] == DefaultTiles()
    {
      tiles := new TileData[TilesPerChunk](_ => DefaultTile);
    }

    /** `ChunkData::get_tile_at`; indexing past the array panics in the source. */
    function GetTileAt(x: u32, y: u32): (t: TileData)
      requires Valid()
      requires TileIndexAt(x, y) < TilesPerChunk
      reads tiles
      ensures x < ChunkSize && y < ChunkSize ==> t == tiles[..][TileIndexAt(x, y)]
    {
      tiles[TileIndexAt(x, y)]
    }

    /** `ChunkData::set_tile_at`: one slot is overwritten, the other 1023 keep their tiles. */
    method SetTileAt(x: u32, y: u32, tile: TileData)
      requires Valid()
      requires TileIndexAt(x, y) < TilesPerChunk
      modifies tiles
      ensures GetTileAt(x, y) == tile
      ensures tiles[..] == old(tiles[..])[TileIndexAt(x, y) := tile]
      ensures x < ChunkSize && y < ChunkSize ==>
        forall x': u32, y': u32 :: x' < ChunkSize && y' < ChunkSize && (x' != x || y' != y) ==>
          GetTileAt(x', y') == old(GetTileAt(x', y'))
    {
      tiles[TileIndexAt(x, y)] := tile;
      forall x': u32, y': u32 | x < ChunkSize && y < ChunkSize && x' < ChunkSize && y' < ChunkSize && (x' != x || y' != y)
        ensures TileIndexAt(x', y') != TileIndexAt(x, y)
      {
        if TileIndexAt(x', y') == TileIndexAt(x, y) {
          TileIndexInjective(x, y, x', y');
        }
      }
    }
  }

  /** The chunk objects and the store's value have the same column and chunk keys. */
  ghost predicate SameShape(chunks: map<int, map<int, ChunkData>>, tiles: ChunkMap)
  {
    && (forall x :: x in chunks <==> x in tiles)
    && (forall x, y :: x in chunks ==> (y in chunks[x] <==> y in tiles[x]))
  }

  /** Adding chunk (x, y) to both maps keeps their keys in step. */
  lemma InsertKeepsShape(chunks: map<int, map<int, ChunkData>>, tiles: ChunkMap,
                         x: int, y: int, chunk: ChunkData, contents: TileArray)
    requires SameShape(chunks, tiles)
    ensures SameShape(chunks[x := ColumnOrEmpty(chunks, x)[y := chunk]],
                      tiles[x := ColumnOrEmpty(tiles, x)[y := contents]])
  {
  }

  /**
   * Every chunk object stored at (x, y) has a 1024-tile array, listed in
   * `repr`, owned by (x, y), whose value is the store's entry (x, y).
   */
  ghost predicate AllHold(chunks: map<int, map<int, ChunkData>>, tiles: ChunkMap,
                          repr: set<array<TileData>>, owner: map<array<TileData>, Vec2>)
    reads repr
  {
    forall x, y :: x in chunks && y in chunks[x] ==>
      && x in tiles && y in tiles[x]
      && chunks[x][y].tiles in repr
      && chunks[x][y].Valid()
      && chunks[x][y].tiles in owner
      && owner[chunks[x][y].tiles] == Vec2(x, y)
      && chunks[x][y].tiles[..] == tiles[x][y]
  }

  /** Adding a chunk with a fresh array keeps every stored chunk in agreement with the store. */
  lemma InsertKeepsHolding(chunks: map<int, map<int, ChunkData>>, tiles: ChunkMap,
                           repr: set<array<TileData>>, owner: map<array<TileData>, Vec2>,
                           x: int, y: int, chunk: ChunkData)
    requires AllHold(chunks, tiles, repr, owner)
    requires chunk.Valid() && chunk.tiles !in repr
    ensures AllHold(chunks[x := ColumnOrEmpty(chunks, x)[y := chunk]],
                    tiles[x := ColumnOrEmpty(tiles, x)[y := chunk.tiles[..]]],
                    repr + {chunk.tiles}, owner[chunk.tiles := Vec2(x, y)])
  {
    var chunks', tiles' := chunks[x := ColumnOrEmpty(chunks, x)[y := chunk]], tiles[x := ColumnOrEmpty(tiles, x)[y := chunk.tiles[..]]];
    forall x', y' | x' in chunks' && y' in chunks'[x'] && (x' != x || y' != y)
      ensures chunks'[x'][y'] == chunks[x'][y'] && tiles'[x'][y'] == tiles[x'][y']
    {
    }
  }

  /** The sparse store of chunks. */
  class TilemapData {
    var chunks: map<int, map<int, ChunkData>>
    /** The value of the store: the contents of every chunk, by chunk x and chunk y. */
    ghost var Tiles: ChunkMap
    /** The tile arrays of the stored chunks. */
    ghost var Repr: set<array<TileData>>
    /** The chunk coordinate each tile array belongs to; no array is shared by two chunks. */
    ghost var Owner: map<array<TileData>, Vec2>

    ghost predicate Valid()
      reads this, Repr
    {
      SameShape(chunks, Tiles) && AllHold(chunks, Tiles, Repr, Owner)
    }

    /** `TilemapData::new`: no chunk at all. */
    constructor ()
      ensures Valid() && Repr == {}
      ensures Tiles == map[]
    {
      chunks := map[];
      Tiles := map[];
      Repr := {};
      Owner := map[];
    }

    /** `TilemapData::get_chunk`: absent unless both the column and the chunk exist; never inserts. */
    function GetChunk(loc: IVec2): (r: Option<ChunkData>)
      requires Valid()
      reads this, Repr
      ensures r.Some? <==> loc.x in Tiles && loc.y in Tiles[loc.x]
      ensures r.Some? ==> r.value.Valid() && r.value.tiles in Repr && r.value.tiles[..] == Tiles[loc.x][loc.y]
    {
      if loc.x in chunks && loc.y in chunks[loc.x] then Some(chunks[loc.x][loc.y]) else None
    }

    /**
     * `chunks.entry(x).or_default().entry(y).or_insert_with(ChunkData::new)`:
     * the chunk at (x, y), created with default tiles when absent.
     */
    method ChunkEntry(x: int, y: int) returns (chunk: ChunkData)
      requires Valid()
      modifies this
      ensures Valid() && fresh(Repr - old(Repr))
      ensures x in chunks && y in chunks[x] && chunk == chunks[x][y]
      ensures Tiles == old(Tiles)[x := ColumnOrEmpty(old(Tiles), x)[y := ChunkOrDefault(ColumnOrEmpty(old(Tiles), x), y)]]
    {
      if x in chunks && y in chunks[x] {
        chunk := chunks[x][y];
        assert Tiles[x][y := Tiles[x][y]] == Tiles[x];
      } else {
        chunk := InsertChunk(x, y);
      }
    }

    /** `or_insert_with(ChunkData::new)` when chunk (x, y) is absent: a fresh default chunk is stored there. */
    method InsertChunk(x: int, y: int) returns (chunk: ChunkData)
      requires Valid() && !(x in chunks && y in chunks[x])
      modifies this
      ensures Valid() && fresh(Repr - old(Repr))
      ensures x in chunks && y in chunks[x] && chunk == chunks[x][y]
      ensures Tiles == old(Tiles)[x := ColumnOrEmpty(old(Tiles), x)[y := DefaultTiles()]]
    {
      chunk := new ChunkData();
      InsertKeepsShape(chunks, Tiles, x, y, chunk, chunk.tiles[..]);
      InsertKeepsHolding(chunks, Tiles, Repr, Owner, x, y, chunk);
      chunks, Tiles, Repr, Owner :=
        chunks[x := ColumnOrEmpty(chunks, x)[y := chunk]],
        Tiles[x := ColumnOrEmpty(Tiles, x)[y := chunk.tiles[..]]],
        Repr + {chunk.tiles},
        Owner[chunk.tiles := Vec2(x, y)];
    }

    /**
     * `ChunkData::set_tile` on the stored chunk (x, y): one slot of that
     * chunk is overwritten and every other chunk keeps its tiles.
     */
    method WriteSlot(x: int, y: int, local: UVec2, tile: TileData)
      requires Valid() && x in chunks && y in chunks[x]
      requires local.x < ChunkSize && local.y < ChunkSize
      modifies this, Repr
      ensures Valid() && Repr == old(Repr)
      ensures Tiles == old(Tiles)[x := old(Tiles)[x][y := old(Tiles)[x][y][TileIndexAt(local.x, local.y) := tile]]]
    {
      var chunk := chunks[x][y];
      chunk.SetTileAt(local.x, local.y, tile);
      Tiles := Tiles[x := Tiles[x][y := chunk.tiles[..]]];
      forall x', y' | x' in chunks && y' in chunks[x'] && (x' != x || y' != y)
        ensures chunks[x'][y'].tiles[..] == Tiles[x'][y']
      {
        assert chunks[x'][y'].tiles != chunk.tiles;
      }
    }

    /** `TilemapData::set_tile`: the store afterwards is `Stored` of the store before. */
    method SetTile(loc: IVec2, tile: TileData)
      requires Valid()
      modifies this, Repr
      ensures Valid() && fresh(Repr - old(Repr))
      ensures Tiles == Stored(old(Tiles), loc, tile)
    {
      var c := TilemapToChunk(loc);
      var l := TilemapToChunkTile(loc);
      var _ := ChunkEntry(c.x, c.y);
      WriteSlot(c.x, c.y, l, tile);
      StoredInTwoSteps(old(Tiles), loc, tile);
    }

    /**
     * `TilemapData::get_chunk_rect`: both corners start at the origin and are
     * widened to every (column, chunk) key, so the rectangle holds the origin
     * and every stored chunk, and each side is 0 or reached by a stored chunk.
     */
    method GetChunkRect() returns (r: Rect)
      ensures r.min.x <= 0 <= r.max.x && r.min.y <= 0 <= r.max.y
      ensures forall x, y :: x in chunks && y in chunks[x] ==> Within(r, x, y)
      ensures ColumnReached(chunks, r.min.x) && ColumnReached(chunks, r.max.x)
      ensures RowReached(chunks, r.min.y) && RowReached(chunks, r.max.y)
    {
      var stored := chunks;
      var lo, hi := Vec2(0, 0), Vec2(0, 0);
      var columns := stored.Keys;
      while columns != {}
        invariant columns <= stored.Keys
        invariant Anchored(stored, lo, hi)
        invariant forall x, y :: x in stored && x !in columns && y in stored[x] ==> Within(Rect(lo, hi), x, y)
        decreases columns
      {
        var x := PickKey(columns);
        lo, hi := WidenToColumn(stored, x, lo, hi);
        columns := columns - {x};
      }
      r := FromCorners(lo, hi);
    }
  }
}
