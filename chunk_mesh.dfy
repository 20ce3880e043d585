/**
 * `make_chunk_mesh`: one chunk becomes a triangle list. The loop visits the
 * 32 x 32 tiles row by row (y outer, x inner) and, per tile, appends the
 * four corners of a unit quad, the four texture coordinates of the tile's
 * atlas rectangle, and six indices forming two triangles, offset by a
 * running vertex stride.
 *
 * Vertex positions are small whole numbers and are modelled exactly. The
 * division of an atlas rectangle by the texture size is floating point and
 * is a parameter (`Normalize`) of the model.
 */
module ChunkMesh {
  import opened Common
  import opened Tilemap

  /** A position attribute `[x, y, z]`. */
  datatype Vertex = Vertex(x: int, y: int, z: int)

  /** A 2-D point with real coordinates (an atlas corner or a texture coordinate). */
  datatype Point = Point(x: real, y: real)

  /** A sub-rectangle of the texture atlas, in texels. */
  datatype AtlasRect = AtlasRect(min: Point, max: Point)

  /** Division of a texel position by the texture size. */
  type Normalize = Point -> Point

  /** The three attribute buffers handed to the mesh. */
  datatype Mesh = Mesh(positions: seq<Vertex>, uvs: seq<Point>, indices: seq<int>)

  /** `QUAD_VERTEX_POSITIONS`: the corners of the unit square, counter-clockwise from the origin. */
  const QuadVertexPositions: seq<(int, int)> := [(0, 0), (1, 0), (1, 1), (0, 1)]

  /** `QUAD_INDICES`: two triangles over the quad's corners. */
  const QuadIndices: seq<int> := [0, 2, 3, 0, 1, 2]

  /** The tile the loop visits at step `k`: column `k % 32` of row `k / 32`. */
  function VisitX(k: nat): nat { k % ChunkSize }

  function VisitY(k: nat): nat { k / ChunkSize }

  /** The quad of tile (x, y): each corner of the unit square moved by (x, y), on the plane z = 0. */
  function TileQuad(x: int, y: int): seq<Vertex>
  {
    seq(4, j requires 0 <= j < 4 => Vertex(QuadVertexPositions[j].0 + x, QuadVertexPositions[j].1 + y, 0))
  }

  /** The texture coordinates of one tile, with V flipped: (min.x, max.y), (max.x, max.y), (max.x, min.y), (min.x, min.y). */
  function QuadUvs(rect: AtlasRect, normalize: Normalize): seq<Point>
  {
    var lo, hi := normalize(rect.min), normalize(rect.max);
    [Point(lo.x, hi.y), Point(hi.x, hi.y), Point(hi.x, lo.y), Point(lo.x, lo.y)]
  }

  /** `QUAD_INDICES` shifted by the running stride. */
  function OffsetIndices(stride: int): seq<int>
  {
    seq(6, j requires 0 <= j < 6 => QuadIndices[j] + stride)
  }

  /** Every tile's atlas index names a rectangle of the atlas (indexing past the end panics in the source). */
  predicate AtlasCovers(tiles: seq<TileData>, textures: seq<AtlasRect>)
  {
    forall i :: 0 <= i < |tiles| ==> tiles[i].atlasIndex < |textures|
  }

  /** The positions buffer after the first `n` visits. */
  function Positions(n: nat): (p: seq<Vertex>)
    ensures |p| == 4 * n
  {
    if n == 0 then [] else Positions(n - 1) + TileQuad(VisitX(n - 1), VisitY(n - 1))
  }

  /** The tile read at visit `k`: `get_tile_at(x, y)`, stored at slot `y + 32 x`. */
  function VisitedTile(tiles: TileArray, k: nat): TileData
    requires k < TilesPerChunk
  {
    tiles[TileIndexAt(VisitX(k), VisitY(k))]
  }

  /** The atlas rectangle of each visit, in visiting order: `texture_atlas.textures[tile.atlas_index]`. */
  function VisitRects(tiles: TileArray, textures: seq<AtlasRect>): (r: seq<AtlasRect>)
    requires AtlasCovers(tiles, textures)
    ensures |r| == TilesPerChunk
  {
    seq(TilesPerChunk, k requires 0 <= k < TilesPerChunk => textures[VisitedTile(tiles, k).atlasIndex])
  }

  /** The UV buffer after the first `n` visits, given each visit's atlas rectangle. */
  function Uvs(rects: seq<AtlasRect>, normalize: Normalize, n: nat): (u: seq<Point>)
    requires n <= |rects|
    ensures |u| == 4 * n
  {
    if n == 0 then [] else Uvs(rects, normalize, n - 1) + QuadUvs(rects[n - 1], normalize)
  }

  /** The index buffer after the first `n` visits. */
  function Indices(n: nat): (r: seq<int>)
    ensures |r| == 6 * n
  {
    if n == 0 then [] else Indices(n - 1) + OffsetIndices(4 * (n - 1))
  }

  /** Visit `32 y + x` is tile (x, y). */
  lemma VisitOf(x: int, y: int)
    requires 0 <= x < ChunkSize && 0 <= y
    ensures VisitX(ChunkSize * y + x) == x && VisitY(ChunkSize * y + x) == y
  {
  }

  /** The 1024 visits reach every tile of the chunk exactly once. */
  lemma {:induction false} VisitsAreTiles(k: nat)
    requires k < TilesPerChunk
    ensures VisitX(k) < ChunkSize && VisitY(k) < ChunkSize
    ensures ChunkSize * VisitY(k) + VisitX(k) == k
  {
  }

  /**
   * Visit `k = 32 y + x` appends the quad, UVs and indices of tile (x, y) to
   * the buffers of the earlier visits, and its rectangle is the one of the
   * tile stored at slot `y + 32 x`.
   */
  lemma VisitStep(tiles: TileArray, textures: seq<AtlasRect>, k: nat, x: int, y: int)
    requires AtlasCovers(tiles, textures)
    requires 0 <= x < ChunkSize && 0 <= y < ChunkSize && k == ChunkSize * y + x
    ensures Positions(k + 1) == Positions(k) + TileQuad(x, y)
    ensures Indices(k + 1) == Indices(k) + OffsetIndices(4 * k)
    ensures k < TilesPerChunk && VisitRects(tiles, textures)[k] == textures[tiles[TileIndexAt(x, y)].atlasIndex]
  {
    VisitOf(x, y);
  }

  /**
   * `make_chunk_mesh`: the buffers are exactly the 1024 visits' quads, UVs
   * and offset indices, in visiting order.
   */
  method MakeChunkMesh(chunk: ChunkData, textures: seq<AtlasRect>, normalize: Normalize) returns (mesh: Mesh)
    requires chunk.Valid() && AtlasCovers(chunk.tiles[..], textures)
    ensures mesh.positions == Positions(TilesPerChunk)
    ensures mesh.uvs == Uvs(VisitRects(chunk.tiles[..], textures), normalize, TilesPerChunk)
    ensures mesh.indices == Indices(TilesPerChunk)
  {
    ghost var rects := VisitRects(chunk.tiles[..], textures);
    mesh := Mesh([], [], []);
    var stride := 0;
    ghost var visited := 0;
    for y := 0 to ChunkSize
      invariant visited == ChunkSize * y && stride == 4 * visited
      invariant mesh == Mesh(Positions(visited), Uvs(rects, normalize, visited), Indices(visited))
    {
      mesh, stride := EmitRow(chunk, textures, normalize, y, visited, mesh, stride);
      visited := visited + ChunkSize;
    }
  }

  /** One pass of the inner loop: the 32 tiles of row `y`, x from 0 to 31, which are visits `start` to `start + 31`. */
  method EmitRow(chunk: ChunkData, textures: seq<AtlasRect>, normalize: Normalize, y: int, ghost start: nat, before: Mesh, stride: int)
      returns (after: Mesh, stride': int)
    requires chunk.Valid() && AtlasCovers(chunk.tiles[..], textures)
    requires 0 <= y < ChunkSize && start == ChunkSize * y && stride == 4 * start
    requires before == Mesh(Positions(start), Uvs(VisitRects(chunk.tiles[..], textures), normalize, start), Indices(start))
    ensures stride' == 4 * (start + ChunkSize)
    ensures after == Mesh(Positions(start + ChunkSize), Uvs(VisitRects(chunk.tiles[..], textures), normalize, start + ChunkSize), Indices(start + ChunkSize))
  {
    ghost var rects := VisitRects(chunk.tiles[..], textures);
    var positions, uvs, indices := before.positions, before.uvs, before.indices;
    stride' := stride;
    for x := 0 to ChunkSize
      invariant stride' == 4 * (start + x)
      invariant positions == Positions(start + x)
      invariant uvs == Uvs(rects, normalize, start + x)
      invariant indices == Indices(start + x)
    {
      VisitStep(chunk.tiles[..], textures, start + x, x, y);
      var tile := chunk.GetTileAt(x, y);
      assert tile == chunk.tiles[..][TileIndexAt(x, y)];
      positions := positions + TileQuad(x, y);
      uvs := uvs + QuadUvs(textures[tile.atlasIndex], normalize);
      indices := indices + OffsetIndices(stride');
      stride' := stride' + 4;
    }
    after := Mesh(positions, uvs, indices);
  }

  /** Index `6 k + j` of the index buffer is `QUAD_INDICES[j]` offset by the stride `4 k` of visit `k`. */
  lemma {:induction false} IndexOfVisit(n: nat, k: nat, j: nat)
    requires k < n && j < 6
    ensures Indices(n)[6 * k + j] == QuadIndices[j] + 4 * k
    decreases n
  {
    if k < n - 1 {
      IndexOfVisit(n - 1, k, j);
    }
  }

  /** Every index written so far names a vertex written so far, and the last one names the newest vertex. */
  lemma {:induction false} IndicesInRange(n: nat)
    ensures forall i :: 0 <= i < |Indices(n)| ==> 0 <= Indices(n)[i] < |Positions(n)|
    ensures n > 0 ==> Indices(n)[6 * (n - 1) + 2] == |Positions(n)| - 1
  {
    forall i | 0 <= i < |Indices(n)|
      ensures 0 <= Indices(n)[i] < |Positions(n)|
    {
      IndexOfVisit(n, i / 6, i % 6);
    }
    if n > 0 {
      IndexOfVisit(n, n - 1, 2);
    }
  }

  /** A whole chunk: 4096 positions, 4096 UVs and 6144 indices, the largest index being 4095. */
  lemma ChunkMeshSizes()
    ensures |Positions(TilesPerChunk)| == 4096 && |Indices(TilesPerChunk)| == 6144
    ensures forall i :: 0 <= i < 6144 ==> 0 <= Indices(TilesPerChunk)[i] <= 4095
    ensures Indices(TilesPerChunk)[6 * 1023 + 2] == 4095
  {
    IndicesInRange(TilesPerChunk);
  }

  /** Position `4 k + j` is corner `j` of the quad of visit `k`. */
  lemma {:induction false} PositionOfVisit(n: nat, k: nat, j: nat)
    requires k < n && j < 4
    ensures Positions(n)[4 * k + j] == TileQuad(VisitX(k), VisitY(k))[j]
    decreases n
  {
    if k < n - 1 {
      PositionOfVisit(n - 1, k, j);
    }
  }

  /** Tile (x, y) contributes the corners (x, y), (x + 1, y), (x + 1, y + 1), (x, y + 1), all at z = 0. */
  lemma TileCorners(x: int, y: int)
    requires 0 <= x < ChunkSize && 0 <= y < ChunkSize
    ensures var k := ChunkSize * y + x;
      && Positions(TilesPerChunk)[4 * k] == Vertex(x, y, 0)
      && Positions(TilesPerChunk)[4 * k + 1] == Vertex(x + 1, y, 0)
      && Positions(TilesPerChunk)[4 * k + 2] == Vertex(x + 1, y + 1, 0)
      && Positions(TilesPerChunk)[4 * k + 3] == Vertex(x, y + 1, 0)
  {
    var k := ChunkSize * y + x;
    VisitOf(x, y);
    PositionOfVisit(TilesPerChunk, k, 0);
    PositionOfVisit(TilesPerChunk, k, 1);
    PositionOfVisit(TilesPerChunk, k, 2);
    PositionOfVisit(TilesPerChunk, k, 3);
  }

  /** UV `4 k + j` is entry `j` of the UVs of the atlas rectangle of visit `k`. */
  lemma {:induction false} UvOfVisit(rects: seq<AtlasRect>, normalize: Normalize, n: nat, k: nat, j: nat)
    requires n <= |rects| && k < n && j < 4
    ensures Uvs(rects, normalize, n)[4 * k + j] == QuadUvs(rects[k], normalize)[j]
    decreases n
  {
    if k < n - 1 {
      UvOfVisit(rects, normalize, n - 1, k, j);
    }
  }

  /**
   * Tile (x, y) takes the rectangle of the tile stored at slot `y + 32 x`
   * and emits its corners V-flipped.
   */
  lemma TileUvs(tiles: TileArray, textures: seq<AtlasRect>, normalize: Normalize, x: int, y: int)
    requires AtlasCovers(tiles, textures)
    requires 0 <= x < ChunkSize && 0 <= y < ChunkSize
    ensures var k := ChunkSize * y + x;
      var rect := textures[tiles[y + ChunkSize * x].atlasIndex];
      var lo, hi := normalize(rect.min), normalize(rect.max);
      var u := Uvs(VisitRects(tiles, textures), normalize, TilesPerChunk);
      && u[4 * k] == Point(lo.x, hi.y)
      && u[4 * k + 1] == Point(hi.x, hi.y)
      && u[4 * k + 2] == Point(hi.x, lo.y)
      && u[4 * k + 3] == Point(lo.x, lo.y)
  {
    var k := ChunkSize * y + x;
    var rects := VisitRects(tiles, textures);
    VisitStep(tiles, textures, k, x, y);
    UvOfVisit(rects, normalize, TilesPerChunk, k, 0);
    UvOfVisit(rects, normalize, TilesPerChunk, k, 1);
    UvOfVisit(rects, normalize, TilesPerChunk, k, 2);
    UvOfVisit(rects, normalize, TilesPerChunk, k, 3);
  }

  /** The triangles (0, 2, 3) and (0, 1, 2) cover all four corners and share exactly the diagonal 0-2. */
  lemma QuadTriangles()
    ensures var first, second := set i | 0 <= i < 3 :: QuadIndices[i], set i | 3 <= i < 6 :: QuadIndices[i];
      && first + second == {0, 1, 2, 3}
      && first * second == {0, 2}
  {
    var first, second := set i | 0 <= i < 3 :: QuadIndices[i], set i | 3 <= i < 6 :: QuadIndices[i];
    assert first == {0, 2, 3} by {
      assert QuadIndices[0] in first && QuadIndices[1] in first && QuadIndices[2] in first;
    }
    assert second == {0, 1, 2} by {
      assert QuadIndices[3] in second && QuadIndices[4] in second && QuadIndices[5] in second;
    }
  }
}
