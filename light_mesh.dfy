/**
 * `make_light_mesh`: a triangle fan for a point light, one centre vertex of
 * intensity one and `SIDES` rim vertices of intensity zero. The rim
 * positions come from `sin_cos` of equally spaced angles and are kept
 * abstract: rim vertex `i` is named by its step `i`, and only the vertex
 * count, the intensities and the index buffer are modelled.
 *
 * The index loop as written runs one triangle too far (see
 * `AsWrittenIndexPastLastVertex`); `MakeLightMesh` is the fan with the loop
 * stopping one step earlier, and `MakeLightMeshAsWritten` is the code as it
 * stands.
 */
module LightMesh {

  /** `SIDES`. */
  const Sides: nat := 32

  /** The centre, or the rim vertex at angle step `step` (clockwise from the top). */
  datatype FanVertex = Center | Rim(step: nat)

  /** The three vertex attributes of the light mesh. */
  datatype LightMesh = LightMesh(positions: seq<FanVertex>, intensities: seq<real>, indices: seq<int>)

  /** The vertices: the centre, then the rim steps `0 .. Sides - 1` in order. */
  function FanVertices(): (v: seq<FanVertex>)
    ensures |v| == Sides + 1
  {
    [Center] + seq(Sides, (i: nat) => Rim(i))
  }

  /** One at the centre, zero on the rim. */
  function FanIntensities(): (v: seq<real>)
    ensures |v| == Sides + 1
  {
    [1.0] + seq(Sides, _ => 0.0)
  }

  /** The triangles `[0, i, i + 1]` for `i` in `1 ..= n`, in order. */
  function LoopIndices(n: nat): (r: seq<int>)
    ensures |r| == 3 * n
  {
    if n == 0 then [] else LoopIndices(n - 1) + [0, n, n + 1]
  }

  /** The closing triangle: the last rim vertex back to the first. */
  function ClosingTriangle(): seq<int>
  {
    [0, Sides, 1]
  }

  /** The index buffer as the source builds it: the loop over `1 ..= SIDES`, then the closing triangle. */
  function AsWrittenIndices(): seq<int>
  {
    LoopIndices(Sides) + ClosingTriangle()
  }

  /** The fan's index buffer: the loop over `1 .. SIDES`, then the closing triangle. */
  function FanIndices(): seq<int>
  {
    LoopIndices(Sides - 1) + ClosingTriangle()
  }

  /** The centre and rim pushes shared by both versions. */
  method PushVertices() returns (positions: seq<FanVertex>, intensities: seq<real>)
    ensures positions == FanVertices()
    ensures intensities == FanIntensities()
  {
    positions := [Center];
    intensities := [1.0];
    for i := 0 to Sides
      invariant positions == [Center] + seq(i, (j: nat) => Rim(j))
      invariant intensities == [1.0] + seq(i, _ => 0.0)
    {
      positions := positions + [Rim(i)];
      intensities := intensities + [0.0];
    }
  }

  /** The index loop pushing `[0, i, i + 1]` for `i` in `1 ..= last`. */
  method PushTriangles(last: nat) returns (indices: seq<int>)
    ensures indices == LoopIndices(last)
  {
    indices := [];
    for i := 1 to last + 1
      invariant indices == LoopIndices(i - 1)
    {
      indices := indices + [0, i, i + 1];
    }
  }

  /** `make_light_mesh` exactly as written: the index loop runs over `1 ..= SIDES`. */
  method MakeLightMeshAsWritten() returns (mesh: LightMesh)
    ensures mesh == LightMesh(FanVertices(), FanIntensities(), AsWrittenIndices())
  {
    var positions, intensities := PushVertices();
    var indices := PushTriangles(Sides);
    indices := indices + [0, Sides, 1];
    mesh := LightMesh(positions, intensities, indices);
  }

  /** `make_light_mesh` with the index loop over `1 .. SIDES`, so that the closing triangle is the only one that wraps. */
  method MakeLightMesh() returns (mesh: LightMesh)
    ensures mesh == LightMesh(FanVertices(), FanIntensities(), FanIndices())
  {
    var positions, intensities := PushVertices();
    var indices := PushTriangles(Sides - 1);
    indices := indices + [0, Sides, 1];
    mesh := LightMesh(positions, intensities, indices);
  }

  /** Triangle `t` of the loop is `[0, t + 1, t + 2]`. */
  lemma {:induction false} LoopTriangle(n: nat, t: nat)
    requires t < n
    ensures LoopIndices(n)[3 * t] == 0
    ensures LoopIndices(n)[3 * t + 1] == t + 1
    ensures LoopIndices(n)[3 * t + 2] == t + 2
  {
    if t < n - 1 {
      LoopTriangle(n - 1, t);
    }
  }

  /** Vertex counts and intensities: 33 vertices, the centre lit, the rim dark. */
  lemma VertexAttributes()
    ensures |FanVertices()| == |FanIntensities()| == 33
    ensures FanVertices()[0] == Center && FanIntensities()[0] == 1.0
    ensures forall i :: 1 <= i <= Sides ==> FanVertices()[i] == Rim(i - 1) && FanIntensities()[i] == 0.0
  {
  }

  /**
   * The index buffer as written: 99 indices, every triangle starting at the
   * centre, ending with the closing triangle `[0, SIDES, 1]`.
   */
  lemma AsWrittenShape()
    ensures |AsWrittenIndices()| == 3 * (Sides + 1) == 99
    ensures forall t :: 0 <= t < Sides + 1 ==> AsWrittenIndices()[3 * t] == 0
    ensures AsWrittenIndices()[96..] == [0, Sides, 1]
  {
    forall t | 0 <= t < Sides
      ensures AsWrittenIndices()[3 * t] == 0
    {
      LoopTriangle(Sides, t);
    }
  }

  /**
   * The last loop triangle as written is `[0, 32, 33]`: index 33 equals the
   * vertex count, one past the last vertex.
   */
  lemma AsWrittenIndexPastLastVertex()
    ensures AsWrittenIndices()[3 * (Sides - 1) .. 3 * Sides] == [0, 32, 33]
    ensures AsWrittenIndices()[3 * (Sides - 1) + 2] == |FanVertices()|
    ensures !(forall k :: 0 <= k < |AsWrittenIndices()| ==> AsWrittenIndices()[k] < |FanVertices()|)
  {
  }

  /**
   * The fan: 32 triangles, triangle `t` joins the centre to rim vertices
   * `t + 1` and the next one round, wrapping from the last back to the
   * first; so every index names one of the 33 vertices.
   */
  lemma FanTriangles()
    ensures |FanIndices()| == 3 * Sides == 96
    ensures forall t :: 0 <= t < Sides ==>
      FanIndices()[3 * t] == 0 && FanIndices()[3 * t + 1] == t + 1 && FanIndices()[3 * t + 2] == (t + 1) % Sides + 1
    ensures forall k :: 0 <= k < |FanIndices()| ==> 0 <= FanIndices()[k] < |FanVertices()|
  {
    forall t | 0 <= t < Sides - 1
      ensures FanIndices()[3 * t] == 0 && FanIndices()[3 * t + 1] == t + 1 && FanIndices()[3 * t + 2] == (t + 1) % Sides + 1
    {
      LoopTriangle(Sides - 1, t);
    }
    forall k | 0 <= k < |FanIndices()|
      ensures 0 <= FanIndices()[k] < |FanVertices()|
    {
      var t := k / 3;
      if t < Sides - 1 {
        LoopTriangle(Sides - 1, t);
      }
    }
  }
}
