/** The mesh builder: a width x depth height grid becomes a vertex array, a
    colour array (one terrain colour per vertex) and a triangle-index array
    (two triangles per interior cell), all numbered row-major by Grid.Index. */
module Terrain {
  import opened Collaborators
  import Grid
  import Noise

  /** A threshold rule: heights strictly below `height` (and not claimed by an
      earlier rule) get this name and colour. */
  datatype TerrainType = TerrainType(name: string, height: real, color: Color)

  /** Rule i is the one the search picks for `height`: no earlier rule's
      threshold lies strictly above the height, and rule i's does, or rule i
      is the last one (the fallback). */
  predicate SelectedBy(types: seq<TerrainType>, height: real, i: int)
  {
    0 <= i < |types| &&
    (forall j :: 0 <= j < i ==> types[j].height <= height) &&
    (height < types[i].height || i == |types| - 1)
  }

  /** The foreach of GetTerrain from position `start` on, the rules before
      `start` having been passed over. None stands for the out-of-range
      access on an empty rule array. */
  function GetTerrainFrom(types: seq<TerrainType>, height: real, start: nat): (r: Option<TerrainType>)
    requires start <= |types|
    requires forall j :: 0 <= j < start ==> types[j].height <= height
    ensures r.None? <==> |types| == 0
    ensures r.Some? ==> exists i :: SelectedBy(types, height, i) && r.value == types[i]
    decreases |types| - start
  {
    if start == |types| then
      if |types| == 0 then None
      else
        assert SelectedBy(types, height, |types| - 1);
        Some(types[|types| - 1])
    else if height < types[start].height then
      assert SelectedBy(types, height, start);
      Some(types[start])
    else GetTerrainFrom(types, height, start + 1)
  }

  /** The terrain rule for a height: the first rule whose threshold is
      strictly above it, else the last rule; None when there is no rule. */
  function GetTerrain(types: seq<TerrainType>, height: real): (r: Option<TerrainType>)
    ensures r.None? <==> |types| == 0
    ensures r.Some? ==> exists i :: SelectedBy(types, height, i) && r.value == types[i]
  {
    GetTerrainFrom(types, height, 0)
  }

  /** At most one rule is selected for a height. */
  lemma SelectedUnique(types: seq<TerrainType>, height: real, i: int, k: int)
    requires SelectedBy(types, height, i) && SelectedBy(types, height, k)
    ensures i == k
  {
  }

  /** With thresholds in increasing order, a height in the band
      [types[i-1].height, types[i].height) gets rule i. */
  lemma GetTerrainBands(types: seq<TerrainType>, height: real, i: int)
    requires forall j, k :: 0 <= j < k < |types| ==> types[j].height < types[k].height
    requires 0 <= i < |types| && height < types[i].height
    requires i > 0 ==> types[i - 1].height <= height
    ensures GetTerrain(types, height) == Some(types[i])
  {
    assert SelectedBy(types, height, i);
    var k :| SelectedBy(types, height, k) && GetTerrain(types, height).value == types[k];
    SelectedUnique(types, height, i, k);
  }

  /** A height at or above every threshold falls back to the last rule. */
  lemma GetTerrainFallback(types: seq<TerrainType>, height: real)
    requires |types| > 0
    requires forall j :: 0 <= j < |types| ==> types[j].height <= height
    ensures GetTerrain(types, height) == Some(types[|types| - 1])
  {
    assert SelectedBy(types, height, |types| - 1);
    var k :| SelectedBy(types, height, k) && GetTerrain(types, height).value == types[k];
    SelectedUnique(types, height, |types| - 1, k);
  }

  /** The six triangle indices of the cell whose lower corner is vertex v:
      triangles (v, v+w, v+1) and (v+1, v+w, v+w+1), sharing the diagonal. */
  function QuadCorners(width: int, v: int): seq<int>
  {
    [v, v + width, v + 1, v + 1, v + width, v + width + 1]
  }

  /** The quads of cells 0 .. n-1 of row z, in the order the inner loop
      writes them. */
  function RowQuads(width: int, z: int, n: nat): (s: seq<int>)
    ensures |s| == 6 * n
  {
    if n == 0 then [] else RowQuads(width, z, n - 1) + QuadCorners(width, Grid.Index(width, n - 1, z))
  }

  /** The quads of the first `rows` rows of interior cells, row after row. */
  function GridQuads(width: int, rows: nat): seq<int>
    requires width >= 1
  {
    if rows == 0 then [] else GridQuads(width, rows - 1) + RowQuads(width, rows - 1, width - 1)
  }

  /** Six entries per interior cell. */
  lemma {:induction false} GridQuadsLength(width: int, rows: nat)
    requires width >= 1
    ensures |GridQuads(width, rows)| == (width - 1) * rows * 6
  {
    if rows > 0 {
      GridQuadsLength(width, rows - 1);
      assert (width - 1) * rows * 6 == (width - 1) * (rows - 1) * 6 + 6 * (width - 1);
    }
  }

  /** The whole triangle array the triangle fill produces: the quads of the
      (width-1) x (depth-1) interior cells in row-major order. */
  function TriangleList(width: int, depth: int): (s: seq<int>)
    requires width >= 1 && depth >= 1
    ensures |s| == (width - 1) * (depth - 1) * 6
  {
    GridQuadsLength(width, depth - 1);
    GridQuads(width, depth - 1)
  }

  /** Within a row, cell x owns entries 6x .. 6x+5. */
  lemma {:induction false} RowQuadsCell(width: int, z: int, n: nat, x: int, j: int)
    requires 0 <= x < n && 0 <= j < 6
    ensures RowQuads(width, z, n)[6 * x + j] == QuadCorners(width, Grid.Index(width, x, z))[j]
  {
    if x < n - 1 {
      RowQuadsCell(width, z, n - 1, x, j);
    }
  }

  /** Over the first `rows` rows, row z's quads follow the quads of the rows
      before it: entry |GridQuads(width, z)| + i is entry i of row z. */
  lemma {:induction false} GridQuadsRow(width: int, rows: nat, z: nat, i: int, k: int)
    requires width >= 1 && z < rows && 0 <= i < 6 * (width - 1)
    requires k == |GridQuads(width, z)| + i
    ensures k < |GridQuads(width, rows)|
    ensures GridQuads(width, rows)[k] == RowQuads(width, z, width - 1)[i]
  {
    if z < rows - 1 {
      GridQuadsRow(width, rows - 1, z, i, k);
    }
  }

  /** Interior cell (x, z) owns entries 6*(z*(width-1)+x) .. +5 of the
      triangle array, and they hold the six indices of its quad. */
  lemma TriangleListCell(width: int, depth: int, x: int, z: int, j: int)
    requires 0 <= x < width - 1 && 0 <= z < depth - 1 && 0 <= j < 6
    ensures 0 <= 6 * Grid.Index(width - 1, x, z) + j < |TriangleList(width, depth)|
    ensures TriangleList(width, depth)[6 * Grid.Index(width - 1, x, z) + j]
         == QuadCorners(width, Grid.Index(width, x, z))[j]
  {
    var k := 6 * Grid.Index(width - 1, x, z) + j;
    assert 0 <= k < |TriangleList(width, depth)| by {
      Grid.IndexOfCell(width - 1, depth - 1, x, z);
    }
    assert k == |GridQuads(width, z)| + (6 * x + j) by {
      GridQuadsLength(width, z);
    }
    GridQuadsRow(width, depth - 1, z, 6 * x + j, k);
    RowQuadsCell(width, z, width - 1, x, j);
  }

  /** Entry k of the triangle array computed directly: slot k % 6 of interior
      cell number k / 6, cells numbered row-major over the (width-1)-wide grid. */
  function TriangleEntry(width: int, k: nat): int
    requires width >= 2
  {
    var cell := k / 6;
    QuadCorners(width, Grid.Index(width, cell % (width - 1), cell / (width - 1)))[k % 6]
  }

  /** The quad of cell (x, z) lists its corners' vertex numbers in the order
      (x,z), (x,z+1), (x+1,z), (x+1,z), (x,z+1), (x+1,z+1). */
  lemma QuadCornersOfCell(width: int, x: int, z: int)
    ensures QuadCorners(width, Grid.Index(width, x, z))
         == [Grid.Index(width, x, z), Grid.Index(width, x, z + 1), Grid.Index(width, x + 1, z),
             Grid.Index(width, x + 1, z), Grid.Index(width, x, z + 1), Grid.Index(width, x + 1, z + 1)]
  {
    assert (z + 1) * width == z * width + width;
  }

  /** The corners of an interior cell are vertices of the grid. */
  lemma QuadInRange(width: int, depth: int, x: int, z: int, j: int)
    requires 0 <= x < width - 1 && 0 <= z < depth - 1 && 0 <= j < 6
    ensures 0 <= QuadCorners(width, Grid.Index(width, x, z))[j] < width * depth
  {
    QuadCornersOfCell(width, x, z);
    Grid.IndexOfCell(width, depth, x, z);
    Grid.IndexOfCell(width, depth, x + 1, z);
    Grid.IndexOfCell(width, depth, x, z + 1);
    Grid.IndexOfCell(width, depth, x + 1, z + 1);
  }

  /** Interior cell (x, z) writes entry k: k is one of its six slots
      6*(z*(width-1) + x) .. +5. */
  predicate CellOwnsEntry(width: int, depth: int, x: int, z: int, k: int)
  {
    0 <= x < width - 1 && 0 <= z < depth - 1 &&
    6 * Grid.Index(width - 1, x, z) <= k < 6 * Grid.Index(width - 1, x, z) + 6
  }

  /** Every entry of the triangle array is written by exactly one interior
      cell, at slot k % 6 of it. */
  lemma TriangleSlotOwner(width: int, depth: int, k: int)
    requires width >= 1 && depth >= 1 && 0 <= k < |TriangleList(width, depth)|
    ensures width >= 2 && depth >= 2
    ensures 0 <= (k / 6) % (width - 1) < width - 1 && 0 <= (k / 6) / (width - 1) < depth - 1
    ensures k == 6 * Grid.Index(width - 1, (k / 6) % (width - 1), (k / 6) / (width - 1)) + k % 6
    ensures CellOwnsEntry(width, depth, (k / 6) % (width - 1), (k / 6) / (width - 1), k)
    ensures forall x, z :: CellOwnsEntry(width, depth, x, z, k) ==>
      x == (k / 6) % (width - 1) && z == (k / 6) / (width - 1)
  {
    Grid.CellOfIndex(width - 1, depth - 1, k / 6);
    forall x, z | CellOwnsEntry(width, depth, x, z, k)
      ensures x == (k / 6) % (width - 1) && z == (k / 6) / (width - 1)
    {
      assert k / 6 == Grid.Index(width - 1, x, z);
      Grid.IndexOfCell(width - 1, depth - 1, x, z);
    }
  }

  /** The triangle array agrees everywhere with the direct formula TriangleEntry. */
  lemma TriangleListEntry(width: int, depth: int, k: int)
    requires width >= 1 && depth >= 1 && 0 <= k < |TriangleList(width, depth)|
    ensures width >= 2 && TriangleList(width, depth)[k] == TriangleEntry(width, k)
  {
    TriangleSlotOwner(width, depth, k);
    TriangleListCell(width, depth, (k / 6) % (width - 1), (k / 6) / (width - 1), k % 6);
  }

  /** Entry k of the triangle array names a vertex of the grid. */
  lemma TriangleEntryInRange(width: int, depth: int, k: int)
    requires width >= 1 && depth >= 1 && 0 <= k < |TriangleList(width, depth)|
    ensures 0 <= TriangleList(width, depth)[k] < width * depth
  {
    TriangleSlotOwner(width, depth, k);
    var x, z := (k / 6) % (width - 1), (k / 6) / (width - 1);
    TriangleListCell(width, depth, x, z, k % 6);
    QuadInRange(width, depth, x, z, k % 6);
  }

  /** Every triangle index names a vertex: it lies in [0, width*depth). */
  lemma TriangleListInRange(width: int, depth: int)
    requires width >= 1 && depth >= 1
    ensures forall k :: 0 <= k < |TriangleList(width, depth)| ==>
      0 <= TriangleList(width, depth)[k] < width * depth
  {
    forall k | 0 <= k < |TriangleList(width, depth)| {
      TriangleEntryInRange(width, depth, k);
    }
  }

  /** The vertex of cell (x, z): x and z as coordinates, the curved and scaled height as y. */
  function VertexOfCell(x: int, z: int, height: real, heightCurve: real -> real, heightMultiplier: real): Vector3
  {
    Vector3(x as real, heightCurve(height) * heightMultiplier, z as real)
  }

  /** Cell (x, z) of the height map has its vertex and its terrain colour at
      its row-major number in the two arrays. */
  predicate CellFilled(heightMap: array2<real>, vertices: array<Vector3>, colors: array<Color>,
                       heightCurve: real -> real, heightMultiplier: real, terrainTypes: seq<TerrainType>,
                       x: int, z: int)
    reads heightMap, vertices, colors
    requires 0 <= x < heightMap.Length0 && 0 <= z < heightMap.Length1
    requires 0 <= Grid.Index(heightMap.Length0, x, z) < vertices.Length == colors.Length
  {
    vertices[Grid.Index(heightMap.Length0, x, z)] == VertexOfCell(x, z, heightMap[x, z], heightCurve, heightMultiplier) &&
    GetTerrain(terrainTypes, heightMap[x, z]).Some? &&
    colors[Grid.Index(heightMap.Length0, x, z)] == GetTerrain(terrainTypes, heightMap[x, z]).value.color
  }

  /** The vertex loop: every cell's vertex and terrain colour go to index z*width + x.
      The first cell aborts the fill (ok == false) when there is no terrain
      rule, having written its vertex already. */
  method FillVertices(heightMap: array2<real>, vertices: array<Vector3>, colors: array<Color>,
                      heightCurve: real -> real, heightMultiplier: real, terrainTypes: seq<TerrainType>)
    returns (ok: bool)
    requires vertices.Length == heightMap.Length0 * heightMap.Length1 && colors.Length == vertices.Length
    modifies vertices, colors
    ensures forall x, z :: 0 <= x < heightMap.Length0 && 0 <= z < heightMap.Length1 ==>
      0 <= Grid.Index(heightMap.Length0, x, z) < vertices.Length
    ensures ok <==> |terrainTypes| > 0 || vertices.Length == 0
    ensures ok ==> forall x, z :: 0 <= x < heightMap.Length0 && 0 <= z < heightMap.Length1 ==>
      CellFilled(heightMap, vertices, colors, heightCurve, heightMultiplier, terrainTypes, x, z)
    ensures !ok ==> vertices[0] == VertexOfCell(0, 0, heightMap[0, 0], heightCurve, heightMultiplier)
    ensures !ok ==> (forall k :: 1 <= k < vertices.Length ==> vertices[k] == old(vertices[k]))
    ensures !ok ==> colors[..] == old(colors[..])
  {
    var mapWidth, mapDepth := heightMap.Length0, heightMap.Length1;
    Grid.IndexInRange(mapWidth, mapDepth);
    for z := 0 to mapDepth
      invariant forall x', z' :: (0 <= x' < mapWidth && 0 <= z' < mapDepth &&
        Grid.Index(mapWidth, x', z') < Grid.Index(mapWidth, 0, z)) ==>
        CellFilled(heightMap, vertices, colors, heightCurve, heightMultiplier, terrainTypes, x', z')
      invariant z > 0 && mapWidth > 0 ==> |terrainTypes| > 0
      invariant |terrainTypes| == 0 ==> vertices[..] == old(vertices[..]) && colors[..] == old(colors[..])
    {
      for x := 0 to mapWidth
        invariant forall x', z' :: (0 <= x' < mapWidth && 0 <= z' < mapDepth &&
          Grid.Index(mapWidth, x', z') < Grid.Index(mapWidth, x, z)) ==>
          CellFilled(heightMap, vertices, colors, heightCurve, heightMultiplier, terrainTypes, x', z')
        invariant (z > 0 || x > 0) && mapWidth > 0 ==> |terrainTypes| > 0
        invariant |terrainTypes| == 0 ==> vertices[..] == old(vertices[..]) && colors[..] == old(colors[..])
      {
        label Visit:
        var height := heightMap[x, z];
        var vertexIndex := Grid.Index(mapWidth, x, z);
        vertices[vertexIndex] := VertexOfCell(x, z, height, heightCurve, heightMultiplier);

        var t := GetTerrain(terrainTypes, height);
        if t.None? {
          return false;
        }
        colors[vertexIndex] := t.value.color;

        forall x', z' | 0 <= x' < mapWidth && 0 <= z' < mapDepth &&
          Grid.Index(mapWidth, x', z') < Grid.Index(mapWidth, x, z) + 1
          ensures CellFilled(heightMap, vertices, colors, heightCurve, heightMultiplier, terrainTypes, x', z')
        {
          if Grid.Index(mapWidth, x', z') == vertexIndex {
            Grid.IndexOfCell(mapWidth, mapDepth, x', z');
            Grid.IndexOfCell(mapWidth, mapDepth, x, z);
          } else {
            assert old@Visit(CellFilled(heightMap, vertices, colors, heightCurve, heightMultiplier, terrainTypes, x', z'));
          }
        }
      }
      Grid.RowEnd(mapWidth, z);
    }
    assert Grid.Index(mapWidth, 0, mapDepth) == vertices.Length;
    ok := true;
  }

  /** The vertex loop run over the normalised noise of `inp`: each cell's vertex
      and colour come from that cell's noise value. */
  method FillFromNoise(heightMap: array2<real>, ghost inp: Noise.NoiseInputs, vertices: array<Vector3>,
                       colors: array<Color>, heightCurve: real -> real, heightMultiplier: real,
                       terrainTypes: seq<TerrainType>)
    returns (ok: bool)
    requires heightMap.Length0 == inp.mapWidth && heightMap.Length1 == inp.mapDepth
    requires forall x, z :: 0 <= x < inp.mapWidth && 0 <= z < inp.mapDepth ==>
      heightMap[x, z] == Noise.NoiseValue(inp, x, z)
    requires vertices.Length == inp.mapWidth * inp.mapDepth && colors.Length == vertices.Length
    modifies vertices, colors
    ensures ok <==> |terrainTypes| > 0 || vertices.Length == 0
    ensures ok ==> forall x, z :: 0 <= x < inp.mapWidth && 0 <= z < inp.mapDepth ==>
      0 <= Grid.Index(inp.mapWidth, x, z) < vertices.Length &&
      vertices[Grid.Index(inp.mapWidth, x, z)]
        == VertexOfCell(x, z, Noise.NoiseValue(inp, x, z), heightCurve, heightMultiplier) &&
      GetTerrain(terrainTypes, Noise.NoiseValue(inp, x, z)).Some? &&
      colors[Grid.Index(inp.mapWidth, x, z)] == GetTerrain(terrainTypes, Noise.NoiseValue(inp, x, z)).value.color
  {
    ok := FillVertices(heightMap, vertices, colors, heightCurve, heightMultiplier, terrainTypes);
    if ok {
      forall x, z | 0 <= x < inp.mapWidth && 0 <= z < inp.mapDepth
        ensures 0 <= Grid.Index(inp.mapWidth, x, z) < vertices.Length &&
          vertices[Grid.Index(inp.mapWidth, x, z)]
            == VertexOfCell(x, z, Noise.NoiseValue(inp, x, z), heightCurve, heightMultiplier) &&
          GetTerrain(terrainTypes, Noise.NoiseValue(inp, x, z)).Some? &&
          colors[Grid.Index(inp.mapWidth, x, z)] == GetTerrain(terrainTypes, Noise.NoiseValue(inp, x, z)).value.color
      {
        assert CellFilled(heightMap, vertices, colors, heightCurve, heightMultiplier, terrainTypes, x, z);
      }
    }
  }

  /** The triangle loop: a running triangleIndex advances by six per interior
      cell, so after cell (x, z) it is 6*(z*(width-1) + x + 1) and the loop
      ends at the array length. */
  method FillTriangles(triangles: array<int>, mapWidth: int, mapDepth: int)
    requires mapWidth >= 1 && mapDepth >= 1
    requires triangles.Length == (mapWidth - 1) * (mapDepth - 1) * 6
    modifies triangles
    ensures triangles[..] == TriangleList(mapWidth, mapDepth)
  {
    var triangleIndex := 0;
    for z := 0 to mapDepth - 1
      invariant triangleIndex == 6 * Grid.Index(mapWidth - 1, 0, z) <= triangles.Length
      invariant forall k :: 0 <= k < triangleIndex ==> triangles[k] == TriangleList(mapWidth, mapDepth)[k]
    {
      for x := 0 to mapWidth - 1
        invariant triangleIndex == 6 * Grid.Index(mapWidth - 1, x, z) <= triangles.Length
        invariant forall k :: 0 <= k < triangleIndex ==> triangles[k] == TriangleList(mapWidth, mapDepth)[k]
      {
        WriteQuad(triangles, mapWidth, mapDepth, x, z, triangleIndex);
        triangleIndex := triangleIndex + 6;
      }
      Grid.RowEnd(mapWidth - 1, z);
    }
    assert triangleIndex == triangles.Length by {
      assert (mapDepth - 1) * (mapWidth - 1) == (mapWidth - 1) * (mapDepth - 1);
    }
  }

  /** The six writes of interior cell (x, z), at triangleIndex .. triangleIndex + 5. */
  method WriteQuad(triangles: array<int>, mapWidth: int, mapDepth: int, x: int, z: int, triangleIndex: int)
    requires 0 <= x < mapWidth - 1 && 0 <= z < mapDepth - 1
    requires triangles.Length == (mapWidth - 1) * (mapDepth - 1) * 6
    requires triangleIndex == 6 * Grid.Index(mapWidth - 1, x, z)
    modifies triangles
    ensures 0 <= triangleIndex && triangleIndex + 6 <= triangles.Length
    ensures forall k :: triangleIndex <= k < triangleIndex + 6 ==> triangles[k] == TriangleList(mapWidth, mapDepth)[k]
    ensures forall k :: 0 <= k < triangles.Length && !(triangleIndex <= k < triangleIndex + 6) ==>
      triangles[k] == old(triangles[k])
  {
    var vertexIndex := z * mapWidth + x;
    TriangleCellWrites(mapWidth, mapDepth, x, z, triangleIndex, vertexIndex);

    triangles[triangleIndex + 0] := vertexIndex;
    triangles[triangleIndex + 4] := vertexIndex + mapWidth;
    triangles[triangleIndex + 1] := vertexIndex + mapWidth;
    triangles[triangleIndex + 3] := vertexIndex + 1;
    triangles[triangleIndex + 2] := vertexIndex + 1;
    triangles[triangleIndex + 5] := vertexIndex + mapWidth + 1;
  }

  /** The six writes of cell (x, z), starting at entry t == 6*(z*(width-1) + x),
      land on entries of TriangleList that hold exactly the values written. */
  lemma TriangleCellWrites(width: int, depth: int, x: int, z: int, t: int, v: int)
    requires 0 <= x < width - 1 && 0 <= z < depth - 1
    requires t == 6 * Grid.Index(width - 1, x, z) && v == Grid.Index(width, x, z)
    ensures 0 <= t && t + 6 <= |TriangleList(width, depth)|
    ensures TriangleList(width, depth)[t + 0] == v
    ensures TriangleList(width, depth)[t + 1] == v + width
    ensures TriangleList(width, depth)[t + 2] == v + 1
    ensures TriangleList(width, depth)[t + 3] == v + 1
    ensures TriangleList(width, depth)[t + 4] == v + width
    ensures TriangleList(width, depth)[t + 5] == v + width + 1
  {
    TriangleListCell(width, depth, x, z, 0);
    TriangleListCell(width, depth, x, z, 1);
    TriangleListCell(width, depth, x, z, 2);
    TriangleListCell(width, depth, x, z, 3);
    TriangleListCell(width, depth, x, z, 4);
    TriangleListCell(width, depth, x, z, 5);
  }

  /** The MonoBehaviour: the inspector settings and the three mesh arrays
      that CreateMesh rebuilds. */
  class TerrainGenerator {
    var mapWidth: int
    var mapDepth: int
    var mapOffset: Vector3
    var seed: string
    var scale: real
    var octaves: int
    var lacunarity: real
    var persistence: real
    var heightMultiplier: real
    /** AnimationCurve.Evaluate. */
    var heightCurve: real -> real
    var terrainTypes: seq<TerrainType>

    var vertices: array<Vector3>
    var triangles: array<int>
    var colors: array<Color>

    constructor (mapWidth: int, mapDepth: int, mapOffset: Vector3, seed: string, scale: real, octaves: int,
                 lacunarity: real, persistence: real, heightMultiplier: real, heightCurve: real -> real,
                 terrainTypes: seq<TerrainType>)
      ensures this.mapWidth == mapWidth && this.mapDepth == mapDepth && this.mapOffset == mapOffset
      ensures this.seed == seed && this.scale == scale && this.octaves == octaves
      ensures this.lacunarity == lacunarity && this.persistence == persistence
      ensures this.heightMultiplier == heightMultiplier && this.heightCurve == heightCurve
      ensures this.terrainTypes == terrainTypes
      ensures vertices.Length == 0 && triangles.Length == 0 && colors.Length == 0
    {
      this.mapWidth := mapWidth;
      this.mapDepth := mapDepth;
      this.mapOffset := mapOffset;
      this.seed := seed;
      this.scale := scale;
      this.octaves := octaves;
      this.lacunarity := lacunarity;
      this.persistence := persistence;
      this.heightMultiplier := heightMultiplier;
      this.heightCurve := heightCurve;
      this.terrainTypes := terrainTypes;
      vertices := new Vector3[0];
      triangles := new int[0];
      colors := new Color[0];
    }

    /** The height-field inputs CreateMesh hands to GenerateNoiseMap. */
    function NoiseInputs(lib: Library): Noise.NoiseInputs
      reads this`mapWidth, this`mapDepth, this`mapOffset, this`seed, this`scale, this`octaves,
            this`lacunarity, this`persistence
      requires mapWidth >= 0 && mapDepth >= 0 && octaves >= 0
    {
      Noise.NoiseInputs(mapWidth, mapDepth, mapOffset, seed, scale, octaves, lacunarity, persistence, lib)
    }

    /** Rebuilds the three arrays. ok == false stands for the exceptions the
        method can raise: a negative triangle-array size (exactly one
        dimension 0, the other at least 2), which leaves the new vertex array
        in place, or an empty rule array with at least one cell, which stops
        the vertex loop at its first cell. */
    method CreateMesh(lib: Library) returns (ok: bool)
      requires mapWidth >= 0 && mapDepth >= 0 && octaves >= 0
      modifies this`vertices, this`triangles, this`colors
      ensures fresh(vertices) && vertices.Length == mapWidth * mapDepth
      ensures ok <==> (mapWidth - 1) * (mapDepth - 1) * 6 >= 0 && (|terrainTypes| > 0 || mapWidth * mapDepth == 0)
      ensures (mapWidth - 1) * (mapDepth - 1) * 6 < 0 ==> triangles == old(triangles) && colors == old(colors)
      ensures (mapWidth - 1) * (mapDepth - 1) * 6 >= 0 ==>
        fresh(triangles) && fresh(colors) &&
        triangles.Length == (mapWidth - 1) * (mapDepth - 1) * 6 && colors.Length == vertices.Length
      ensures forall x, z :: 0 <= x < mapWidth && 0 <= z < mapDepth ==>
        0 <= Grid.Index(mapWidth, x, z) < vertices.Length
      ensures ok ==> forall x, z :: 0 <= x < mapWidth && 0 <= z < mapDepth ==>
        vertices[Grid.Index(mapWidth, x, z)]
          == VertexOfCell(x, z, Noise.NoiseValue(NoiseInputs(lib), x, z), heightCurve, heightMultiplier)
      ensures ok ==> forall x, z :: 0 <= x < mapWidth && 0 <= z < mapDepth ==>
        GetTerrain(terrainTypes, Noise.NoiseValue(NoiseInputs(lib), x, z)).Some? &&
        colors[Grid.Index(mapWidth, x, z)]
          == GetTerrain(terrainTypes, Noise.NoiseValue(NoiseInputs(lib), x, z)).value.color
      ensures ok && mapWidth >= 1 && mapDepth >= 1 ==> triangles[..] == TriangleList(mapWidth, mapDepth)
      ensures ok && mapWidth >= 1 && mapDepth >= 1 ==>
        forall k :: 0 <= k < triangles.Length ==> 0 <= triangles[k] < vertices.Length
      ensures ok && (mapWidth == 0 || mapDepth == 0) ==> forall k :: 0 <= k < triangles.Length ==> triangles[k] == 0
    {
      vertices := new Vector3[mapWidth * mapDepth](_ => Vector3(0.0, 0.0, 0.0));
      Grid.IndexInRange(mapWidth, mapDepth);
      if (mapWidth - 1) * (mapDepth - 1) * 6 < 0 {
        return false;
      }
      triangles := new int[(mapWidth - 1) * (mapDepth - 1) * 6](_ => 0);
      colors := new Color[vertices.Length](_ => Color(0.0, 0.0, 0.0, 0.0));

      var heightMap := Noise.GenerateNoiseMap(mapWidth, mapDepth, mapOffset, seed, scale, octaves,
                                              lacunarity, persistence, lib);

      ok := FillFromNoise(heightMap, NoiseInputs(lib), vertices, colors, heightCurve, heightMultiplier, terrainTypes);
      if !ok {
        return;
      }

      // With a zero dimension the triangle loops run no iteration.
      if mapWidth >= 1 && mapDepth >= 1 {
        FillTriangles(triangles, mapWidth, mapDepth);
        TriangleListInRange(mapWidth, mapDepth);
      }
    }
  }
}
