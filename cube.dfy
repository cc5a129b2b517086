/**
 * Cube meshing (module `cube` of pearl/src/mesh.rs): the 36 vertices of a
 * unit cube, two triangles per face, from fixed tables.
 */
module Cube {
  import opened Vectors

  datatype TexCoord = TexCoord(u: int, v: int)

  /** `PosNormTex`: one vertex of the non-indexed triangle list. */
  datatype Vertex = Vertex(position: Vec3, normal: Vec3, texCoord: TexCoord)

  type CornerIndex = i: nat | i < 8

  /** Unit cube corners: bottom face, then top face. */
  const VERTICES: seq<Vec3> := [
    Vec3(0, 0, 0),
    Vec3(0, 0, 1),
    Vec3(1, 0, 1),
    Vec3(1, 0, 0),
    Vec3(0, 1, 0),
    Vec3(0, 1, 1),
    Vec3(1, 1, 1),
    Vec3(1, 1, 0)
  ]

  /** Corner indices of the two triangles of each face, in the order +x, -x, +y, -y, +z, -z. */
  const FACES: seq<seq<CornerIndex>> := [
    [2, 7, 6, 7, 2, 3],
    [0, 5, 4, 5, 0, 1],
    [4, 6, 7, 6, 4, 5],
    [1, 3, 2, 3, 1, 0],
    [1, 6, 5, 6, 1, 2],
    [3, 4, 7, 4, 3, 0]
  ]

  /** The texture coordinates of the six vertices of a face, the same on every face. */
  const TEXTURE_COORDINATES: seq<TexCoord> := [
    TexCoord(0, 0),
    TexCoord(1, 1),
    TexCoord(0, 1),
    TexCoord(1, 1),
    TexCoord(0, 0),
    TexCoord(1, 0)
  ]

  /** Outward normal of each face, in the order of `FACES`. */
  const NORMALS: seq<Vec3> := [
    Vec3(1, 0, 0),
    Vec3(-1, 0, 0),
    Vec3(0, 1, 0),
    Vec3(0, -1, 0),
    Vec3(0, 0, 1),
    Vec3(0, 0, -1)
  ]

  const TOTAL_VERTEX_COUNT: nat := 36

  predicate IsFace(f: int) {
    0 <= f < 6
  }

  /** Vertex `v` of face `f`, translated by `offset`. */
  function FaceVertex(offset: Vec3, f: int, v: int): Vertex
    requires IsFace(f) && 0 <= v < 6
  {
    Vertex(VERTICES[FACES[f][v]].Add(offset), NORMALS[f], TEXTURE_COORDINATES[v])
  }

  /** Vertices 0 .. n-1 of face f, in order. */
  function FaceRun(offset: Vec3, f: int, n: nat): (s: seq<Vertex>)
    requires IsFace(f) && n <= 6
    ensures |s| == n
  {
    if n == 0 then [] else FaceRun(offset, f, n - 1) + [FaceVertex(offset, f, n - 1)]
  }

  /** The vertices of faces 0 .. n-1, face after face. */
  function Faces(offset: Vec3, n: nat): (s: seq<Vertex>)
    requires n <= 6
    ensures |s| == 6 * n
  {
    if n == 0 then [] else Faces(offset, n - 1) + FaceRun(offset, n - 1, 6)
  }

  /** Vertex v of a face's run is the face's vertex v. */
  lemma {:induction false} FaceRunAt(offset: Vec3, f: int, n: nat, v: int)
    requires IsFace(f) && n <= 6 && 0 <= v < n
    ensures FaceRun(offset, f, n)[v] == FaceVertex(offset, f, v)
  {
    if v < n - 1 {
      FaceRunAt(offset, f, n - 1, v);
    }
  }

  /** Vertex 6f+v of the first n faces is vertex v of face f. */
  lemma {:induction false} FacesAt(offset: Vec3, n: nat, f: int, v: int)
    requires n <= 6 && 0 <= f < n && 0 <= v < 6
    ensures Faces(offset, n)[6 * f + v] == FaceVertex(offset, f, v)
  {
    if f < n - 1 {
      FacesAt(offset, n - 1, f, v);
    } else {
      FaceRunAt(offset, f, 6, v);
    }
  }

  /** The whole cube at `offset`. */
  function Vertices(offset: Vec3): seq<Vertex> {
    Faces(offset, 6)
  }

  /** `generate_cube`: appends the cube at `offset` to `dest`, face by face and vertex by vertex.
      The caller's vector is threaded through as a value. */
  method GenerateCube(offset: Vec3, dest: seq<Vertex>) returns (out: seq<Vertex>)
    ensures out == dest + Vertices(offset)
  {
    out := dest;
    for f := 0 to 6
      invariant out == dest + Faces(offset, f)
    {
      for v := 0 to 6
        invariant out == dest + Faces(offset, f) + FaceRun(offset, f, v)
      {
        out := out + [FaceVertex(offset, f, v)];
      }
    }
  }

  /** The cube has 36 vertices; vertex 6f+v is corner FACES[f][v] moved by `offset`,
      with face f's normal and the v-th texture coordinate. */
  lemma VertexLayout(offset: Vec3, f: int, v: int)
    requires IsFace(f) && 0 <= v < 6
    ensures |Vertices(offset)| == TOTAL_VERTEX_COUNT
    ensures Vertices(offset)[6 * f + v].position == VERTICES[FACES[f][v]].Add(offset)
    ensures Vertices(offset)[6 * f + v].normal == NORMALS[f]
    ensures Vertices(offset)[6 * f + v].texCoord == TEXTURE_COORDINATES[v]
  {
    FacesAt(offset, 6, f, v);
  }

  /** Every normal is an axis-aligned unit vector, and no two faces share one. */
  lemma NormalsDistinctUnitAxes(f: int, g: int)
    requires IsFace(f) && IsFace(g)
    ensures NORMALS[f] in {Vec3(1, 0, 0), Vec3(-1, 0, 0), Vec3(0, 1, 0), Vec3(0, -1, 0), Vec3(0, 0, 1), Vec3(0, 0, -1)}
    ensures NORMALS[f] == NORMALS[g] <==> f == g
  {
  }

  /** Each of the six normals is carried by exactly the six vertices of its face. */
  lemma NormalCount(offset: Vec3, f: int, n: int)
    requires IsFace(f) && 0 <= n < TOTAL_VERTEX_COUNT
    ensures |Vertices(offset)| == TOTAL_VERTEX_COUNT
    ensures Vertices(offset)[n].normal == NORMALS[f] <==> 6 * f <= n < 6 * f + 6
  {
    var g, v := n / 6, n % 6;
    assert n == 6 * g + v;
    VertexLayout(offset, g, v);
    NormalsDistinctUnitAxes(f, g);
  }

  /** Corner `p` lies on the unit-cube side whose outward normal is `normal`. */
  predicate OnSide(p: Vec3, normal: Vec3) {
    && (normal.x != 0 ==> p.x == (if normal.x > 0 then 1 else 0))
    && (normal.y != 0 ==> p.y == (if normal.y > 0 then 1 else 0))
    && (normal.z != 0 ==> p.z == (if normal.z > 0 then 1 else 0))
  }

  /** All six corners of face f lie on the side with normal NORMALS[f]. */
  lemma FaceOnItsSide(f: int, v: int)
    requires IsFace(f) && 0 <= v < 6
    ensures OnSide(VERTICES[FACES[f][v]], NORMALS[f])
  {
  }

  /** The two triangles of a face share the diagonal, the first edge: vertex 4 repeats
      vertex 0 and vertex 3 repeats vertex 1; a repeated corner gets the same texture coordinate. */
  lemma SharedDiagonal(f: int, v: int, w: int)
    requires IsFace(f) && 0 <= v < 6 && 0 <= w < 6
    ensures FACES[f][0] == FACES[f][4] && FACES[f][1] == FACES[f][3]
    ensures FACES[f][v] == FACES[f][w] ==> TEXTURE_COORDINATES[v] == TEXTURE_COORDINATES[w]
  {
  }

  /** Neither triangle of a face is degenerate (its three corners are distinct), and the
      second triangle's last corner lies off the first triangle: the two split one square. */
  lemma TrianglesNonDegenerate(f: int)
    requires IsFace(f)
    ensures FACES[f][0] != FACES[f][1] && FACES[f][1] != FACES[f][2] && FACES[f][0] != FACES[f][2]
    ensures FACES[f][3] != FACES[f][4] && FACES[f][4] != FACES[f][5] && FACES[f][3] != FACES[f][5]
    ensures FACES[f][5] !in FACES[f][..3]
  {
  }
}
