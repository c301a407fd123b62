/**
 * UI primitives: the vertex layout of the UI buffers and the two helpers
 * that fill it. A quad is two triangles written as six consecutive
 * vertices; a cube is six quads.
 */
module Prims {
  import opened Common

  /** A 2-vector of floats; the coordinates are only copied, never computed on. */
  datatype Vec2 = Vec2(x: real, y: real)

  type byte = b: int | 0 <= b < 256

  /** `glm::u8vec4`. */
  datatype Color = Color(r: byte, g: byte, b: byte, a: byte)

  /** `UIVertex<2>`: position, texture coordinates, colour and the active flag. */
  datatype UIVertex = UIVertex(pos: Vec2, uv: Vec2, color: Color, active: bool)

  /** `UIVertex<2>{}`: the value-initialised vertex. */
  const DEFAULT_VERTEX: UIVertex := UIVertex(Vec2(0.0, 0.0), Vec2(0.0, 0.0), Color(0, 0, 0, 0), false)

  /** The extents of a quad: `x` and `y` ranges of the position, `u` and `v` ranges of the texture. */
  datatype Quad = Quad(x: Vec2, y: Vec2, u: Vec2, v: Vec2)

  /**
   * Corner `k` of the two triangles over the rectangle `a` x `b`: the
   * first triangle is (low, low), (high, low), (high, high); the second
   * (high, high), (low, high), (low, low).
   */
  function Corner(k: nat, a: Vec2, b: Vec2): (r: Vec2)
    requires k < 6
    ensures r.x == a.x || r.x == a.y
    ensures r.y == b.x || r.y == b.y
  {
    if k == 0 || k == 5 then Vec2(a.x, b.x)
    else if k == 1 then Vec2(a.y, b.x)
    else if k == 2 || k == 3 then Vec2(a.y, b.y)
    else Vec2(a.x, b.y)
  }

  /** Vertex `k` of quad `q` in colour `color`, keeping the old active flag. */
  function QuadVertex(old_: UIVertex, k: nat, q: Quad, color: Color): (r: UIVertex)
    requires k < 6
    ensures r.active == old_.active && r.color == color
    ensures r.pos == Corner(k, q.x, q.y) && r.uv == Corner(k, q.u, q.v)
  {
    UIVertex(Corner(k, q.x, q.y), Corner(k, q.u, q.v), color, old_.active)
  }

  /** The six vertices from `at` show quad `q` in colour `color`. */
  ghost predicate QuadAt(buf: seq<UIVertex>, at: nat, q: Quad, color: Color)
  {
    at + 6 <= |buf|
    && forall j :: at <= j < at + 6 ==>
         buf[j].pos == Corner(j - at, q.x, q.y) && buf[j].uv == Corner(j - at, q.u, q.v) && buf[j].color == color
  }

  /**
   * `CreateQuad`: writes position, texture coordinates and colour of the
   * six vertices from `at`; every other vertex, and the active flags, are
   * left as they were.
   */
  method CreateQuad(buf: array<UIVertex>, at: nat, q: Quad, color: Color)
    requires at + 6 <= buf.Length
    modifies buf
    ensures forall j :: at <= j < at + 6 ==> buf[j] == QuadVertex(old(buf[j]), j - at, q, color)
    ensures forall j :: 0 <= j < buf.Length && !(at <= j < at + 6) ==> buf[j] == old(buf[j])
    ensures QuadAt(buf[..], at, q, color)
  {
    ghost var before := buf[..];
    buf[at] := buf[at].(pos := Vec2(q.x.x, q.y.x), color := color, uv := Vec2(q.u.x, q.v.x));
    buf[at + 1] := buf[at + 1].(pos := Vec2(q.x.y, q.y.x), color := color, uv := Vec2(q.u.y, q.v.x));
    buf[at + 2] := buf[at + 2].(pos := Vec2(q.x.y, q.y.y), color := color, uv := Vec2(q.u.y, q.v.y));
    buf[at + 3] := buf[at + 3].(pos := Vec2(q.x.y, q.y.y), color := color, uv := Vec2(q.u.y, q.v.y));
    buf[at + 4] := buf[at + 4].(pos := Vec2(q.x.x, q.y.y), color := color, uv := Vec2(q.u.x, q.v.y));
    buf[at + 5] := buf[at + 5].(pos := Vec2(q.x.x, q.y.x), color := color, uv := Vec2(q.u.x, q.v.x));
    forall j | at <= j < at + 6
      ensures buf[j] == QuadVertex(before[j], j - at, q, color)
    {
    }
  }

  /** A quad stays drawn while its six vertices are left alone. */
  lemma QuadAtFrame(b1: seq<UIVertex>, b2: seq<UIVertex>, at: nat, q: Quad, color: Color)
    requires QuadAt(b1, at, q, color) && |b1| == |b2|
    requires forall j :: at <= j < at + 6 ==> b2[j] == b1[j]
    ensures QuadAt(b2, at, q, color)
  {
  }

  /**
   * `CreateCube`: six quads with the texture's coordinates, side `s` at
   * vertex `6 s` from the start of the buffer, then 36 more vertices
   * counted (in `uint32_t`).
   */
  method CreateCube(buf: array<UIVertex>, vertexCount: u32, x: Vec2, y: Vec2, u: Vec2, v: Vec2, color: Color)
    returns (newVertexCount: u32)
    requires 36 <= buf.Length
    modifies buf
    ensures newVertexCount == Add32(vertexCount, 36)
    ensures vertexCount + 36 < U32_LIMIT ==> newVertexCount == vertexCount + 36
    ensures forall s :: 0 <= s < 6 ==> QuadAt(buf[..], 6 * s, Quad(x, y, u, v), color)
    ensures forall j :: 36 <= j < buf.Length ==> buf[j] == old(buf[j])
  {
    var side := 0;
    while side < 6
      invariant 0 <= side <= 6
      invariant forall s :: 0 <= s < side ==> QuadAt(buf[..], 6 * s, Quad(x, y, u, v), color)
      invariant forall j :: 6 * side <= j < buf.Length ==> buf[j] == old(buf[j])
    {
      ghost var before := buf[..];
      CreateQuad(buf, 6 * side, Quad(x, y, u, v), color);
      forall s | 0 <= s < side
        ensures QuadAt(buf[..], 6 * s, Quad(x, y, u, v), color)
      {
        QuadAtFrame(before, buf[..], 6 * s, Quad(x, y, u, v), color);
      }
      side := side + 1;
    }
    newVertexCount := Add32(vertexCount, 6 * 6);
  }
}
