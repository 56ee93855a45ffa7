/// Rectangles and the one-quad draw the 2D renderer issues for each of them.
/// The device calls of a draw (buffer uploads, binds, the indexed draw) are
/// returned as one DrawCall value describing what is submitted.
module Renderer2D {
  import opened Vectors
  import opened ArrayBuffer
  import opened Indices

  /// A rectangle placed by its pivot: `position` is where the pivot sits;
  /// pivot (0, 0) is the bottom-left corner and (1, 1) the top-right one.
  /// The z of `position` is the depth every corner is drawn at.
  datatype Rect = Rect(position: Vec3, size: Vec2, pivot: Vec2)
  {
    function Left(): (l: real)
      ensures pivot.x == 0.0 ==> l == position.x
      ensures pivot.x == 1.0 ==> l == position.x - size.x
    {
      position.x - size.x * pivot.x
    }

    function Right(): (r: real)
      ensures r - Left() == size.x
      ensures pivot.x == 1.0 ==> r == position.x
    {
      position.x + size.x * (1.0 - pivot.x)
    }

    function Bottom(): (b: real)
      ensures pivot.y == 0.0 ==> b == position.y
      ensures pivot.y == 1.0 ==> b == position.y - size.y
    {
      position.y - size.y * pivot.y
    }

    function Top(): (t: real)
      ensures t - Bottom() == size.y
      ensures pivot.y == 1.0 ==> t == position.y
    {
      position.y + size.y * (1.0 - pivot.y)
    }

    /// The bounds in the order (left, right, top, bottom): top comes before
    /// bottom
    function Bounds(): (b: (real, real, real, real))
      ensures b.0 == Left() && b.1 - b.0 == size.x
      ensures b.3 == Bottom() && b.2 - b.3 == size.y
    {
      (Left(), Right(), Top(), Bottom())
    }
  }

  /// Floats per vertex record: x, y, z, u, v, r, g, b, a
  const VERTEX_FLOATS: nat := 9
  /// Where the position, the UV and the colour start inside a record
  const POSITION_AT: nat := 0
  const UV_AT: nat := 3
  const COLOR_AT: nat := 5

  /// The attribute layout the rectangle's vertex buffer is described with
  const RECT_VERTEX_ATTRIBUTES: seq<BufferAttribute> := [
    BufferAttribute(Vec3f, false),
    BufferAttribute(Vec2f, false),
    BufferAttribute(Vec4f, false)]

  /// One corner as the nine floats uploaded for it
  function Vertex(x: real, y: real, z: real, u: real, v: real, tint: Vec4): (vert: seq<real>)
    ensures |vert| == VERTEX_FLOATS
  {
    [x, y, z, u, v, tint.x, tint.y, tint.z, tint.w]
  }

  /// The RGBA colour stored in a vertex record
  function VertexColor(vert: seq<real>): Vec4
    requires |vert| == VERTEX_FLOATS
  {
    Vec4(vert[COLOR_AT], vert[COLOR_AT + 1], vert[COLOR_AT + 2], vert[COLOR_AT + 3])
  }

  type Byte = x: nat | x < 256

  /// A texture as the data it is created from: RGBA bytes, row by row, and
  /// its size in pixels
  datatype Texture = Texture(pixels: seq<Byte>, width: nat, height: nat)

  /// The texture untextured rectangles are drawn with
  function DefaultTexture(): (t: Texture)
    ensures t.width == 1 && t.height == 1 && |t.pixels| == 4 * t.width * t.height
    ensures forall i :: 0 <= i < |t.pixels| ==> t.pixels[i] == 255
  {
    Texture([255, 255, 255, 255], 1, 1)
  }

  /// The colour of the only pixel of a 1x1 texture, each byte scaled to [0, 1]
  /// as the sampler returns it; every texture coordinate samples this pixel
  function OnlyTexel(t: Texture): Vec4
    requires |t.pixels| == 4
  {
    Vec4(t.pixels[0] as real / 255.0, t.pixels[1] as real / 255.0,
         t.pixels[2] as real / 255.0, t.pixels[3] as real / 255.0)
  }

  /// The fragment shader's output: the sampled texel times the vertex colour,
  /// component by component
  function ShadeFragment(texel: Vec4, color: Vec4): Vec4
  {
    Vec4(texel.x * color.x, texel.y * color.y, texel.z * color.z, texel.w * color.w)
  }

  /// The four corners of a rectangle as the vertex records uploaded for it
  function RectVertices(rect: Rect, tint: Vec4): (vertices: seq<seq<real>>)
    // four records of nine floats, at the rectangle's depth, in the tint
    ensures |vertices| == 4
    ensures forall k :: 0 <= k < 4 ==> |vertices[k]| == VERTEX_FLOATS
    ensures forall k :: 0 <= k < 4 ==> vertices[k][POSITION_AT + 2] == rect.position.z
    ensures forall k :: 0 <= k < 4 ==> VertexColor(vertices[k]) == tint
    // the corners in the order bottom-left, bottom-right, top-right,
    // top-left, each carrying the UV of that corner of the texture ...
    ensures vertices[0][UV_AT..UV_AT + 2] == [0.0, 0.0]
    ensures vertices[1][UV_AT..UV_AT + 2] == [1.0, 0.0]
    ensures vertices[2][UV_AT..UV_AT + 2] == [1.0, 1.0]
    ensures vertices[3][UV_AT..UV_AT + 2] == [0.0, 1.0]
    // ... so that the texture is stretched over the rectangle unflipped
    ensures forall k :: 0 <= k < 4 ==>
      vertices[k][POSITION_AT] == rect.Left() + vertices[k][UV_AT] * rect.size.x &&
      vertices[k][POSITION_AT + 1] == rect.Bottom() + vertices[k][UV_AT + 1] * rect.size.y
  {
    var bounds := rect.Bounds();
    [Vertex(bounds.0, bounds.3, rect.position.z, 0.0, 0.0, tint),
     Vertex(bounds.1, bounds.3, rect.position.z, 1.0, 0.0, tint),
     Vertex(bounds.1, bounds.2, rect.position.z, 1.0, 1.0, tint),
     Vertex(bounds.0, bounds.2, rect.position.z, 0.0, 1.0, tint)]
  }

  /// Everything one immediate-mode rectangle draw submits: the vertex data,
  /// its size in bytes and the layout it is described with, the index list
  /// and its size in bytes, the texture and the slot it is bound to, and the
  /// number of indices drawn
  datatype DrawCall = DrawCall(
    vertices: seq<seq<real>>,
    vertexBytes: nat,
    layout: BufferLayout,
    indices: seq<nat>,
    indexBytes: nat,
    texture: Texture,
    slot: nat,
    count: nat)

  /// Bytes of one f32 and of one u32
  const F32_BYTES: nat := 4
  const U32_BYTES: nat := 4

  /// The texture unit Renderer2D::new sets the shader's u_texture sampler
  /// to read; every renderer sets the same one
  const SAMPLER_UNIT: nat := 0

  /// The renderer's state the draws depend on: its default texture
  datatype Renderer2D = Renderer2D(defaultTexture: Texture)
  {
    /// Renderer2D::draw_textured_rect; what the draw submits is stated by
    /// the lemmas DrawUploadsRectVertices, DrawLayoutMatchesVertexRecord and
    /// DrawIndicesCoverQuad below.
    function DrawTexturedRect(rect: Rect, texture: Texture, tint: Vec4): (d: DrawCall)
      ensures |d.vertices| == 4 && d.count == 6
    {
      var vertices := RectVertices(rect, tint);
      DrawCall(vertices, F32_BYTES * VERTEX_FLOATS * |vertices|, LayoutOf(RECT_VERTEX_ATTRIBUTES),
               RECT_INDICES, U32_BYTES * |RECT_INDICES|, texture, 0, 6)
    }

    /// Renderer2D::draw_rect: a rectangle drawn with the default texture
    function DrawRect(rect: Rect, color: Vec4): (d: DrawCall)
      ensures d.texture == defaultTexture
      ensures d.slot == 0
      ensures |d.vertices| == 4
      ensures forall k :: 0 <= k < 4 ==> |d.vertices[k]| == VERTEX_FLOATS
      ensures forall k :: 0 <= k < 4 ==> VertexColor(d.vertices[k]) == color
    {
      DrawTexturedRect(rect, defaultTexture, color)
    }
  }

  /// Renderer2D::new: the default texture is the 1x1 white one
  function NewRenderer2D(): (r: Renderer2D)
    ensures r.defaultTexture == DefaultTexture()
    ensures OnlyTexel(r.defaultTexture) == Vec4(1.0, 1.0, 1.0, 1.0)
  {
    Renderer2D(DefaultTexture())
  }

  /// The three attributes add up to a 36-byte record, i.e. the nine floats of
  /// a vertex, and start where the position, UV and colour start in it.
  lemma RectVertexRecordMatchesLayout()
    ensures SizeSum(RECT_VERTEX_ATTRIBUTES) == 36 == F32_BYTES * VERTEX_FLOATS
    ensures Offsets(RECT_VERTEX_ATTRIBUTES) == [F32_BYTES * POSITION_AT, F32_BYTES * UV_AT, F32_BYTES * COLOR_AT]
  {
    var a := RECT_VERTEX_ATTRIBUTES;
    assert a[..1][..0] == a[..0] == [];
    assert SizeSum(a[..1]) == 12;
    assert a[..2][..1] == a[..1];
    assert SizeSum(a[..2]) == 20;
    assert a[..3][..2] == a[..2] && a[..3] == a;
    assert SizeSum(a) == 36;
  }

  /// A draw uploads the rectangle's four corners whole, one stride per
  /// vertex, and binds the given texture to slot 0.
  lemma DrawUploadsRectVertices(r: Renderer2D, rect: Rect, texture: Texture, tint: Vec4)
    ensures var d := r.DrawTexturedRect(rect, texture, tint);
      d.vertices == RectVertices(rect, tint) &&
      d.vertexBytes == |d.vertices| * d.layout.stride &&
      d.texture == texture && d.slot == 0
  {
    RectVertexRecordMatchesLayout();
  }

  /// The layout a draw describes its vertices with is the one BufferLayout
  /// computes for (Vec3f, Vec2f, Vec4f), and it matches the nine-float
  /// record: 36 bytes, with the position, UV and colour at bytes 0, 12, 20.
  lemma DrawLayoutMatchesVertexRecord(r: Renderer2D, rect: Rect, texture: Texture, tint: Vec4)
    ensures var d := r.DrawTexturedRect(rect, texture, tint);
      d.layout == LayoutOf(RECT_VERTEX_ATTRIBUTES) &&
      d.layout.stride == F32_BYTES * VERTEX_FLOATS &&
      d.layout.offsets == [F32_BYTES * POSITION_AT, F32_BYTES * UV_AT, F32_BYTES * COLOR_AT]
  {
    RectVertexRecordMatchesLayout();
  }

  /// A draw submits one quad's index pattern, uploads and draws all of it,
  /// and refers to every vertex it uploaded and to no other.
  lemma DrawIndicesCoverQuad(r: Renderer2D, rect: Rect, texture: Texture, tint: Vec4)
    ensures var d := r.DrawTexturedRect(rect, texture, tint);
      d.indices == IndexPattern(1) &&
      d.indexBytes == U32_BYTES * |d.indices| &&
      d.count == |d.indices| &&
      forall i: nat :: i in d.indices <==> i < |d.vertices|
  {
    RectIndicesFollowPattern();
    IndexPatternReferencesExactly(1);
  }

  /// The texture a draw binds is the one the shader samples: every draw
  /// binds to the unit the renderer set the sampler to.
  lemma DrawSamplesBoundTexture(r: Renderer2D, rect: Rect, texture: Texture, tint: Vec4)
    ensures r.DrawTexturedRect(rect, texture, tint).slot == SAMPLER_UNIT
  {
  }

  /// An untextured rectangle is filled with exactly its colour: the white
  /// default texel leaves the vertex colour unchanged.
  lemma DrawRectShadesSolidColor(rect: Rect, color: Vec4)
    ensures var d := NewRenderer2D().DrawRect(rect, color);
      forall k :: 0 <= k < 4 ==> ShadeFragment(OnlyTexel(d.texture), VertexColor(d.vertices[k])) == color
  {
    var d := NewRenderer2D().DrawRect(rect, color);
    assert OnlyTexel(d.texture) == Vec4(1.0, 1.0, 1.0, 1.0);
  }

  /// Twice the signed area of the triangle through the (x, y) of three
  /// vertex records; positive when the corners run counter-clockwise
  function SignedArea2(p: seq<real>, q: seq<real>, s: seq<real>): real
    requires |p| == |q| == |s| == VERTEX_FLOATS
  {
    (q[0] - p[0]) * (s[1] - p[1]) - (s[0] - p[0]) * (q[1] - p[1])
  }

  /// Both triangles of a rectangle with positive size run counter-clockwise,
  /// each covering half of its area.
  lemma QuadTrianglesRunCounterClockwise(r: Renderer2D, rect: Rect, texture: Texture, tint: Vec4)
    requires rect.size.x > 0.0 && rect.size.y > 0.0
    ensures var d := r.DrawTexturedRect(rect, texture, tint);
      forall t :: 0 <= t < 2 ==>
        SignedArea2(d.vertices[d.indices[3 * t]], d.vertices[d.indices[3 * t + 1]], d.vertices[d.indices[3 * t + 2]])
        == rect.size.x * rect.size.y > 0.0
  {
    var d := r.DrawTexturedRect(rect, texture, tint);
    assert d.indices == [0, 1, 2, 0, 2, 3];
    var w, h := rect.size.x, rect.size.y;
    assert d.vertices[1][0] - d.vertices[0][0] == w && d.vertices[2][0] - d.vertices[0][0] == w;
    assert d.vertices[3][0] - d.vertices[0][0] == 0.0 && d.vertices[1][1] - d.vertices[0][1] == 0.0;
    assert d.vertices[2][1] - d.vertices[0][1] == h && d.vertices[3][1] - d.vertices[0][1] == h;
  }

  /// The bounds for the rectangle of size (200, 100) at the origin: with
  /// the pivot at the centre and at the top-right corner.
  lemma PivotExamples()
    ensures Rect(Vec3(0.0, 0.0, 0.0), Vec2(200.0, 100.0), Vec2(0.5, 0.5)).Bounds() == (-100.0, 100.0, 50.0, -50.0)
    ensures Rect(Vec3(0.0, 0.0, 0.0), Vec2(200.0, 100.0), Vec2(1.0, 1.0)).Bounds() == (-200.0, 0.0, 0.0, -100.0)
  {
  }
}
