/// Vertex attribute types and the byte layout of one vertex record
/// (types, byte offsets and stride) that a vertex buffer is described with.
module ArrayBuffer {

  /// OpenGL's GL_FLOAT enumerant
  const GL_FLOAT: nat := 0x1406

  datatype AttributeType = Float | Vec2f | Vec3f | Vec4f
  {
    /// Bytes one attribute of this type occupies in a vertex record:
    /// four bytes (one f32) per component
    function Size(): (n: nat)
      ensures n == 4 * ComponentCount()
    {
      match this
      case Float => 4
      case Vec2f => 4 * 2
      case Vec3f => 4 * 3
      case Vec4f => 4 * 4
    }

    /// Number of f32 components the attribute holds
    function ComponentCount(): (n: nat)
      ensures 1 <= n <= 4
    {
      match this
      case Float => 1
      case Vec2f => 2
      case Vec3f => 3
      case Vec4f => 4
    }

    /// The component type handed to the graphics API: always GL_FLOAT
    function OpenGlType(): (t: nat)
      ensures t == GL_FLOAT
    {
      match this
      case Float | Vec2f | Vec3f | Vec4f => GL_FLOAT
    }
  }

  /// One attribute of a vertex record; built by BufferAttribute::new and read
  /// back through the attribute_type() and normalized() getters
  datatype BufferAttribute = BufferAttribute(attributeType: AttributeType, normalized: bool)

  /// The getters return exactly what the attribute was built with.
  lemma AttributeGettersReturnArguments(t: AttributeType, n: bool)
    ensures BufferAttribute(t, n).attributeType == t
    ensures BufferAttribute(t, n).normalized == n
  {
  }

  /// A computed layout: the attributes in order, the byte offset of each one
  /// inside a vertex record, and the record's total size (the stride)
  datatype BufferLayout = BufferLayout(attributes: seq<BufferAttribute>, offsets: seq<nat>, stride: nat)

  /// Total byte size of a run of attributes: the running offset once they
  /// have all been laid out. It is a whole number of f32 values.
  function SizeSum(attributes: seq<BufferAttribute>): (n: nat)
    ensures n % 4 == 0
    ensures attributes == [] <==> n == 0
  {
    if attributes == [] then 0
    else SizeSum(attributes[..|attributes| - 1]) + attributes[|attributes| - 1].attributeType.Size()
  }

  /// The offset of each attribute: the total size of the attributes before it
  function Offsets(attributes: seq<BufferAttribute>): (offsets: seq<nat>)
    ensures |offsets| == |attributes|
  {
    seq(|attributes|, i requires 0 <= i < |attributes| => SizeSum(attributes[..i]))
  }

  /// The layout BufferLayout::new computes for the given attributes
  function LayoutOf(attributes: seq<BufferAttribute>): (layout: BufferLayout)
    ensures |layout.offsets| == |layout.attributes|
  {
    BufferLayout(attributes, Offsets(attributes), SizeSum(attributes))
  }

  /// BufferLayout::new: a single pass over the attributes that records the
  /// running byte offset of each one and keeps the final offset as the stride.
  method NewBufferLayout(attributes: seq<BufferAttribute>) returns (layout: BufferLayout)
    ensures layout.attributes == attributes
    ensures layout.offsets == Offsets(attributes)
    ensures layout.stride == SizeSum(attributes)
  {
    var offsets := new nat[|attributes|](_ => 0);
    var offset := 0;
    for i := 0 to |attributes|
      invariant offset == SizeSum(attributes[..i])
      invariant forall j :: 0 <= j < i ==> offsets[j] == SizeSum(attributes[..j])
    {
      offsets[i] := offset;
      assert attributes[..i + 1][..i] == attributes[..i];
      offset := offset + attributes[i].attributeType.Size();
    }
    assert attributes[..|attributes|] == attributes;
    layout := BufferLayout(attributes, offsets[..], offset);
  }

  /// Each attribute adds between 4 and 16 bytes: a prefix of i attributes
  /// and a longer prefix of j attributes differ by that much per attribute.
  lemma {:induction false} SizeSumGrowth(attributes: seq<BufferAttribute>, i: nat, j: nat)
    requires i <= j <= |attributes|
    ensures SizeSum(attributes[..i]) + 4 * (j - i) <= SizeSum(attributes[..j])
    ensures SizeSum(attributes[..j]) <= SizeSum(attributes[..i]) + 16 * (j - i)
  {
    if i < j {
      SizeSumGrowth(attributes, i, j - 1);
      assert attributes[..j][..j - 1] == attributes[..j - 1];
    }
  }

  /// Offsets are exclusive prefix sums: the first is 0 and each next one is
  /// the previous one plus the size of the attribute in between.
  lemma OffsetsArePrefixSums(attributes: seq<BufferAttribute>)
    ensures |attributes| > 0 ==> Offsets(attributes)[0] == 0
    ensures forall i :: 0 <= i < |attributes| - 1 ==>
      Offsets(attributes)[i + 1] == Offsets(attributes)[i] + attributes[i].attributeType.Size()
  {
    forall i | 0 <= i < |attributes| - 1
      ensures Offsets(attributes)[i + 1] == Offsets(attributes)[i] + attributes[i].attributeType.Size()
    {
      assert attributes[..i + 1][..i] == attributes[..i];
    }
  }

  /// Every attribute lies inside the vertex record: its last byte is before
  /// the stride.
  lemma AttributeFitsInStride(attributes: seq<BufferAttribute>, i: nat)
    requires i < |attributes|
    ensures Offsets(attributes)[i] + attributes[i].attributeType.Size() <= SizeSum(attributes)
  {
    assert attributes[..i + 1][..i] == attributes[..i];
    SizeSumGrowth(attributes, i + 1, |attributes|);
    assert attributes[..|attributes|] == attributes;
  }

  /// Attributes never overlap: offsets increase strictly, by at least 4 bytes
  /// per attribute.
  lemma OffsetsStrictlyIncrease(attributes: seq<BufferAttribute>, i: nat, j: nat)
    requires i < j < |attributes|
    ensures Offsets(attributes)[i] + 4 * (j - i) <= Offsets(attributes)[j]
  {
    SizeSumGrowth(attributes, i, j);
  }

  /// The stride lies between 4 and 16 bytes per attribute; in particular an
  /// empty attribute list has stride 0, and the u32 stride cannot overflow
  /// for fewer than 2^28 attributes.
  lemma StrideBounds(attributes: seq<BufferAttribute>)
    ensures 4 * |attributes| <= SizeSum(attributes) <= 16 * |attributes|
  {
    SizeSumGrowth(attributes, 0, |attributes|);
    assert attributes[..0] == [];
    assert attributes[..|attributes|] == attributes;
  }
}
