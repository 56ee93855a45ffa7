/// Index lists that split quads into triangles. Each quad's four corners
/// (bottom-left, bottom-right, top-right, top-left) become the triangles
/// (0, 1, 2) and (0, 2, 3), offset by four vertices per quad.
module Indices {

  /// The six indices of quad q
  function QuadIndices(q: nat): (s: seq<nat>)
    ensures |s| == 6
    ensures forall i :: 0 <= i < 6 ==> 4 * q <= s[i] < 4 * q + 4
  {
    [4 * q, 4 * q + 1, 4 * q + 2, 4 * q, 4 * q + 2, 4 * q + 3]
  }

  /// The index list for n consecutive quads
  function IndexPattern(n: nat): (s: seq<nat>)
    ensures |s| == 6 * n
    ensures forall i :: 0 <= i < |s| ==> s[i] < 4 * n
  {
    if n == 0 then [] else IndexPattern(n - 1) + QuadIndices(n - 1)
  }

  /// Entry j of quad q's six sits at position 6q + j of the pattern.
  lemma {:induction false} IndexPatternAt(n: nat, q: nat, j: nat)
    requires q < n && j < 6
    ensures IndexPattern(n)[6 * q + j] == QuadIndices(q)[j]
  {
    if q < n - 1 {
      IndexPatternAt(n - 1, q, j);
    }
  }

  /// Every vertex of the n quads is referenced by the pattern.
  lemma IndexPatternCoversVertices(n: nat, v: nat)
    requires v < 4 * n
    ensures v in IndexPattern(n)
  {
    var q := v / 4;
    var j := if v % 4 == 0 then 0 else if v % 4 == 1 then 1 else if v % 4 == 2 then 2 else 5;
    IndexPatternAt(n, q, j);
    assert IndexPattern(n)[6 * q + j] == v;
  }

  /// The pattern for n quads refers to exactly the 4n vertices they have.
  lemma IndexPatternReferencesExactly(n: nat)
    ensures forall v: nat :: v in IndexPattern(n) <==> v < 4 * n
  {
    forall v: nat | v < 4 * n
      ensures v in IndexPattern(n)
    {
      IndexPatternCoversVertices(n, v);
    }
  }

  /// The single-quad list used by the immediate-mode rectangle draw
  const RECT_INDICES: seq<nat> := [0, 1, 2, 0, 2, 3]

  /// The six-quad list written out for the cube demo
  const SIX_QUAD_INDICES: seq<nat> :=
    [0, 1, 2, 0, 2, 3] +
    [4, 5, 6, 4, 6, 7] +
    [8, 9, 10, 8, 10, 11] +
    [12, 13, 14, 12, 14, 15] +
    [16, 17, 18, 16, 18, 19] +
    [20, 21, 22, 20, 22, 23]

  /// The rectangle's index list is the pattern for one quad.
  lemma RectIndicesFollowPattern()
    ensures RECT_INDICES == IndexPattern(1)
  {
  }

  /// The cube demo's index list is the pattern for six quads.
  lemma SixQuadIndicesFollowPattern()
    ensures SIX_QUAD_INDICES == IndexPattern(6)
  {
  }

  /// The cube demo's 24 vertices (four per face) are each referenced by its
  /// index list, which refers to no vertex beyond them.
  lemma SixQuadIndicesReferenceEveryVertex()
    ensures forall v: nat :: v in SIX_QUAD_INDICES <==> v < 4 * 6
  {
    SixQuadIndicesFollowPattern();
    IndexPatternReferencesExactly(6);
  }
}
