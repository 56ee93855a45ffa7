/// A 4x4 matrix stored column-major in a flat array of 16 values.
module Matrix {
  import opened Vectors

  /// Flat index of the entry in column x, row y: the four entries of a
  /// column are stored next to each other
  function Cell(x: nat, y: nat): (k: nat)
    ensures y < 4 ==> k / 4 == x && k % 4 == y
  {
    x * 4 + y
  }

  /// Inside the 4x4 grid, Cell is one-to-one with inverse (k / 4, k % 4) ...
  lemma CellIsInvertible(x: nat, y: nat)
    requires x < 4 && y < 4
    ensures Cell(x, y) < 16
    ensures Cell(x, y) / 4 == x && Cell(x, y) % 4 == y
    ensures forall x': nat, y': nat :: y' < 4 && Cell(x', y') == Cell(x, y) ==> x' == x && y' == y
  {
  }

  /// ... and onto the 16 flat indices.
  lemma CellIsOnto(k: nat)
    requires k < 16
    ensures k / 4 < 4 && Cell(k / 4, k % 4) == k
  {
  }

  /// The identity matrix's values, in storage order
  function IdentityValues(): (v: seq<real>)
    ensures |v| == 16
    ensures forall x: nat, y: nat :: x < 4 && y < 4 ==>
      v[Cell(x, y)] == if x == y then 1.0 else 0.0
  {
    [1.0, 0.0, 0.0, 0.0,
     0.0, 1.0, 0.0, 0.0,
     0.0, 0.0, 1.0, 0.0,
     0.0, 0.0, 0.0, 1.0]
  }

  /// Entry (row, column) of the translation by t
  function TranslationEntry(t: Vec3, row: nat, column: nat): real
  {
    if column == 3 && row == 0 then t.x
    else if column == 3 && row == 1 then t.y
    else if column == 3 && row == 2 then t.z
    else if row == column then 1.0
    else 0.0
  }

  /// Entry (row, column) of the scaling by (sx, sy, sz)
  function ScalingEntry(sx: real, sy: real, sz: real, row: nat, column: nat): real
  {
    if row != column then 0.0
    else if row == 0 then sx
    else if row == 1 then sy
    else if row == 2 then sz
    else 1.0
  }

  class Mat4f {
    var values: array<real>

    ghost predicate Valid()
      reads this
    {
      values.Length == 16
    }

    /// Mat4f::identity
    constructor Identity()
      ensures Valid() && fresh(values)
      ensures values[..] == IdentityValues()
    {
      values := new real[] [
        1.0, 0.0, 0.0, 0.0,
        0.0, 1.0, 0.0, 0.0,
        0.0, 0.0, 1.0, 0.0,
        0.0, 0.0, 0.0, 1.0];
    }

    /// The struct literal Mat4f { values }
    constructor FromValues(values: array<real>)
      requires values.Length == 16
      ensures Valid() && this.values == values
    {
      this.values := values;
    }

    /// The entry in the given row and column; only the flat index has to be
    /// inside the array. Inside the grid, the entry read sits in block
    /// `column` of four values, at position `row` within it.
    function Get(row: nat, column: nat): (v: real)
      reads this, values
      requires Valid() && Cell(column, row) < 16
      ensures row < 4 ==> exists k :: 0 <= k < 16 && k / 4 == column && k % 4 == row && v == values[k]
    {
      values[Cell(column, row)]
    }

    /// Overwrites one entry; the other fifteen keep their values.
    method Set(row: nat, column: nat, value: real)
      requires Valid() && Cell(column, row) < 16
      modifies values
      ensures Valid()
      ensures values[..] == old(values[..])[Cell(column, row) := value]
      ensures Get(row, column) == value
      ensures forall r: nat, c: nat :: r < 4 && c < 4 && Cell(c, r) != Cell(column, row) ==>
        Get(r, c) == old(Get(r, c))
    {
      values[Cell(column, row)] := value;
    }

    /// The sixteen values in the order Display prints them: row by row
    function Printed(): (s: seq<real>)
      reads this, values
      requires Valid()
      ensures |s| == 16
      ensures forall k :: 0 <= k < 16 ==> s[k] == Get(k / 4, k % 4)
    {
      [values[Cell(0, 0)], values[Cell(1, 0)], values[Cell(2, 0)], values[Cell(3, 0)],
       values[Cell(0, 1)], values[Cell(1, 1)], values[Cell(2, 1)], values[Cell(3, 1)],
       values[Cell(0, 2)], values[Cell(1, 2)], values[Cell(2, 2)], values[Cell(3, 2)],
       values[Cell(0, 3)], values[Cell(1, 3)], values[Cell(2, 3)], values[Cell(3, 3)]]
    }

    /// Mat4f::translate: the identity with t in rows 0-2 of column 3
    static method Translate(translation: Vec3) returns (res: Mat4f)
      ensures fresh(res) && fresh(res.values) && res.Valid()
      ensures forall r: nat, c: nat :: r < 4 && c < 4 ==>
        res.Get(r, c) == TranslationEntry(translation, r, c)
    {
      res := new Mat4f.Identity();
      res.values[Cell(3, 0)] := translation.x;
      res.values[Cell(3, 1)] := translation.y;
      res.values[Cell(3, 2)] := translation.z;
    }

    /// Mat4f::scale as written: all three diagonal entries take scale.x
    static method Scale(scale: Vec3) returns (res: Mat4f)
      ensures fresh(res) && fresh(res.values) && res.Valid()
      ensures forall r: nat, c: nat :: r < 4 && c < 4 ==>
        res.Get(r, c) == ScalingEntry(scale.x, scale.x, scale.x, r, c)
    {
      res := new Mat4f.Identity();
      res.values[Cell(0, 0)] := scale.x;
      res.values[Cell(1, 1)] := scale.x;
      res.values[Cell(2, 2)] := scale.x;
    }

    /// The scale matrix the method evidently means: scale.x, scale.y and
    /// scale.z on the diagonal
    static method ScaleXYZ(scale: Vec3) returns (res: Mat4f)
      ensures fresh(res) && fresh(res.values) && res.Valid()
      ensures forall r: nat, c: nat :: r < 4 && c < 4 ==>
        res.Get(r, c) == ScalingEntry(scale.x, scale.y, scale.z, r, c)
    {
      res := new Mat4f.Identity();
      res.values[Cell(0, 0)] := scale.x;
      res.values[Cell(1, 1)] := scale.y;
      res.values[Cell(2, 2)] := scale.z;
    }

    /// Mat4f * f32 and f32 * Mat4f (both orders share this body): every
    /// entry multiplied by k
    static method MulScalar(a: Mat4f, k: real) returns (res: Mat4f)
      requires a.Valid()
      ensures fresh(res) && fresh(res.values) && res.Valid()
      ensures forall r: nat, c: nat :: r < 4 && c < 4 ==> res.Get(r, c) == a.Get(r, c) * k
    {
      var values := new real[16](i requires 0 <= i < a.values.Length reads a, a.values => a.values[i]);
      for i := 0 to 16
        invariant forall j :: 0 <= j < i ==> values[j] == a.values[j] * k
        invariant forall j :: i <= j < 16 ==> values[j] == a.values[j]
      {
        values[i] := values[i] * k;
      }
      res := new Mat4f.FromValues(values);
    }

    /// Mat4f * Mat4f: the usual row-times-column product
    static method Mul(a: Mat4f, b: Mat4f) returns (res: Mat4f)
      requires a.Valid() && b.Valid()
      ensures fresh(res) && fresh(res.values) && res.Valid()
      ensures forall r: nat, c: nat :: r < 4 && c < 4 ==>
        res.Get(r, c) == ProductEntry(a.values[..], b.values[..], r, c)
    {
      // a and b are read-only borrows, so reading their values through
      // snapshots reads the same numbers
      var av, bv := a.values[..], b.values[..];
      var values := new real[16](k requires 0 <= k < 16 => IdentityValues()[k]);
      for r := 0 to 4
        invariant values[..] == PartialProduct(av, bv, r, 0)
      {
        for c := 0 to 4
          invariant values[..] == PartialProduct(av, bv, r, c)
        {
          PartialProductStep(av, bv, r, c);
          values[Cell(c, r)] := ProductEntry(av, bv, r, c);
        }
        PartialProductRowDone(av, bv, r);
      }
      res := new Mat4f.FromValues(values);
      forall r: nat, c: nat | r < 4 && c < 4
        ensures res.Get(r, c) == ProductEntry(av, bv, r, c)
      {
        CellIsInvertible(c, r);
      }
    }
  }

  /// Entry (r, c) of the product of the matrices stored in av and bv:
  /// row r of the first against column c of the second
  function ProductEntry(av: seq<real>, bv: seq<real>, r: nat, c: nat): real
    requires |av| == 16 && |bv| == 16 && r < 4 && c < 4
  {
    av[Cell(0, r)] * bv[Cell(c, 0)] + av[Cell(1, r)] * bv[Cell(c, 1)] +
    av[Cell(2, r)] * bv[Cell(c, 2)] + av[Cell(3, r)] * bv[Cell(c, 3)]
  }

  /// What the product loop has stored once it has filled every row before r
  /// and, in row r, every column before c: the rest still holds the identity.
  ghost function PartialProduct(av: seq<real>, bv: seq<real>, r: nat, c: nat): seq<real>
    requires |av| == 16 && |bv| == 16
  {
    seq(16, k requires 0 <= k < 16 =>
      if k % 4 < r || (k % 4 == r && k / 4 < c) then ProductEntry(av, bv, k % 4, k / 4)
      else IdentityValues()[k])
  }

  /// One step of the inner loop writes entry (r, c) and nothing else.
  lemma PartialProductStep(av: seq<real>, bv: seq<real>, r: nat, c: nat)
    requires |av| == 16 && |bv| == 16 && r < 4 && c < 4
    ensures PartialProduct(av, bv, r, c + 1) ==
      PartialProduct(av, bv, r, c)[Cell(c, r) := ProductEntry(av, bv, r, c)]
  {
    var before, after := PartialProduct(av, bv, r, c), PartialProduct(av, bv, r, c + 1);
    CellIsInvertible(c, r);
    forall k | 0 <= k < 16
      ensures after[k] == before[Cell(c, r) := ProductEntry(av, bv, r, c)][k]
    {
      CellIsOnto(k);
      if k == Cell(c, r) {
        assert k % 4 == r && k / 4 == c;
      } else {
        assert k % 4 != r || k / 4 != c;
        assert after[k] == before[k];
      }
    }
  }

  /// A finished row is the start of the next one.
  lemma PartialProductRowDone(av: seq<real>, bv: seq<real>, r: nat)
    requires |av| == 16 && |bv| == 16 && r < 4
    ensures PartialProduct(av, bv, r, 4) == PartialProduct(av, bv, r + 1, 0)
  {
  }

  /// Mat4f * Vec4f: the matrix stored in av applied to a column vector.
  /// The image of the j-th unit vector is column j, i.e. the j-th block of
  /// four stored values, and the zero vector stays zero.
  function MulVec(av: seq<real>, v: Vec4): (w: Vec4)
    requires |av| == 16
    ensures v == Vec4(1.0, 0.0, 0.0, 0.0) ==> w == Vec4(av[0], av[1], av[2], av[3])
    ensures v == Vec4(0.0, 1.0, 0.0, 0.0) ==> w == Vec4(av[4], av[5], av[6], av[7])
    ensures v == Vec4(0.0, 0.0, 1.0, 0.0) ==> w == Vec4(av[8], av[9], av[10], av[11])
    ensures v == Vec4(0.0, 0.0, 0.0, 1.0) ==> w == Vec4(av[12], av[13], av[14], av[15])
    ensures v == Vec4(0.0, 0.0, 0.0, 0.0) ==> w == v
  {
    Vec4(
      av[Cell(0, 0)] * v.x + av[Cell(1, 0)] * v.y + av[Cell(2, 0)] * v.z + av[Cell(3, 0)] * v.w,
      av[Cell(0, 1)] * v.x + av[Cell(1, 1)] * v.y + av[Cell(2, 1)] * v.z + av[Cell(3, 1)] * v.w,
      av[Cell(0, 2)] * v.x + av[Cell(1, 2)] * v.y + av[Cell(2, 2)] * v.z + av[Cell(3, 2)] * v.w,
      av[Cell(0, 3)] * v.x + av[Cell(1, 3)] * v.y + av[Cell(2, 3)] * v.z + av[Cell(3, 3)] * v.w)
  }

  /// Multiplying two translation matrices gives the translation by the sum.
  lemma TranslationsCompose(av: seq<real>, bv: seq<real>, s: Vec3, t: Vec3, r: nat, c: nat)
    requires |av| == 16 && |bv| == 16 && r < 4 && c < 4
    requires forall x: nat, y: nat :: x < 4 && y < 4 ==> av[Cell(x, y)] == TranslationEntry(s, y, x)
    requires forall x: nat, y: nat :: x < 4 && y < 4 ==> bv[Cell(x, y)] == TranslationEntry(t, y, x)
    ensures ProductEntry(av, bv, r, c) == TranslationEntry(Vec3(s.x + t.x, s.y + t.y, s.z + t.z), r, c)
  {
  }

  /// Multiplying two scaling matrices gives the scaling by the products.
  lemma ScalingsCompose(av: seq<real>, bv: seq<real>, s: Vec3, t: Vec3, r: nat, c: nat)
    requires |av| == 16 && |bv| == 16 && r < 4 && c < 4
    requires forall x: nat, y: nat :: x < 4 && y < 4 ==> av[Cell(x, y)] == ScalingEntry(s.x, s.y, s.z, y, x)
    requires forall x: nat, y: nat :: x < 4 && y < 4 ==> bv[Cell(x, y)] == ScalingEntry(t.x, t.y, t.z, y, x)
    ensures ProductEntry(av, bv, r, c) == ScalingEntry(s.x * t.x, s.y * t.y, s.z * t.z, r, c)
  {
  }

  /// The identity is neutral on both sides of the product ...
  lemma IdentityIsNeutral(av: seq<real>, r: nat, c: nat)
    requires |av| == 16 && r < 4 && c < 4
    ensures ProductEntry(IdentityValues(), av, r, c) == av[Cell(c, r)]
    ensures ProductEntry(av, IdentityValues(), r, c) == av[Cell(c, r)]
  {
  }

  /// ... and leaves every vector where it is.
  lemma IdentityFixesVectors(v: Vec4)
    ensures MulVec(IdentityValues(), v) == v
  {
  }

  /// Flat value k holds row k % 4 of column k / 4: the storage is column-major.
  lemma StorageIsColumnMajor(m: Mat4f, k: nat)
    requires m.Valid() && k < 16
    ensures m.values[k] == m.Get(k % 4, k / 4)
  {
    CellIsOnto(k);
  }

  /// A matrix built by Translate moves a point (w = 1) by t and leaves a
  /// direction (w = 0) where it is.
  lemma TranslationMovesPoints(m: Mat4f, t: Vec3, p: Vec3)
    requires m.Valid()
    requires forall r: nat, c: nat :: r < 4 && c < 4 ==> m.Get(r, c) == TranslationEntry(t, r, c)
    ensures MulVec(m.values[..], Vec4(p.x, p.y, p.z, 1.0)) == Vec4(p.x + t.x, p.y + t.y, p.z + t.z, 1.0)
    ensures MulVec(m.values[..], Vec4(p.x, p.y, p.z, 0.0)) == Vec4(p.x, p.y, p.z, 0.0)
  {
    EntriesFromGet(m);
  }

  /// A matrix built by ScaleXYZ multiplies each coordinate by its own factor.
  lemma ScalingScalesCoordinates(m: Mat4f, s: Vec3, v: Vec4)
    requires m.Valid()
    requires forall r: nat, c: nat :: r < 4 && c < 4 ==> m.Get(r, c) == ScalingEntry(s.x, s.y, s.z, r, c)
    ensures MulVec(m.values[..], v) == Vec4(s.x * v.x, s.y * v.y, s.z * v.z, v.w)
  {
    EntriesFromGet(m);
  }

  /// Every flat value is some Get; used to carry facts stated on Get over to
  /// the storage MulVec reads.
  lemma EntriesFromGet(m: Mat4f)
    requires m.Valid()
    ensures forall x: nat, y: nat :: x < 4 && y < 4 ==> m.values[Cell(x, y)] == m.Get(y, x)
  {
  }

  /// Scale as written ignores scale.y and scale.z: for (1, 2, 3) it leaves
  /// 1 where the intended matrix has 2 and 3.
  method ScaleIgnoresYAndZ() returns (asWritten: Mat4f, intended: Mat4f)
    ensures asWritten.Valid() && intended.Valid()
    ensures asWritten.Get(1, 1) == 1.0 && asWritten.Get(2, 2) == 1.0
    ensures intended.Get(1, 1) == 2.0 && intended.Get(2, 2) == 3.0
  {
    asWritten := Mat4f.Scale(Vec3(1.0, 2.0, 3.0));
    intended := Mat4f.ScaleXYZ(Vec3(1.0, 2.0, 3.0));
  }
}
