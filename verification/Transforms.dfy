/** Node transforms: column-major 4x4 matrices applied to points. */
module Transforms {

  type Matrix4 = m: seq<real> | |m| == 16 witness seq(16, _ => 0.0)

  type Vec3 = (real, real, real)

  const IDENTITY4: Matrix4 := [1.0, 0.0, 0.0, 0.0, 0.0, 1.0, 0.0, 0.0, 0.0, 0.0, 1.0, 0.0, 0.0, 0.0, 0.0, 1.0]

  // One term of an entry of the product.
  function Term(a: Matrix4, b: Matrix4, col: nat, row: nat, k: nat): real
    requires col < 4 && row < 4 && k < 4
  {
    a[k * 4 + row] * b[col * 4 + k]
  }

  // Row `row`, column `col` of the product.
  function Entry(a: Matrix4, b: Matrix4, col: nat, row: nat): real
    requires col < 4 && row < 4
  {
    Term(a, b, col, row, 0) + Term(a, b, col, row, 1) + Term(a, b, col, row, 2) + Term(a, b, col, row, 3)
  }

  function MatMul(a: Matrix4, b: Matrix4): (m: Matrix4)
    ensures forall col, row :: 0 <= col < 4 && 0 <= row < 4 ==> m[col * 4 + row] == Entry(a, b, col, row)
  {
    [Entry(a, b, 0, 0), Entry(a, b, 0, 1), Entry(a, b, 0, 2), Entry(a, b, 0, 3),
     Entry(a, b, 1, 0), Entry(a, b, 1, 1), Entry(a, b, 1, 2), Entry(a, b, 1, 3),
     Entry(a, b, 2, 0), Entry(a, b, 2, 1), Entry(a, b, 2, 2), Entry(a, b, 2, 3),
     Entry(a, b, 3, 0), Entry(a, b, 3, 1), Entry(a, b, 3, 2), Entry(a, b, 3, 3)]
  }

  // The inner loop: one entry's sum.
  method EntrySum(a: Matrix4, b: Matrix4, col: nat, row: nat) returns (sum: real)
    requires col < 4 && row < 4
    ensures sum == Entry(a, b, col, row)
  {
    sum := 0.0;
    for k := 0 to 4
      invariant k == 0 ==> sum == 0.0
      invariant k == 1 ==> sum == Term(a, b, col, row, 0)
      invariant k == 2 ==> sum == Term(a, b, col, row, 0) + Term(a, b, col, row, 1)
      invariant k == 3 ==> sum == Term(a, b, col, row, 0) + Term(a, b, col, row, 1) + Term(a, b, col, row, 2)
      invariant k == 4 ==> sum == Entry(a, b, col, row)
    {
      sum := sum + a[k * 4 + row] * b[col * 4 + k];
    }
  }

  // Columns below `col` hold their entries.
  ghost predicate ColumnsDone(a: Matrix4, b: Matrix4, out: array<real>, col: nat)
    reads out
  {
    out.Length == 16 && col <= 4 && forall c, r :: 0 <= c < col && 0 <= r < 4 ==> out[c * 4 + r] == Entry(a, b, c, r)
  }

  method FillColumn(a: Matrix4, b: Matrix4, out: array<real>, col: nat)
    requires col < 4 && ColumnsDone(a, b, out, col)
    modifies out
    ensures ColumnsDone(a, b, out, col + 1)
  {
    for row := 0 to 4
      invariant ColumnsDone(a, b, out, col)
      invariant forall r :: 0 <= r < row ==> out[col * 4 + r] == Entry(a, b, col, r)
    {
      var sum := EntrySum(a, b, col, row);
      out[col * 4 + row] := sum;
    }
  }

  method Multiply(a: Matrix4, b: Matrix4) returns (m: Matrix4)
    ensures m == MatMul(a, b)
  {
    var out := new real[16](_ => 0.0);
    for col := 0 to 4
      invariant ColumnsDone(a, b, out, col)
    {
      FillColumn(a, b, out, col);
    }
    m := out[..];
    SameEntries(a, b, m);
  }

  lemma {:induction false} SameEntries(a: Matrix4, b: Matrix4, m: Matrix4)
    requires forall c, r :: 0 <= c < 4 && 0 <= r < 4 ==> m[c * 4 + r] == Entry(a, b, c, r)
    ensures m == MatMul(a, b)
  {
    forall i | 0 <= i < 16 ensures m[i] == MatMul(a, b)[i] {
      assert i == i / 4 * 4 + i % 4;
      assert m[i / 4 * 4 + i % 4] == Entry(a, b, i / 4, i % 4) == MatMul(a, b)[i / 4 * 4 + i % 4];
    }
  }

  function Coordinate(m: Matrix4, row: nat, v: Vec3): real
    requires row < 3
  {
    m[row] * v.0 + m[4 + row] * v.1 + m[8 + row] * v.2 + m[12 + row]
  }

  function Apply(m: Matrix4, v: Vec3): Vec3 {
    (Coordinate(m, 0, v), Coordinate(m, 1, v), Coordinate(m, 2, v))
  }

  // The last row is 0 0 0 1, so applying the matrix loses nothing.
  predicate Affine(m: Matrix4) {
    m[3] == 0.0 && m[7] == 0.0 && m[11] == 0.0 && m[15] == 1.0
  }

  lemma {:induction false} DistributeRow(p: real, b: real, c: real, d: real, e: real, x: real, y: real, z: real)
    ensures p * (b * x + c * y + d * z + e) == (p * b) * x + (p * c) * y + (p * d) * z + p * e
  {
  }

  lemma {:induction false} CollectColumn(k: real, l: real, m: real, n: real, x: real)
    ensures (k + l + m + n) * x == k * x + l * x + m * x + n * x
  {
  }

  lemma {:induction false} ComposeRow(a: Matrix4, b: Matrix4, row: nat, v: Vec3)
    requires row < 3 && Affine(b)
    ensures Coordinate(MatMul(a, b), row, v) == Coordinate(a, row, Apply(b, v))
  {
    var (x, y, z) := v;
    var p, q, s, t := a[row], a[4 + row], a[8 + row], a[12 + row];
    DistributeRow(p, b[0], b[4], b[8], b[12], x, y, z);
    DistributeRow(q, b[1], b[5], b[9], b[13], x, y, z);
    DistributeRow(s, b[2], b[6], b[10], b[14], x, y, z);
    CollectColumn(p * b[0], q * b[1], s * b[2], t * 0.0, x);
    CollectColumn(p * b[4], q * b[5], s * b[6], t * 0.0, y);
    CollectColumn(p * b[8], q * b[9], s * b[10], t * 0.0, z);
    var m := MatMul(a, b);
    assert m[0 * 4 + row] == Entry(a, b, 0, row) && m[1 * 4 + row] == Entry(a, b, 1, row);
    assert m[2 * 4 + row] == Entry(a, b, 2, row) && m[3 * 4 + row] == Entry(a, b, 3, row);
  }

  // Composition: the product applies its second factor first.
  lemma {:induction false} ApplyComposes(a: Matrix4, b: Matrix4, v: Vec3)
    requires Affine(b)
    ensures Apply(MatMul(a, b), v) == Apply(a, Apply(b, v))
  {
    ComposeRow(a, b, 0, v);
    ComposeRow(a, b, 1, v);
    ComposeRow(a, b, 2, v);
  }

  lemma {:induction false} MulIsAffine(a: Matrix4, b: Matrix4)
    requires Affine(a) && Affine(b)
    ensures Affine(MatMul(a, b))
  {
    var m := MatMul(a, b);
    assert m[0 * 4 + 3] == Entry(a, b, 0, 3) && m[1 * 4 + 3] == Entry(a, b, 1, 3);
    assert m[2 * 4 + 3] == Entry(a, b, 2, 3) && m[3 * 4 + 3] == Entry(a, b, 3, 3);
  }

  // ------------------------------------------------------------ local transforms

  datatype Transform =
    | Explicit(matrix: Matrix4)
    | Trs(t: Vec3, r: (real, real, real, real), s: Vec3)

  const AT_REST := Trs((0.0, 0.0, 0.0), (0.0, 0.0, 0.0, 1.0), (1.0, 1.0, 1.0))

  function Rotation(r: (real, real, real, real)): Matrix4 {
    var (qx, qy, qz, qw) := r;
    [1.0 - 2.0 * (qy * qy + qz * qz), 2.0 * (qx * qy + qz * qw), 2.0 * (qx * qz - qy * qw), 0.0,
     2.0 * (qx * qy - qz * qw), 1.0 - 2.0 * (qx * qx + qz * qz), 2.0 * (qy * qz + qx * qw), 0.0,
     2.0 * (qx * qz + qy * qw), 2.0 * (qy * qz - qx * qw), 1.0 - 2.0 * (qx * qx + qy * qy), 0.0,
     0.0, 0.0, 0.0, 1.0]
  }

  function Scaling(s: Vec3): Matrix4 {
    [s.0, 0.0, 0.0, 0.0, 0.0, s.1, 0.0, 0.0, 0.0, 0.0, s.2, 0.0, 0.0, 0.0, 0.0, 1.0]
  }

  function Translation(t: Vec3): Matrix4 {
    [1.0, 0.0, 0.0, 0.0, 0.0, 1.0, 0.0, 0.0, 0.0, 0.0, 1.0, 0.0, t.0, t.1, t.2, 1.0]
  }

  function Local(x: Transform): Matrix4 {
    match x
    case Explicit(m) => m
    case Trs(t, r, s) => MatMul(Translation(t), MatMul(Rotation(r), Scaling(s)))
  }

  // A composed transform is affine whatever its parts; a matrix given outright need
  // not be.
  lemma {:induction false} TrsIsAffine(t: Vec3, r: (real, real, real, real), s: Vec3)
    ensures Affine(Local(Trs(t, r, s)))
  {
    MulIsAffine(Rotation(r), Scaling(s));
    MulIsAffine(Translation(t), MatMul(Rotation(r), Scaling(s)));
  }

  lemma {:induction false} IdentityKeeps(v: Vec3)
    ensures Apply(IDENTITY4, v) == v
  {
  }

  // What a composed transform does: scale, rotate, translate.
  lemma {:induction false} TrsMeaning(t: Vec3, r: (real, real, real, real), s: Vec3, v: Vec3)
    ensures Apply(Local(Trs(t, r, s)), v) == Apply(Translation(t), Apply(Rotation(r), Apply(Scaling(s), v)))
  {
    ApplyComposes(Rotation(r), Scaling(s), v);
    MulIsAffine(Rotation(r), Scaling(s));
    ApplyComposes(Translation(t), MatMul(Rotation(r), Scaling(s)), v);
  }
}
