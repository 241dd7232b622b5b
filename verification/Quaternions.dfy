/** What a node's rotation, scale and translation do to a point, with the rotation told by
    the product of quaternions. */
module Quaternions {
  import opened Transforms

  // Vector part first, as glTF writes it.
  type Quaternion = (real, real, real, real)

  // Hamilton's product, i i = j j = k k = i j k = -1, one part at a time.
  function PartI(px: real, py: real, pz: real, pw: real, qx: real, qy: real, qz: real, qw: real): real {
    pw * qx + px * qw + py * qz - pz * qy
  }

  function PartJ(px: real, py: real, pz: real, pw: real, qx: real, qy: real, qz: real, qw: real): real {
    pw * qy - px * qz + py * qw + pz * qx
  }

  function PartK(px: real, py: real, pz: real, pw: real, qx: real, qy: real, qz: real, qw: real): real {
    pw * qz + px * qy - py * qx + pz * qw
  }

  function PartOne(px: real, py: real, pz: real, pw: real, qx: real, qy: real, qz: real, qw: real): real {
    pw * qw - px * qx - py * qy - pz * qz
  }

  function Hamilton(p: Quaternion, q: Quaternion): Quaternion {
    (PartI(p.0, p.1, p.2, p.3, q.0, q.1, q.2, q.3), PartJ(p.0, p.1, p.2, p.3, q.0, q.1, q.2, q.3),
     PartK(p.0, p.1, p.2, p.3, q.0, q.1, q.2, q.3), PartOne(p.0, p.1, p.2, p.3, q.0, q.1, q.2, q.3))
  }

  const I: Quaternion := (1.0, 0.0, 0.0, 0.0)
  const J: Quaternion := (0.0, 1.0, 0.0, 0.0)
  const K: Quaternion := (0.0, 0.0, 1.0, 0.0)

  lemma {:induction false} HamiltonsRules()
    ensures Hamilton(I, I) == Hamilton(J, J) == Hamilton(K, K) == Hamilton(Hamilton(I, J), K) == (0.0, 0.0, 0.0, -1.0)
    ensures Hamilton(I, J) == K && Hamilton(J, K) == I && Hamilton(K, I) == J
  {
  }

  function Conjugate(q: Quaternion): Quaternion { (-q.0, -q.1, -q.2, q.3) }

  function Pure(v: Vec3): Quaternion { (v.0, v.1, v.2, 0.0) }

  function VectorPart(q: Quaternion): Vec3 { (q.0, q.1, q.2) }

  function SumOfSquares(x: real, y: real, z: real, w: real): real { x * x + y * y + z * z + w * w }

  function Length2(q: Quaternion): real { SumOfSquares(q.0, q.1, q.2, q.3) }

  // The point turned: q v q*.
  function Turned(q: Quaternion, v: Vec3): Vec3 {
    VectorPart(Hamilton(Hamilton(q, Pure(v)), Conjugate(q)))
  }

  function Plus(a: Vec3, b: Vec3): Vec3 { (a.0 + b.0, a.1 + b.1, a.2 + b.2) }

  function Times(k: real, x: real): real { k * x }

  function Scaled(k: real, v: Vec3): Vec3 { (Times(k, v.0), Times(k, v.1), Times(k, v.2)) }

  // A row of a matrix applied to a point.
  function RowOf(p: real, q: real, r: real, t: real, x: real, y: real, z: real): real { p * x + q * y + r * z + t }

  lemma {:induction false} CoordinateIsRow(m: Matrix4, row: nat, v: Vec3)
    requires row < 3
    ensures Coordinate(m, row, v) == RowOf(m[row], m[4 + row], m[8 + row], m[12 + row], v.0, v.1, v.2)
  {
  }

  // The algebra, one coordinate at a time: the row of the matrix is the part of q v q*,
  // and a multiple for what the quaternion's length is short of one.
  lemma {:induction false} RowI(x: real, y: real, z: real, w: real, a: real, b: real, c: real)
    ensures var (h, j, k, o) := (PartI(x, y, z, w, a, b, c, 0.0), PartJ(x, y, z, w, a, b, c, 0.0),
                                 PartK(x, y, z, w, a, b, c, 0.0), PartOne(x, y, z, w, a, b, c, 0.0));
            RowOf(1.0 - 2.0 * (y * y + z * z), 2.0 * (x * y - z * w), 2.0 * (x * z + y * w), 0.0, a, b, c)
            == PartI(h, j, k, o, -x, -y, -z, w) + Times(1.0 - SumOfSquares(x, y, z, w), a)
  {
  }

  lemma {:induction false} RowJ(x: real, y: real, z: real, w: real, a: real, b: real, c: real)
    ensures var (h, j, k, o) := (PartI(x, y, z, w, a, b, c, 0.0), PartJ(x, y, z, w, a, b, c, 0.0),
                                 PartK(x, y, z, w, a, b, c, 0.0), PartOne(x, y, z, w, a, b, c, 0.0));
            RowOf(2.0 * (x * y + z * w), 1.0 - 2.0 * (x * x + z * z), 2.0 * (y * z - x * w), 0.0, a, b, c)
            == PartJ(h, j, k, o, -x, -y, -z, w) + Times(1.0 - SumOfSquares(x, y, z, w), b)
  {
  }

  lemma {:induction false} RowK(x: real, y: real, z: real, w: real, a: real, b: real, c: real)
    ensures var (h, j, k, o) := (PartI(x, y, z, w, a, b, c, 0.0), PartJ(x, y, z, w, a, b, c, 0.0),
                                 PartK(x, y, z, w, a, b, c, 0.0), PartOne(x, y, z, w, a, b, c, 0.0));
            RowOf(2.0 * (x * z - y * w), 2.0 * (y * z + x * w), 1.0 - 2.0 * (x * x + y * y), 0.0, a, b, c)
            == PartK(h, j, k, o, -x, -y, -z, w) + Times(1.0 - SumOfSquares(x, y, z, w), c)
  {
  }

  lemma {:induction false} RotationRows(x: real, y: real, z: real, w: real)
    ensures var m := Rotation((x, y, z, w));
            && m[0] == 1.0 - 2.0 * (y * y + z * z) && m[4] == 2.0 * (x * y - z * w) && m[8] == 2.0 * (x * z + y * w) && m[12] == 0.0
            && m[1] == 2.0 * (x * y + z * w) && m[5] == 1.0 - 2.0 * (x * x + z * z) && m[9] == 2.0 * (y * z - x * w) && m[13] == 0.0
            && m[2] == 2.0 * (x * z - y * w) && m[6] == 2.0 * (y * z + x * w) && m[10] == 1.0 - 2.0 * (x * x + y * y) && m[14] == 0.0
  {
  }

  // For every quaternion the matrix turns the point, and adds a multiple of it for what
  // the quaternion's length is short of one.
  lemma {:induction false} RotationTurns(q: Quaternion, v: Vec3)
    ensures Apply(Rotation(q), v) == Plus(Turned(q, v), Scaled(1.0 - Length2(q), v))
  {
    assert q == (q.0, q.1, q.2, q.3);
    TurnsByParts(q.0, q.1, q.2, q.3, v.0, v.1, v.2, q, v);
  }

  lemma {:induction false} TurnsByParts(x: real, y: real, z: real, w: real, a: real, b: real, c: real, q: Quaternion, v: Vec3)
    requires q == (x, y, z, w) && v == (a, b, c)
    ensures Apply(Rotation(q), v) == Plus(Turned(q, v), Scaled(1.0 - Length2(q), v))
  {
    var m := Rotation(q);
    CoordinateIsRow(m, 0, v);
    CoordinateIsRow(m, 1, v);
    CoordinateIsRow(m, 2, v);
    RotationRows(x, y, z, w);
    RowI(x, y, z, w, a, b, c);
    RowJ(x, y, z, w, a, b, c);
    RowK(x, y, z, w, a, b, c);
    assert Coordinate(m, 0, v) == Turned(q, v).0 + Times(1.0 - Length2(q), a);
    assert Coordinate(m, 1, v) == Turned(q, v).1 + Times(1.0 - Length2(q), b);
    assert Coordinate(m, 2, v) == Turned(q, v).2 + Times(1.0 - Length2(q), c);
  }

  // Exactly quaternions of length one turn every point by conjugation.
  lemma {:induction false} TurnsExactly(q: Quaternion)
    ensures (forall v :: Apply(Rotation(q), v) == Turned(q, v)) <==> Length2(q) == 1.0
  {
    var one: Vec3 := (1.0, 0.0, 0.0);
    RotationTurns(q, one);
    assert Plus(Turned(q, one), Scaled(1.0 - Length2(q), one)).0 == Turned(q, one).0 + (1.0 - Length2(q));
    if Length2(q) == 1.0 {
      forall v ensures Apply(Rotation(q), v) == Turned(q, v) {
        RotationTurns(q, v);
        assert Scaled(0.0, v) == (0.0, 0.0, 0.0);
      }
    }
  }

  lemma {:induction false} ScalingScales(s: Vec3, v: Vec3)
    ensures Apply(Scaling(s), v) == (Times(s.0, v.0), Times(s.1, v.1), Times(s.2, v.2))
  {
    CoordinateIsRow(Scaling(s), 0, v);
    CoordinateIsRow(Scaling(s), 1, v);
    CoordinateIsRow(Scaling(s), 2, v);
    OneEntry(s.0, v.0, v.1, v.2);
    OneEntry(s.1, v.0, v.1, v.2);
    OneEntry(s.2, v.0, v.1, v.2);
  }

  lemma {:induction false} OneEntry(p: real, x: real, y: real, z: real)
    ensures RowOf(p, 0.0, 0.0, 0.0, x, y, z) == Times(p, x)
    ensures RowOf(0.0, p, 0.0, 0.0, x, y, z) == Times(p, y)
    ensures RowOf(0.0, 0.0, p, 0.0, x, y, z) == Times(p, z)
  {
  }

  lemma {:induction false} TranslationMoves(t: Vec3, v: Vec3)
    ensures Apply(Translation(t), v) == Plus(t, v)
  {
    CoordinateIsRow(Translation(t), 0, v);
    CoordinateIsRow(Translation(t), 1, v);
    CoordinateIsRow(Translation(t), 2, v);
  }

  // A composed transform scales the point, turns it by its quaternion and moves it.
  lemma {:induction false} LocalMeaning(t: Vec3, q: Quaternion, s: Vec3, v: Vec3)
    requires Length2(q) == 1.0
    ensures Apply(Local(Trs(t, q, s)), v) == Plus(t, Turned(q, (Times(s.0, v.0), Times(s.1, v.1), Times(s.2, v.2))))
  {
    TrsMeaning(t, q, s, v);
    ScalingScales(s, v);
    TurnsExactly(q);
    TranslationMoves(t, Apply(Rotation(q), Apply(Scaling(s), v)));
  }

  // One given outright has the images of the axes, and of the origin, in its columns.
  lemma {:induction false} ExplicitMeaning(m: Matrix4, v: Vec3)
    ensures Apply(Local(Explicit(m)), v)
            == Plus(Plus(Scaled(v.0, (m[0], m[1], m[2])), Scaled(v.1, (m[4], m[5], m[6]))),
                    Plus(Scaled(v.2, (m[8], m[9], m[10])), (m[12], m[13], m[14])))
  {
    CoordinateIsRow(m, 0, v);
    CoordinateIsRow(m, 1, v);
    CoordinateIsRow(m, 2, v);
    ColumnsAreRow(m[0], m[4], m[8], m[12], v.0, v.1, v.2);
    ColumnsAreRow(m[1], m[5], m[9], m[13], v.0, v.1, v.2);
    ColumnsAreRow(m[2], m[6], m[10], m[14], v.0, v.1, v.2);
  }

  lemma {:induction false} ColumnsAreRow(p: real, q: real, r: real, t: real, x: real, y: real, z: real)
    ensures RowOf(p, q, r, t, x, y, z) == Times(x, p) + Times(y, q) + (Times(z, r) + t)
  {
  }
}
