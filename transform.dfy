/** The rigid transform of one joint: a 4×4 homogeneous matrix whose upper-left
    3×3 block is the rotation matrix of the joint's quaternion (w, x, y, z), whose
    last column holds the joint's position and whose bottom row is [0, 0, 0, 1]. */
module RigidTransform {
  import opened Joints

  /** The 4×4 matrix built from a position row (tx, ty, tz) and a quaternion row
      (qw, qx, qy, qz), without normalising the quaternion. */
  function TransformGeometryQuaternion(joint3D: seq<real>, orientation: seq<real>): (m: seq<seq<real>>)
    requires |joint3D| >= 3 && |orientation| >= 4
    ensures IsMatrix4(m)
    ensures m[3] == [0.0, 0.0, 0.0, 1.0]
    ensures forall i :: 0 <= i < 3 ==> m[i][3] == joint3D[i]
  {
    var qw, qx, qy, qz := orientation[0], orientation[1], orientation[2], orientation[3];
    var tx, ty, tz := joint3D[0], joint3D[1], joint3D[2];
    [[1.0 - 2.0*qy*qy - 2.0*qz*qz, 2.0*qx*qy - 2.0*qz*qw,       2.0*qx*qz + 2.0*qy*qw,       tx],
     [2.0*qx*qy + 2.0*qz*qw,       1.0 - 2.0*qx*qx - 2.0*qz*qz, 2.0*qy*qz - 2.0*qx*qw,       ty],
     [2.0*qx*qz - 2.0*qy*qw,       2.0*qy*qz + 2.0*qx*qw,       1.0 - 2.0*qx*qx - 2.0*qy*qy, tz],
     [0.0, 0.0, 0.0, 1.0]]
  }

  predicate IsMatrix4(m: seq<seq<real>>)
  {
    |m| == 4 && forall i :: 0 <= i < 4 ==> |m[i]| == 4
  }

  /** Squared norm of a quaternion row. */
  function NormSq(q: seq<real>): real
    requires |q| >= 4
  {
    q[0]*q[0] + q[1]*q[1] + q[2]*q[2] + q[3]*q[3]
  }

  /** The upper-left 3×3 block of a 4×4 matrix. */
  function Block(m: seq<seq<real>>): (b: seq<seq<real>>)
    requires IsMatrix4(m)
    ensures |b| == 3 && forall i :: 0 <= i < 3 ==> |b[i]| == 3 && b[i] == m[i][..3]
  {
    [m[0][..3], m[1][..3], m[2][..3]]
  }

  function Dot(u: seq<real>, v: seq<real>): real
    requires |u| == 3 && |v| == 3
  {
    u[0]*v[0] + u[1]*v[1] + u[2]*v[2]
  }

  predicate Is3x3(r: seq<seq<real>>)
  {
    |r| == 3 && forall i :: 0 <= i < 3 ==> |r[i]| == 3
  }

  /** A 3×3 matrix whose rows are unit vectors and pairwise perpendicular. */
  predicate Orthonormal(r: seq<seq<real>>)
    requires Is3x3(r)
  {
    && Dot(r[0], r[0]) == 1.0 && Dot(r[1], r[1]) == 1.0 && Dot(r[2], r[2]) == 1.0
    && Dot(r[0], r[1]) == 0.0 && Dot(r[0], r[2]) == 0.0 && Dot(r[1], r[2]) == 0.0
  }

  /** The upper-left 3×3 block is the identity. */
  predicate IdentityBlock(m: seq<seq<real>>)
    requires IsMatrix4(m)
  {
    Block(m) == [[1.0, 0.0, 0.0], [0.0, 1.0, 0.0], [0.0, 0.0, 1.0]]
  }

  /** The determinant of a 3×3 matrix, as the triple product r0 · (r1 × r2). */
  function Det(r: seq<seq<real>>): real
    requires Is3x3(r)
  {
    r[0][0]*(r[1][1]*r[2][2] - r[1][2]*r[2][1])
    + r[0][1]*(r[1][2]*r[2][0] - r[1][0]*r[2][2])
    + r[0][2]*(r[1][0]*r[2][1] - r[1][1]*r[2][0])
  }

  /** A proper rotation: orthonormal rows and determinant 1, so no reflection. */
  predicate Rotation(r: seq<seq<real>>)
    requires Is3x3(r)
  {
    Orthonormal(r) && Det(r) == 1.0
  }

  /** The upper-left 3×3 block of a 4×4 matrix is a proper rotation. */
  predicate RotationBlock(m: seq<seq<real>>)
    requires IsMatrix4(m)
  {
    Rotation(Block(m))
  }

  /** The rotation matrix of the quaternion (w, x, y, z), entry by entry as the
      transform writes it. The entries are those of TransformGeometryQuaternion's
      block, restated over four plain reals so that the identities about them
      (orthonormal rows, determinant, sign of q) are lemmas about w, x, y, z
      rather than about sequence lookups; BlockIsRotation ties the two together. */
  function QuaternionRotation(w: real, x: real, y: real, z: real): (r: seq<seq<real>>)
    ensures Is3x3(r)
  {
    [[1.0 - 2.0*y*y - 2.0*z*z, 2.0*x*y - 2.0*z*w,       2.0*x*z + 2.0*y*w],
     [2.0*x*y + 2.0*z*w,       1.0 - 2.0*x*x - 2.0*z*z, 2.0*y*z - 2.0*x*w],
     [2.0*x*z - 2.0*y*w,       2.0*y*z + 2.0*x*w,       1.0 - 2.0*x*x - 2.0*y*y]]
  }

  /** Applies a 4×4 matrix to a homogeneous column vector. */
  function Apply(m: seq<seq<real>>, p: seq<real>): (r: seq<real>)
    requires IsMatrix4(m) && |p| == 4
    ensures |r| == 4
  {
    seq(4, i requires 0 <= i < 4 => m[i][0]*p[0] + m[i][1]*p[1] + m[i][2]*p[2] + m[i][3]*p[3])
  }

  /** The identity quaternion (1, 0, 0, 0) gives a pure translation. */
  lemma IdentityQuaternionIsTranslation(joint3D: seq<real>)
    requires |joint3D| >= 3
    ensures IdentityBlock(TransformGeometryQuaternion(joint3D, [1.0, 0.0, 0.0, 0.0]))
  {
    var b := Block(TransformGeometryQuaternion(joint3D, [1.0, 0.0, 0.0, 0.0]));
    assert b[0] == [1.0, 0.0, 0.0] && b[1] == [0.0, 1.0, 0.0] && b[2] == [0.0, 0.0, 1.0];
  }

  /** The transform carries the origin onto the joint position. */
  lemma OriginMapsToJoint(joint3D: seq<real>, orientation: seq<real>)
    requires |joint3D| >= 3 && |orientation| >= 4
    ensures Apply(TransformGeometryQuaternion(joint3D, orientation), [0.0, 0.0, 0.0, 1.0])
         == [joint3D[0], joint3D[1], joint3D[2], 1.0]
  {
  }

  /** The upper-left block of the transform is the rotation matrix of its quaternion. */
  lemma BlockIsRotation(joint3D: seq<real>, orientation: seq<real>)
    requires |joint3D| >= 3 && |orientation| >= 4
    ensures Block(TransformGeometryQuaternion(joint3D, orientation))
         == QuaternionRotation(orientation[0], orientation[1], orientation[2], orientation[3])
  {
    var b := Block(TransformGeometryQuaternion(joint3D, orientation));
    var r := QuaternionRotation(orientation[0], orientation[1], orientation[2], orientation[3]);
    forall i | 0 <= i < 3
      ensures b[i] == r[i]
    {
      assert forall j :: 0 <= j < 3 ==> b[i][j] == r[i][j];
    }
  }

  /** A unit quaternion yields a block that is a proper rotation. */
  lemma UnitQuaternionGivesRotation(joint3D: seq<real>, orientation: seq<real>)
    requires |joint3D| >= 3 && |orientation| >= 4 && NormSq(orientation) == 1.0
    ensures RotationBlock(TransformGeometryQuaternion(joint3D, orientation))
  {
    var w, x, y, z := orientation[0], orientation[1], orientation[2], orientation[3];
    QuaternionRotationIsRotation(w, x, y, z);
    BlockIsRotation(joint3D, orientation);
  }

  /** For a unit quaternion the rotation formula gives a proper rotation. */
  lemma QuaternionRotationIsRotation(w: real, x: real, y: real, z: real)
    requires w*w + x*x + y*y + z*z == 1.0
    ensures Rotation(QuaternionRotation(w, x, y, z))
  {
    RotationOrthonormal(w, x, y, z);
    RotationDeterminant(w, x, y, z);
  }

  /** For a unit quaternion the rotation matrix has orthonormal rows. */
  lemma RotationOrthonormal(w: real, x: real, y: real, z: real)
    requires w*w + x*x + y*y + z*z == 1.0
    ensures Orthonormal(QuaternionRotation(w, x, y, z))
  {
    var r := QuaternionRotation(w, x, y, z);
    RotationRows(w, x, y, z);
    RowUnit0(w, x, y, z, r[0]);
    RowUnit1(w, x, y, z, r[1]);
    RowUnit2(w, x, y, z, r[2]);
    RowsPerpendicular01(w, x, y, z, r[0], r[1]);
    RowsPerpendicular02(w, x, y, z, r[0], r[2]);
    RowsPerpendicular12(w, x, y, z, r[1], r[2]);
  }

  /** For a unit quaternion the rotation matrix has determinant 1, so it is not a
      reflection: its first row is the cross product of the other two. */
  lemma RotationDeterminant(w: real, x: real, y: real, z: real)
    requires w*w + x*x + y*y + z*z == 1.0
    ensures Det(QuaternionRotation(w, x, y, z)) == 1.0
  {
    var r := QuaternionRotation(w, x, y, z);
    RotationRows(w, x, y, z);
    RowUnit0(w, x, y, z, r[0]);
    CrossRow0(w, x, y, z, r);
    CrossRow1(w, x, y, z, r);
    CrossRow2(w, x, y, z, r);
    TripleProduct(r);
  }

  /** The three rows of the rotation formula, one display each. */
  lemma RotationRows(w: real, x: real, y: real, z: real)
    ensures QuaternionRotation(w, x, y, z)[0] == [1.0 - 2.0*y*y - 2.0*z*z, 2.0*x*y - 2.0*z*w, 2.0*x*z + 2.0*y*w]
    ensures QuaternionRotation(w, x, y, z)[1] == [2.0*x*y + 2.0*z*w, 1.0 - 2.0*x*x - 2.0*z*z, 2.0*y*z - 2.0*x*w]
    ensures QuaternionRotation(w, x, y, z)[2] == [2.0*x*z - 2.0*y*w, 2.0*y*z + 2.0*x*w, 1.0 - 2.0*x*x - 2.0*y*y]
  {
  }

  /** When the first row is the cross product of the other two, the determinant
      is the first row's squared length. */
  lemma TripleProduct(r: seq<seq<real>>)
    requires Is3x3(r)
    requires r[1][1]*r[2][2] - r[1][2]*r[2][1] == r[0][0]
    requires r[1][2]*r[2][0] - r[1][0]*r[2][2] == r[0][1]
    requires r[1][0]*r[2][1] - r[1][1]*r[2][0] == r[0][2]
    ensures Det(r) == Dot(r[0], r[0])
  {
  }

  // Each row has unit length, each pair of rows is perpendicular, and each entry of
  // the first row is the matching entry of row 1 × row 2: the polynomial identities
  // in w, x, y, z that hold once w² + x² + y² + z² = 1. The *Entries lemmas state
  // them over plain reals; the lemmas over rows hand the entries to them.

  lemma RowUnit0(w: real, x: real, y: real, z: real, a: seq<real>)
    requires w*w + x*x + y*y + z*z == 1.0
    requires |a| == 3 && a[0] == 1.0 - 2.0*y*y - 2.0*z*z && a[1] == 2.0*x*y - 2.0*z*w && a[2] == 2.0*x*z + 2.0*y*w
    ensures Dot(a, a) == 1.0
  {
  }

  lemma RowUnit1(w: real, x: real, y: real, z: real, b: seq<real>)
    requires w*w + x*x + y*y + z*z == 1.0
    requires |b| == 3 && b[0] == 2.0*x*y + 2.0*z*w && b[1] == 1.0 - 2.0*x*x - 2.0*z*z && b[2] == 2.0*y*z - 2.0*x*w
    ensures Dot(b, b) == 1.0
  {
  }

  lemma RowUnit2(w: real, x: real, y: real, z: real, c: seq<real>)
    requires w*w + x*x + y*y + z*z == 1.0
    requires |c| == 3 && c[0] == 2.0*x*z - 2.0*y*w && c[1] == 2.0*y*z + 2.0*x*w && c[2] == 1.0 - 2.0*x*x - 2.0*y*y
    ensures Dot(c, c) == 1.0
  {
  }

  lemma RowsPerpendicular01(w: real, x: real, y: real, z: real, a: seq<real>, b: seq<real>)
    requires w*w + x*x + y*y + z*z == 1.0
    requires |a| == 3 && a[0] == 1.0 - 2.0*y*y - 2.0*z*z && a[1] == 2.0*x*y - 2.0*z*w && a[2] == 2.0*x*z + 2.0*y*w
    requires |b| == 3 && b[0] == 2.0*x*y + 2.0*z*w && b[1] == 1.0 - 2.0*x*x - 2.0*z*z && b[2] == 2.0*y*z - 2.0*x*w
    ensures Dot(a, b) == 0.0
  {
    PerpendicularEntries01(w, x, y, z, a[0], a[1], a[2], b[0], b[1], b[2]);
  }

  lemma RowsPerpendicular02(w: real, x: real, y: real, z: real, a: seq<real>, c: seq<real>)
    requires w*w + x*x + y*y + z*z == 1.0
    requires |a| == 3 && a[0] == 1.0 - 2.0*y*y - 2.0*z*z && a[1] == 2.0*x*y - 2.0*z*w && a[2] == 2.0*x*z + 2.0*y*w
    requires |c| == 3 && c[0] == 2.0*x*z - 2.0*y*w && c[1] == 2.0*y*z + 2.0*x*w && c[2] == 1.0 - 2.0*x*x - 2.0*y*y
    ensures Dot(a, c) == 0.0
  {
    PerpendicularEntries02(w, x, y, z, a[0], a[1], a[2], c[0], c[1], c[2]);
  }

  lemma RowsPerpendicular12(w: real, x: real, y: real, z: real, b: seq<real>, c: seq<real>)
    requires w*w + x*x + y*y + z*z == 1.0
    requires |b| == 3 && b[0] == 2.0*x*y + 2.0*z*w && b[1] == 1.0 - 2.0*x*x - 2.0*z*z && b[2] == 2.0*y*z - 2.0*x*w
    requires |c| == 3 && c[0] == 2.0*x*z - 2.0*y*w && c[1] == 2.0*y*z + 2.0*x*w && c[2] == 1.0 - 2.0*x*x - 2.0*y*y
    ensures Dot(b, c) == 0.0
  {
    PerpendicularEntries12(w, x, y, z, b[0], b[1], b[2], c[0], c[1], c[2]);
  }

  lemma CrossRow0(w: real, x: real, y: real, z: real, r: seq<seq<real>>)
    requires w*w + x*x + y*y + z*z == 1.0
    requires Is3x3(r)
    requires r[0][0] == 1.0 - 2.0*y*y - 2.0*z*z
    requires r[1][1] == 1.0 - 2.0*x*x - 2.0*z*z && r[1][2] == 2.0*y*z - 2.0*x*w
    requires r[2][1] == 2.0*y*z + 2.0*x*w && r[2][2] == 1.0 - 2.0*x*x - 2.0*y*y
    ensures r[1][1]*r[2][2] - r[1][2]*r[2][1] == r[0][0]
  {
    CrossEntries0(w, x, y, z, r[0][0], r[1][1], r[1][2], r[2][1], r[2][2]);
  }

  lemma CrossRow1(w: real, x: real, y: real, z: real, r: seq<seq<real>>)
    requires w*w + x*x + y*y + z*z == 1.0
    requires Is3x3(r)
    requires r[0][1] == 2.0*x*y - 2.0*z*w
    requires r[1][0] == 2.0*x*y + 2.0*z*w && r[1][2] == 2.0*y*z - 2.0*x*w
    requires r[2][0] == 2.0*x*z - 2.0*y*w && r[2][2] == 1.0 - 2.0*x*x - 2.0*y*y
    ensures r[1][2]*r[2][0] - r[1][0]*r[2][2] == r[0][1]
  {
    CrossEntries1(w, x, y, z, r[0][1], r[1][0], r[1][2], r[2][0], r[2][2]);
  }

  lemma CrossRow2(w: real, x: real, y: real, z: real, r: seq<seq<real>>)
    requires w*w + x*x + y*y + z*z == 1.0
    requires Is3x3(r)
    requires r[0][2] == 2.0*x*z + 2.0*y*w
    requires r[1][0] == 2.0*x*y + 2.0*z*w && r[1][1] == 1.0 - 2.0*x*x - 2.0*z*z
    requires r[2][0] == 2.0*x*z - 2.0*y*w && r[2][1] == 2.0*y*z + 2.0*x*w
    ensures r[1][0]*r[2][1] - r[1][1]*r[2][0] == r[0][2]
  {
    CrossEntries2(w, x, y, z, r[0][2], r[1][0], r[1][1], r[2][0], r[2][1]);
  }

  lemma PerpendicularEntries01(w: real, x: real, y: real, z: real,
                        a0: real, a1: real, a2: real, b0: real, b1: real, b2: real)
    requires w*w + x*x + y*y + z*z == 1.0
    requires a0 == 1.0 - 2.0*y*y - 2.0*z*z && a1 == 2.0*x*y - 2.0*z*w && a2 == 2.0*x*z + 2.0*y*w
    requires b0 == 2.0*x*y + 2.0*z*w && b1 == 1.0 - 2.0*x*x - 2.0*z*z && b2 == 2.0*y*z - 2.0*x*w
    ensures a0*b0 + a1*b1 + a2*b2 == 0.0
  {
  }

  lemma PerpendicularEntries02(w: real, x: real, y: real, z: real,
                        a0: real, a1: real, a2: real, c0: real, c1: real, c2: real)
    requires w*w + x*x + y*y + z*z == 1.0
    requires a0 == 1.0 - 2.0*y*y - 2.0*z*z && a1 == 2.0*x*y - 2.0*z*w && a2 == 2.0*x*z + 2.0*y*w
    requires c0 == 2.0*x*z - 2.0*y*w && c1 == 2.0*y*z + 2.0*x*w && c2 == 1.0 - 2.0*x*x - 2.0*y*y
    ensures a0*c0 + a1*c1 + a2*c2 == 0.0
  {
  }

  lemma PerpendicularEntries12(w: real, x: real, y: real, z: real,
                        b0: real, b1: real, b2: real, c0: real, c1: real, c2: real)
    requires w*w + x*x + y*y + z*z == 1.0
    requires b0 == 2.0*x*y + 2.0*z*w && b1 == 1.0 - 2.0*x*x - 2.0*z*z && b2 == 2.0*y*z - 2.0*x*w
    requires c0 == 2.0*x*z - 2.0*y*w && c1 == 2.0*y*z + 2.0*x*w && c2 == 1.0 - 2.0*x*x - 2.0*y*y
    ensures b0*c0 + b1*c1 + b2*c2 == 0.0
  {
  }

  lemma CrossEntries0(w: real, x: real, y: real, z: real, a0: real, b1: real, b2: real, c1: real, c2: real)
    requires w*w + x*x + y*y + z*z == 1.0
    requires a0 == 1.0 - 2.0*y*y - 2.0*z*z
    requires b1 == 1.0 - 2.0*x*x - 2.0*z*z && b2 == 2.0*y*z - 2.0*x*w
    requires c1 == 2.0*y*z + 2.0*x*w && c2 == 1.0 - 2.0*x*x - 2.0*y*y
    ensures b1*c2 - b2*c1 == a0
  {
  }

  lemma CrossEntries1(w: real, x: real, y: real, z: real, a1: real, b0: real, b2: real, c0: real, c2: real)
    requires w*w + x*x + y*y + z*z == 1.0
    requires a1 == 2.0*x*y - 2.0*z*w
    requires b0 == 2.0*x*y + 2.0*z*w && b2 == 2.0*y*z - 2.0*x*w
    requires c0 == 2.0*x*z - 2.0*y*w && c2 == 1.0 - 2.0*x*x - 2.0*y*y
    ensures b2*c0 - b0*c2 == a1
  {
  }

  lemma CrossEntries2(w: real, x: real, y: real, z: real, a2: real, b0: real, b1: real, c0: real, c1: real)
    requires w*w + x*x + y*y + z*z == 1.0
    requires a2 == 2.0*x*z + 2.0*y*w
    requires b0 == 2.0*x*y + 2.0*z*w && b1 == 1.0 - 2.0*x*x - 2.0*z*z
    requires c0 == 2.0*x*z - 2.0*y*w && c1 == 2.0*y*z + 2.0*x*w
    ensures b0*c1 - b1*c0 == a2
  {
  }

  /** q and -q describe the same rotation: negating the quaternion leaves the transform unchanged. */
  lemma NegatedQuaternionSameTransform(joint3D: seq<real>, orientation: seq<real>)
    requires |joint3D| >= 3 && |orientation| >= 4
    ensures TransformGeometryQuaternion(joint3D, orientation)
         == TransformGeometryQuaternion(joint3D, [-orientation[0], -orientation[1], -orientation[2], -orientation[3]])
  {
    var w, x, y, z := orientation[0], orientation[1], orientation[2], orientation[3];
    var q := [-w, -x, -y, -z];
    BlockIsRotation(joint3D, orientation);
    BlockIsRotation(joint3D, q);
    assert q[0] == -w && q[1] == -x && q[2] == -y && q[3] == -z;
    NegatedRotation(w, x, y, z);
    SameMatrix(TransformGeometryQuaternion(joint3D, orientation), TransformGeometryQuaternion(joint3D, q));
  }

  /** A 4×4 matrix is determined by its upper-left block, its last column and its bottom row. */
  lemma SameMatrix(m: seq<seq<real>>, m': seq<seq<real>>)
    requires IsMatrix4(m) && IsMatrix4(m') && Block(m) == Block(m') && m[3] == m'[3]
    requires forall i :: 0 <= i < 3 ==> m[i][3] == m'[i][3]
    ensures m == m'
  {
    forall i | 0 <= i < 3
      ensures m[i] == m'[i]
    {
      assert m[i] == m[i][..3] + [m[i][3]];
      assert m'[i] == m'[i][..3] + [m'[i][3]];
    }
  }

  /** The rotation matrix of -q is that of q. */
  lemma NegatedRotation(w: real, x: real, y: real, z: real)
    ensures QuaternionRotation(-w, -x, -y, -z) == QuaternionRotation(w, x, y, z)
  {
    var r, r' := QuaternionRotation(w, x, y, z), QuaternionRotation(-w, -x, -y, -z);
    NegatedEntries(w, x, y, z);
    forall i | 0 <= i < 3
      ensures r[i] == r'[i]
    {
      assert forall j :: 0 <= j < 3 ==> r[i][j] == r'[i][j];
    }
  }

  /** Each entry of the rotation formula is a sum of products of two quaternion
      components, so it is unchanged when all four change sign. */
  lemma NegatedEntries(w: real, x: real, y: real, z: real)
    ensures 1.0 - 2.0*(-y)*(-y) - 2.0*(-z)*(-z) == 1.0 - 2.0*y*y - 2.0*z*z
    ensures 1.0 - 2.0*(-x)*(-x) - 2.0*(-z)*(-z) == 1.0 - 2.0*x*x - 2.0*z*z
    ensures 1.0 - 2.0*(-x)*(-x) - 2.0*(-y)*(-y) == 1.0 - 2.0*x*x - 2.0*y*y
    ensures 2.0*(-x)*(-y) - 2.0*(-z)*(-w) == 2.0*x*y - 2.0*z*w
    ensures 2.0*(-x)*(-y) + 2.0*(-z)*(-w) == 2.0*x*y + 2.0*z*w
    ensures 2.0*(-x)*(-z) + 2.0*(-y)*(-w) == 2.0*x*z + 2.0*y*w
    ensures 2.0*(-x)*(-z) - 2.0*(-y)*(-w) == 2.0*x*z - 2.0*y*w
    ensures 2.0*(-y)*(-z) - 2.0*(-x)*(-w) == 2.0*y*z - 2.0*x*w
    ensures 2.0*(-y)*(-z) + 2.0*(-x)*(-w) == 2.0*y*z + 2.0*x*w
  {
  }

  /** Without normalisation a non-unit quaternion skews the block: (1, 1, 0, 0)
      has squared norm 2 and its block's second row has squared length 5. */
  lemma NonUnitQuaternionSkews(joint3D: seq<real>)
    requires |joint3D| >= 3
    ensures NormSq([1.0, 1.0, 0.0, 0.0]) == 2.0
    ensures var r := Block(TransformGeometryQuaternion(joint3D, [1.0, 1.0, 0.0, 0.0])); Dot(r[1], r[1]) == 5.0
  {
  }

  /** The tracker's identity orientation, stored vector-first as (x, y, z, w) =
      (0, 0, 0, 1), becomes the row (1, 0, 0, 0) and so a pure translation. */
  lemma TrackerIdentityIsTranslation(joint3D: seq<real>)
    requires |joint3D| >= 3
    ensures IdentityBlock(TransformGeometryQuaternion(joint3D, QuaternionRow(Vector4(0.0, 0.0, 0.0, 1.0))))
  {
    assert QuaternionRow(Vector4(0.0, 0.0, 0.0, 1.0)) == [1.0, 0.0, 0.0, 0.0];
    IdentityQuaternionIsTranslation(joint3D);
  }
}
