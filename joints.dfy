/** Per-joint outputs of the skeletal tracker for one body: the 25×2 depth-space
    pixel array (with the (0,0) sentinel for joints that are not really tracked),
    its pinhole back-projection to a 25×3 camera-space array, and the 25×4
    quaternion array in (w, x, y, z) order. */
module Joints {
  import opened Numpy
  import opened Skeleton

  /** The tracker's confidence in a joint (TrackingState_NotTracked = 0,
      TrackingState_Inferred = 1, TrackingState_Tracked = 2). */
  datatype TrackingState = NotTracked | Inferred | Tracked

  /** A tracked joint record; only its tracking state is read here. */
  datatype Joint = Joint(trackingState: TrackingState)

  /** A joint projected into the depth image (fractional pixel coordinates). */
  datatype DepthPoint = DepthPoint(x: real, y: real)

  /** A joint orientation quaternion as the SDK stores it: vector part first, then w. */
  datatype Vector4 = Vector4(x: real, y: real, z: real, w: real)

  /** The entries (0,0), (1,1), (0,2), (1,2) of a pinhole intrinsic matrix. */
  datatype Intrinsics = Intrinsics(fx: real, fy: real, cx: real, cy: real)

  /** A camera-space point: X right, Y down, Z forward. */
  datatype Point3 = Point3(x: real, y: real, z: real)

  /** Reading joint `t` does not fail: the joint exists, and so does its
      depth-space point whenever the joint is tracked (only then is it read). */
  predicate CanRead(joints: seq<Joint>, points: seq<DepthPoint>, t: nat)
  {
    t < |joints| && (joints[t].trackingState == Tracked ==> t < |points|)
  }

  /** Reading any of the 25 joints does not fail. */
  predicate AllReadable(joints: seq<Joint>, points: seq<DepthPoint>)
  {
    |joints| >= JointCount && forall t :: 0 <= t < JointCount ==> CanRead(joints, points, t)
  }

  /** The int32 depth-space pixel (u, v) of joint `t`: (0, 0) unless the joint is
      tracked, else its fractional position truncated toward zero. */
  function SingleJoint(joints: seq<Joint>, points: seq<DepthPoint>, t: nat): (p: (int, int))
    requires CanRead(joints, points, t)
    ensures joints[t].trackingState != Tracked ==> p == (0, 0)
    ensures joints[t].trackingState == Tracked ==> p == (Trunc(points[t].x), Trunc(points[t].y))
  {
    var state := joints[t].trackingState;
    if state == NotTracked || state == Inferred then (0, 0)
    else (Trunc(points[t].x), Trunc(points[t].y))
  }

  /** The sentinel (0, 0) is ambiguous: it is produced exactly by untracked joints
      and by tracked joints lying within one pixel of the origin on both axes. */
  lemma SentinelIsAmbiguous(joints: seq<Joint>, points: seq<DepthPoint>, t: nat)
    requires CanRead(joints, points, t)
    ensures SingleJoint(joints, points, t) == (0, 0) <==>
      joints[t].trackingState != Tracked
      || (-1.0 < points[t].x < 1.0 && -1.0 < points[t].y < 1.0)
  {
  }

  /** The 25×2 array of joint pixels: row `t` holds joint `t`'s (u, v). */
  ghost predicate HoldsJoint2D(joint2D: array2<int>, joints: seq<Joint>, points: seq<DepthPoint>)
    reads joint2D
    requires AllReadable(joints, points)
  {
    && joint2D.Length0 == JointCount && joint2D.Length1 == 2
    && forall t :: 0 <= t < JointCount ==> (joint2D[t, 0], joint2D[t, 1]) == SingleJoint(joints, points, t)
  }

  /** Fills a zeroed 25×2 int32 array, one joint per row. */
  method Joint2D(joints: seq<Joint>, points: seq<DepthPoint>) returns (joint2D: array2<int>)
    requires AllReadable(joints, points)
    ensures fresh(joint2D)
    ensures HoldsJoint2D(joint2D, joints, points)
  {
    joint2D := new int[JointCount, 2]((_, _) => 0);
    for i := 0 to JointCount
      invariant forall t :: 0 <= t < i ==> (joint2D[t, 0], joint2D[t, 1]) == SingleJoint(joints, points, t)
    {
      var p := SingleJoint(joints, points, i);
      joint2D[i, 0], joint2D[i, 1] := p.0, p.1;
    }
  }

  /** The pixel (u, v) can be read from the depth image as depth[v, u]. */
  predicate InDepthImage(p: (int, int), depth: seq<seq<nat>>)
  {
    Rectangular(depth) && ValidIndex(p.1, |depth|) && ValidIndex(p.0, Width(depth))
  }

  /** Pinhole back-projection of pixel (u, v): Z is the scaled depth sample at
      depth[v, u]; X and Y are the points the pinhole model projects onto u and v. */
  function BackProject(p: (int, int), depth: seq<seq<nat>>, intr: Intrinsics, scale: real): (q: Point3)
    requires InDepthImage(p, depth) && intr.fx != 0.0 && intr.fy != 0.0
    ensures q.z == At(depth, p.1, p.0) as real * scale
    ensures q.x * intr.fx == (p.0 as real - intr.cx) * q.z
    ensures q.y * intr.fy == (p.1 as real - intr.cy) * q.z
  {
    var z := At(depth, p.1, p.0) as real * scale;
    Point3((p.0 as real - intr.cx) * z / intr.fx, (p.1 as real - intr.cy) * z / intr.fy, z)
  }

  /** Forward pinhole projection of a camera-space point with nonzero depth. */
  function Project(q: Point3, intr: Intrinsics): (real, real)
    requires q.z != 0.0
  {
    (intr.fx * q.x / q.z + intr.cx, intr.fy * q.y / q.z + intr.cy)
  }

  /** The pinhole equation x·f = (u − c)·z solved back for u. */
  lemma UndoPinhole(u: real, c: real, f: real, x: real, z: real)
    requires z != 0.0 && x * f == (u - c) * z
    ensures f * x / z + c == u
  {
    assert f * x == (u - c) * z;
    MulDivCancel(u - c, z);
  }

  lemma MulDivCancel(a: real, z: real)
    requires z != 0.0
    ensures a * z / z == a
  {
  }

  /** Projecting a back-projected pixel with valid (nonzero) depth gives the pixel back. */
  lemma ProjectBackProjected(p: (int, int), depth: seq<seq<nat>>, intr: Intrinsics, scale: real)
    requires InDepthImage(p, depth) && intr.fx != 0.0 && intr.fy != 0.0
    requires BackProject(p, depth, intr, scale).z != 0.0
    ensures Project(BackProject(p, depth, intr, scale), intr) == (p.0 as real, p.1 as real)
  {
    ProjectInvertsPinhole(BackProject(p, depth, intr, scale), intr, p.0 as real, p.1 as real);
  }

  /** A point satisfying the pinhole equations for (u, v) projects onto (u, v). */
  lemma ProjectInvertsPinhole(q: Point3, intr: Intrinsics, u: real, v: real)
    requires q.z != 0.0
    requires q.x * intr.fx == (u - intr.cx) * q.z && q.y * intr.fy == (v - intr.cy) * q.z
    ensures Project(q, intr) == (u, v)
  {
    UndoPinhole(u, intr.cx, intr.fx, q.x, q.z);
    UndoPinhole(v, intr.cy, intr.fy, q.y, q.z);
    assert Project(q, intr).0 == u;
    assert Project(q, intr).1 == v;
  }

  /** With no depth at the pixel the back-projection collapses onto the camera centre. */
  lemma ZeroDepthCollapses(p: (int, int), depth: seq<seq<nat>>, intr: Intrinsics, scale: real)
    requires InDepthImage(p, depth) && intr.fx != 0.0 && intr.fy != 0.0
    requires At(depth, p.1, p.0) == 0
    ensures BackProject(p, depth, intr, scale) == Point3(0.0, 0.0, 0.0)
  {
  }

  /** A joint that is not tracked still gets a 3-D point: the one back-projected
      from the depth sample at the image origin depth[0, 0]. */
  lemma UntrackedJointSamplesOrigin(joints: seq<Joint>, points: seq<DepthPoint>, t: nat,
                                    depth: seq<seq<nat>>, intr: Intrinsics, scale: real)
    requires CanRead(joints, points, t) && joints[t].trackingState != Tracked
    requires Rectangular(depth) && |depth| > 0 && Width(depth) > 0
    requires intr.fx != 0.0 && intr.fy != 0.0
    ensures InDepthImage(SingleJoint(joints, points, t), depth)
    ensures BackProject(SingleJoint(joints, points, t), depth, intr, scale).z == depth[0][0] as real * scale
    ensures BackProject(SingleJoint(joints, points, t), depth, intr, scale).x * intr.fx
         == -intr.cx * (depth[0][0] as real * scale)
  {
  }

  /** Row `t` of a 25×3 array read as a camera-space point (columns X, Y, Z). */
  function RowPoint(a: array2<real>, t: nat): Point3
    reads a
    requires t < a.Length0 && a.Length1 == 3
  {
    Point3(a[t, 0], a[t, 1], a[t, 2])
  }

  /** Every joint's pixel can be read from the depth image. */
  predicate JointsInDepthImage(joints: seq<Joint>, points: seq<DepthPoint>, depth: seq<seq<nat>>)
    requires AllReadable(joints, points)
  {
    forall t :: 0 <= t < JointCount ==> InDepthImage(SingleJoint(joints, points, t), depth)
  }

  /** The 25×3 array of back-projected joints: row `t` is joint `t` in camera space. */
  ghost predicate HoldsJoint3D(joint3D: array2<real>, joints: seq<Joint>, points: seq<DepthPoint>,
                               depth: seq<seq<nat>>, intr: Intrinsics, scale: real)
    reads joint3D
    requires AllReadable(joints, points) && JointsInDepthImage(joints, points, depth)
    requires intr.fx != 0.0 && intr.fy != 0.0
  {
    && joint3D.Length0 == JointCount && joint3D.Length1 == 3
    && forall t :: 0 <= t < JointCount ==>
         RowPoint(joint3D, t) == BackProject(SingleJoint(joints, points, t), depth, intr, scale)
  }

  /** Back-projects the 2-D joint pixels into a zeroed 25×3 array, Z first, then X and Y from Z. */
  method Joint3D(joints: seq<Joint>, points: seq<DepthPoint>, depth: seq<seq<nat>>,
                 intr: Intrinsics, scale: real) returns (joint3D: array2<real>)
    requires AllReadable(joints, points) && JointsInDepthImage(joints, points, depth)
    requires intr.fx != 0.0 && intr.fy != 0.0
    ensures fresh(joint3D)
    ensures HoldsJoint3D(joint3D, joints, points, depth, intr, scale)
  {
    joint3D := new real[JointCount, 3]((_, _) => 0.0);
    var joint2D := Joint2D(joints, points);
    for i := 0 to JointCount
      invariant HoldsJoint2D(joint2D, joints, points)
      invariant forall t :: 0 <= t < i ==>
        RowPoint(joint3D, t) == BackProject(SingleJoint(joints, points, t), depth, intr, scale)
    {
      var u, v := joint2D[i, 0], joint2D[i, 1];
      var q := BackProject((u, v), depth, intr, scale);
      joint3D[i, 0], joint3D[i, 1], joint3D[i, 2] := q.x, q.y, q.z;
    }
  }

  /** A quaternion in the scalar-first row layout (w, x, y, z). */
  function QuaternionRow(o: Vector4): (q: seq<real>)
    ensures |q| == 4
    ensures q[1..] == [o.x, o.y, o.z] && q[0] == o.w
  {
    [o.w, o.x, o.y, o.z]
  }

  /** The 25×4 quaternion array: row `t` is joint `t`'s orientation as (w, x, y, z). */
  ghost predicate HoldsQuaternions(quat: array2<real>, orientations: seq<Vector4>)
    reads quat
    requires |orientations| >= JointCount
  {
    && quat.Length0 == JointCount && quat.Length1 == 4
    && forall t :: 0 <= t < JointCount ==>
         [quat[t, 0], quat[t, 1], quat[t, 2], quat[t, 3]] == QuaternionRow(orientations[t])
  }

  /** Copies each joint's orientation into a zeroed 25×4 array, w first, unnormalised. */
  method JointQuaternions(orientations: seq<Vector4>) returns (quat: array2<real>)
    requires |orientations| >= JointCount
    ensures fresh(quat)
    ensures HoldsQuaternions(quat, orientations)
  {
    quat := new real[JointCount, 4]((_, _) => 0.0);
    for i := 0 to JointCount
      invariant forall t :: 0 <= t < i ==>
        [quat[t, 0], quat[t, 1], quat[t, 2], quat[t, 3]] == QuaternionRow(orientations[t])
    {
      quat[i, 0] := orientations[i].w;
      quat[i, 1] := orientations[i].x;
      quat[i, 2] := orientations[i].y;
      quat[i, 3] := orientations[i].z;
    }
  }
}
