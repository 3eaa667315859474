/** Choosing the body whose joints are passed downstream: every tracked body of
    the frame is processed in turn and each overwrites the 3-D joint and
    orientation arrays, so the last tracked body wins; with no tracked body
    (or no frame) both arrays stay all zeros. */
module BodySelection {
  import opened Skeleton
  import opened Joints

  datatype Option<T> = None | Some(value: T)

  /** One body slot of a body frame: whether it is tracked, its joints, the
      joints mapped into depth space, and the joint orientations. */
  datatype Body = Body(isTracked: bool, joints: seq<Joint>, jointPoints: seq<DepthPoint>,
                       jointOrientations: seq<Vector4>)

  /** The highest index below `n` of a tracked body, if any. */
  function LastTracked(bodies: seq<Body>, n: nat): (r: Option<nat>)
    requires n <= |bodies|
    ensures r.Some? ==> r.value < n && bodies[r.value].isTracked
                        && forall j :: r.value < j < n ==> !bodies[j].isTracked
    ensures r.None? ==> forall j :: 0 <= j < n ==> !bodies[j].isTracked
  {
    if n == 0 then None
    else if bodies[n - 1].isTracked then Some(n - 1)
    else LastTracked(bodies, n - 1)
  }

  /** A tracked body can be processed without error: all its joints can be read
      and back-projected, and it carries 25 orientations. */
  predicate Processable(body: Body, depth: seq<seq<nat>>, intr: Intrinsics)
  {
    && AllReadable(body.joints, body.jointPoints)
    && JointsInDepthImage(body.joints, body.jointPoints, depth)
    && |body.jointOrientations| >= JointCount
    && intr.fx != 0.0 && intr.fy != 0.0
  }

  /** Every tracked body among the first `maxBodyCount` slots can be processed. */
  predicate FrameProcessable(bodyFrame: Option<seq<Body>>, maxBodyCount: nat,
                             depth: seq<seq<nat>>, intr: Intrinsics)
  {
    bodyFrame.Some? ==>
      && maxBodyCount <= |bodyFrame.value|
      && forall b :: 0 <= b < maxBodyCount && bodyFrame.value[b].isTracked ==>
           Processable(bodyFrame.value[b], depth, intr)
  }

  /** The body whose data ends up in the result. */
  function Selected(bodyFrame: Option<seq<Body>>, maxBodyCount: nat): Option<nat>
    requires bodyFrame.Some? ==> maxBodyCount <= |bodyFrame.value|
  {
    if bodyFrame.None? then None else LastTracked(bodyFrame.value, maxBodyCount)
  }

  ghost predicate AllZero(a: array2<real>)
    reads a
  {
    forall i, j :: 0 <= i < a.Length0 && 0 <= j < a.Length1 ==> a[i, j] == 0.0
  }

  /** What the two arrays hold once body slots below `n` are processed. */
  ghost predicate HoldsSelection(joint3D: array2<real>, orientation: array2<real>, sel: Option<nat>,
                                 bodies: seq<Body>, depth: seq<seq<nat>>, intr: Intrinsics, scale: real)
    reads joint3D, orientation
    requires sel.Some? ==> sel.value < |bodies| && Processable(bodies[sel.value], depth, intr)
  {
    && joint3D.Length0 == JointCount && joint3D.Length1 == 3
    && orientation.Length0 == JointCount && orientation.Length1 == 4
    && match sel
       case None => AllZero(joint3D) && AllZero(orientation)
       case Some(b) =>
         && HoldsJoint3D(joint3D, bodies[b].joints, bodies[b].jointPoints, depth, intr, scale)
         && HoldsQuaternions(orientation, bodies[b].jointOrientations)
  }

  /** The 3-D joints and quaternions of the last tracked body of the frame, or
      two all-zero arrays when the frame is missing or tracks no body. */
  method SingleJoint3DAndOrientation(bodyFrame: Option<seq<Body>>, maxBodyCount: nat,
                                     depth: seq<seq<nat>>, intr: Intrinsics, scale: real)
    returns (joint3D: array2<real>, orientation: array2<real>)
    requires FrameProcessable(bodyFrame, maxBodyCount, depth, intr)
    ensures fresh(joint3D) && fresh(orientation)
    ensures Selected(bodyFrame, maxBodyCount).None? ==>
      && joint3D.Length0 == JointCount && joint3D.Length1 == 3 && AllZero(joint3D)
      && orientation.Length0 == JointCount && orientation.Length1 == 4 && AllZero(orientation)
    ensures Selected(bodyFrame, maxBodyCount).Some? ==>
      var body := bodyFrame.value[Selected(bodyFrame, maxBodyCount).value];
      && HoldsJoint3D(joint3D, body.joints, body.jointPoints, depth, intr, scale)
      && HoldsQuaternions(orientation, body.jointOrientations)
  {
    joint3D := new real[JointCount, 3]((_, _) => 0.0);
    orientation := new real[JointCount, 4]((_, _) => 0.0);
    if bodyFrame.Some? {
      var bodies := bodyFrame.value;
      for i := 0 to maxBodyCount
        invariant fresh(joint3D) && fresh(orientation)
        invariant HoldsSelection(joint3D, orientation, LastTracked(bodies, i), bodies, depth, intr, scale)
      {
        var body := bodies[i];
        if body.isTracked {
          joint3D := Joint3D(body.joints, body.jointPoints, depth, intr, scale);
          orientation := JointQuaternions(body.jointOrientations);
        }
      }
    }
  }
}
