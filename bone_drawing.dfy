/** The bone pass of the 2-D skeleton drawing: for every joint, the bone from its
    parent (in the drawing's parent table) is drawn only when both endpoints
    have strictly positive pixel coordinates. The line rendering itself is not
    modelled; the pass yields the joints whose bones it draws, in order. */
module BoneDrawing {
  import opened Skeleton
  import opened Joints

  /** The guard of one bone: both endpoints lie strictly right of and below the origin. */
  predicate BoneGuard(parent: (int, int), child: (int, int))
  {
    parent.0 > 0 && parent.1 > 0 && child.0 > 0 && child.1 > 0
  }

  /** Pixel of joint `t` read from a 25×2 joint array. */
  function JointPixel(joint2D: array2<int>, t: nat): (int, int)
    reads joint2D
    requires t < joint2D.Length0 && joint2D.Length1 == 2
  {
    (joint2D[t, 0], joint2D[t, 1])
  }

  /** The bone between joint `i` and its parent passes the guard. */
  predicate BoneVisible(joint2D: array2<int>, i: nat)
    reads joint2D
    requires joint2D.Length0 == JointCount && joint2D.Length1 == 2 && i < JointCount
  {
    ParentIsJoint(i);
    BoneGuard(JointPixel(joint2D, Parents[i]), JointPixel(joint2D, i))
  }

  /** Walks the 25 joints in order and lists those whose bone is drawn: exactly
      the joints whose bone passes the guard, each once, in increasing order. */
  method DrawBone2D(joint2D: array2<int>) returns (drawn: seq<nat>)
    requires joint2D.Length0 == JointCount && joint2D.Length1 == 2
    ensures forall i :: 0 <= i < JointCount ==> (i in drawn <==> BoneVisible(joint2D, i))
    ensures forall n :: 0 <= n < |drawn| ==> drawn[n] < JointCount
    ensures forall m, n :: 0 <= m < n < |drawn| ==> drawn[m] < drawn[n]
  {
    drawn := [];
    for i := 0 to joint2D.Length0
      invariant forall n :: 0 <= n < |drawn| ==> drawn[n] < i
      invariant forall j :: 0 <= j < i ==> (j in drawn <==> BoneVisible(joint2D, j))
      invariant forall m, n :: 0 <= m < n < |drawn| ==> drawn[m] < drawn[n]
    {
      ParentIsJoint(i);
      var k := Parents[i];
      if BoneGuard(JointPixel(joint2D, k), JointPixel(joint2D, i)) {
        drawn := drawn + [i];
      }
    }
  }

  /** A bone drawn from the projected joint array joins two tracked joints: the
      (0, 0) sentinel of an untracked joint never becomes a bone endpoint. */
  lemma DrawnBonesJoinTrackedJoints(joints: seq<Joint>, points: seq<DepthPoint>, joint2D: array2<int>, i: nat)
    requires AllReadable(joints, points) && HoldsJoint2D(joint2D, joints, points)
    requires i < JointCount && BoneVisible(joint2D, i)
    ensures joints[i].trackingState == Tracked
    ensures Parents[i] < JointCount && joints[Parents[i]].trackingState == Tracked
  {
  }
}
