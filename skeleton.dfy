/** The static kinematic data of the 25-joint Kinect skeleton: the parent
    table used when bones are drawn on a 2-D image and the bone list handed
    to the 3-D line-set viewer. The two tables are separate data and do not
    describe the same edges (they differ at the neck, joint 2). */
module Skeleton {

  /** Number of joints the tracker reports per body (JointType_Count). */
  const JointCount: nat := 25

  /** Parent of each joint in the 2-D bone drawing; the root (joint 0) is its own parent. */
  const Parents: seq<nat> :=
    [0, 0, 1, 2,      // spine
     20, 4, 5, 6,     // left arm
     20, 8, 9, 10,    // right arm
     0, 12, 13, 14,   // left leg
     0, 16, 17, 18,   // right leg
     1,               // spine
     7, 7,            // left hand
     11, 11]          // right hand

  /** The 24 bones of the 3-D line set, each (parent, child). */
  const Bones: seq<(nat, nat)> :=
    [(0, 1), (1, 20), (20, 2), (2, 3),                          // spine
     (20, 4), (4, 5), (5, 6), (6, 7), (7, 21), (7, 22),         // left arm and hand
     (20, 8), (8, 9), (9, 10), (10, 11), (11, 23), (11, 24),    // right arm and hand
     (0, 12), (12, 13), (13, 14), (14, 15),                     // left leg
     (0, 16), (16, 17), (17, 18), (18, 19)]                     // right leg

  /** Number of steps from each joint up to the root along `Parents`:
      a ranking that witnesses the tree shape of the table. */
  ghost const Depths: seq<nat> :=
    [0, 1, 2, 3, 3, 4, 5, 6, 3, 4, 5, 6, 1, 2, 3, 4, 1, 2, 3, 4, 2, 7, 7, 7, 7]

  /** The parent relation the bone list describes: that of `Parents`, except
      that the neck (joint 2) hangs from the spine shoulder (joint 20). */
  const BoneParents: seq<nat> := Parents[2 := 20]

  /** Ranking for `BoneParents`: the neck and the head sit one level lower. */
  ghost const BoneDepths: seq<nat> := Depths[2 := 3][3 := 4]

  /** A parent table over joints 0..|parent|-1: every entry names a joint. */
  predicate IsParentTable(parent: seq<nat>)
  {
    forall i :: 0 <= i < |parent| ==> parent[i] < |parent|
  }

  /** The joint reached from `i` after `n` steps up the parent table. */
  function Ancestor(parent: seq<nat>, i: nat, n: nat): (a: nat)
    requires IsParentTable(parent) && i < |parent|
    ensures a < |parent|
    decreases n
  {
    if n == 0 then i else Ancestor(parent, parent[i], n - 1)
  }

  /** `parent` is a tree rooted at 0 whose depth of every joint is `depth`:
      the root is its own parent and every other joint sits one level below its parent. */
  ghost predicate RankedTree(parent: seq<nat>, depth: seq<nat>)
  {
    && IsParentTable(parent)
    && |depth| == |parent| > 0
    && parent[0] == 0 && depth[0] == 0
    && forall i :: 0 < i < |parent| ==> depth[i] == depth[parent[i]] + 1
  }

  /** In a ranked tree, `n` steps up from `i` land at depth depth[i] - n, or at the root. */
  lemma {:induction false} AncestorDepth(parent: seq<nat>, depth: seq<nat>, i: nat, n: nat)
    requires RankedTree(parent, depth) && i < |parent|
    ensures n >= depth[i] ==> Ancestor(parent, i, n) == 0
    ensures n < depth[i] ==> depth[Ancestor(parent, i, n)] == depth[i] - n
    decreases n
  {
    if n > 0 {
      if i == 0 {
        AncestorDepth(parent, depth, 0, n - 1);
      } else {
        AncestorDepth(parent, depth, parent[i], n - 1);
      }
    }
  }

  /** In a ranked tree every chain reaches the root within max(depth) steps and
      none returns to a joint other than the root. */
  lemma RankedTreeChains(parent: seq<nat>, depth: seq<nat>, i: nat, h: nat, n: nat)
    requires RankedTree(parent, depth) && i < |parent| && depth[i] <= h
    ensures Ancestor(parent, i, h) == 0
    ensures 0 < i && 0 < n ==> Ancestor(parent, i, n) != i
  {
    AncestorDepth(parent, depth, i, h);
    AncestorDepth(parent, depth, i, n);
  }

  /** The parent table of the 2-D drawing has one entry per joint, each naming
      a joint; joint 0 is the only joint that is its own parent. */
  lemma ParentsShape()
    ensures |Parents| == JointCount && IsParentTable(Parents)
    ensures forall i :: 0 <= i < JointCount ==> (Parents[i] == i <==> i == 0)
  {
  }

  /** The parent of a joint is a joint. */
  lemma ParentIsJoint(i: nat)
    requires i < JointCount
    ensures |Parents| == JointCount && Parents[i] < JointCount
  {
    ParentsShape();
  }

  /** The drawing's parent table is a tree rooted at joint 0, ranked by `Depths`. */
  lemma ParentsRanked()
    ensures RankedTree(Parents, Depths)
  {
    assert |Parents| == |Depths| == 25;
    assert IsParentTable(Parents);
    forall i | 0 < i < 25
      ensures Depths[i] == Depths[Parents[i]] + 1
    {
      // one case per joint
      assert || i == 1 || i == 2 || i == 3 || i == 4 || i == 5 || i == 6 || i == 7 || i == 8
             || i == 9 || i == 10 || i == 11 || i == 12 || i == 13 || i == 14 || i == 15 || i == 16
             || i == 17 || i == 18 || i == 19 || i == 20 || i == 21 || i == 22 || i == 23 || i == 24;
    }
  }

  /** Every joint's parent chain in the drawing table reaches joint 0 within 7 steps
      and never returns to the joint it started from. */
  lemma ParentsFormTree(i: nat, n: nat)
    requires i < JointCount
    ensures IsParentTable(Parents)
    ensures Ancestor(Parents, i, 7) == 0
    ensures 0 < i && 0 < n ==> Ancestor(Parents, i, n) != i
  {
    ParentsRanked();
    RankedTreeChains(Parents, Depths, i, 7, n);
  }

  /** The bone list has 24 bones between joints; every joint but 0 is the child
      of exactly one bone and joint 0 is the child of none. */
  lemma BonesShape()
    ensures |Bones| == JointCount - 1
    ensures forall b :: 0 <= b < |Bones| ==> Bones[b].0 < JointCount && 0 < Bones[b].1 < JointCount
    ensures forall b, d :: 0 <= b < d < |Bones| ==> Bones[b].1 != Bones[d].1
  {
  }

  /** `BoneParents` is exactly the relation of the bone list. */
  lemma BonesMatchBoneParents()
    ensures |BoneParents| == JointCount
    ensures forall b :: 0 <= b < |Bones| ==> BoneParents[Bones[b].1] == Bones[b].0
    ensures forall c :: 0 < c < JointCount ==> (BoneParents[c], c) in Bones
  {
  }

  /** The bone list's parent relation is a tree rooted at joint 0, ranked by `BoneDepths`. */
  lemma BoneParentsRanked()
    ensures RankedTree(BoneParents, BoneDepths)
  {
    assert |BoneParents| == |BoneDepths| == 25;
    assert IsParentTable(BoneParents);
    forall i | 0 < i < 25
      ensures BoneDepths[i] == BoneDepths[BoneParents[i]] + 1
    {
      // one case per joint
      assert || i == 1 || i == 2 || i == 3 || i == 4 || i == 5 || i == 6 || i == 7 || i == 8
             || i == 9 || i == 10 || i == 11 || i == 12 || i == 13 || i == 14 || i == 15 || i == 16
             || i == 17 || i == 18 || i == 19 || i == 20 || i == 21 || i == 22 || i == 23 || i == 24;
    }
  }

  /** The bone list is a tree too: every chain through it reaches joint 0 within
      7 steps and none returns to its start. */
  lemma BonesFormTree(i: nat, n: nat)
    requires i < JointCount
    ensures IsParentTable(BoneParents)
    ensures Ancestor(BoneParents, i, 7) == 0
    ensures 0 < i && 0 < n ==> Ancestor(BoneParents, i, n) != i
  {
    BoneParentsRanked();
    RankedTreeChains(BoneParents, BoneDepths, i, 7, n);
  }

  /** The two tables agree on every joint except the neck: the drawing table
      joins the neck (2) to the spine mid (1), the bone list to the spine shoulder (20). */
  lemma TablesDifferOnlyAtNeck()
    ensures forall c :: 0 < c < JointCount ==> ((Parents[c], c) in Bones <==> c != 2)
    ensures Parents[2] == 1 && (20, 2) in Bones && (1, 2) !in Bones
  {
  }
}
