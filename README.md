# Kinect v2 utilities — a Dafny model of the data path

This project models the numerical core of `utils_PyKinectV2.py`, a set of
helpers that turn Kinect v2 sensor frames into arrays for OpenCV and Open3D.
The modelled parts are:

- **colour-to-depth alignment**: each depth pixel carries a fractional colour
  coordinate. The coordinate is shifted by 0.5, truncated toward zero and
  clamped into the colour frame. The colour sample found there becomes the
  depth-resolution aligned image (module `ColorAlignment`).
- **joint extraction** (module `Joints`):
  - the 25×2 int32 depth-space pixel array. A joint that is not tracked, or is
    only inferred, gets the `(0, 0)` sentinel.
  - its pinhole back-projection to a 25×3 camera-space array. Z is read from
    the depth image at `depth[v, u]` with Python's negative-index wrap. X and
    Y are then computed from Z.
  - the 25×4 quaternion array, reordered from the SDK's `(x, y, z, w)` to
    `(w, x, y, z)`.
- **body selection**: every tracked body of a body frame overwrites the two
  arrays, so the last tracked body wins. With no frame or no tracked body the
  arrays stay all zeros (module `BodySelection`).
- **joint transform**: the 4×4 homogeneous matrix built from a joint position
  and an unnormalised quaternion (module `RigidTransform`).
- **kinematic tables** (module `Skeleton`):
  - the parent table `k` of the 2-D bone drawing. The root, joint 0, is its
    own parent, so the drawing's bone for `i = 0` goes from joint 0 to itself.
  - the 24-bone list of the 3-D line set. The two tables are separate data.
    They agree on every joint except the neck: joint 2 hangs from the spine
    mid (1) in the drawing table and from the spine shoulder (20) in the bone
    list. Each table on its own is a tree rooted at joint 0.
- **bone guard**: the 2-D drawing pass draws the bone of joint `i` only when
  both endpoints have strictly positive coordinates (module `BoneDrawing`).

Module `Numpy` holds the numpy and Python semantics these rely on:
- `astype(int)` and int32 conversion as truncation toward zero;
- `np.clip`;
- negative-index wrap on 2-D arrays.

Read-only inputs (colour and depth images, the correspondence table, the
tracker's joint records) are values. The arrays the source allocates with
`np.zeros` and fills in loops are `array2` results of methods, specified by
what every cell holds.

## Model

| member | source | states |
|---|---|---|
| Numpy.Trunc | utils_PyKinectV2.py:32 | the integer lies within one unit of the float, on the side of zero (truncation, not floor) |
| Numpy.TruncZero | utils_PyKinectV2.py:52 | truncation gives 0 exactly on the open interval (-1, 1) |
| Numpy.Clip | utils_PyKinectV2.py:33-34 | the result lies in [lo, hi] and is the point of that range nearest the input |
| Numpy.WrapIndex | utils_PyKinectV2.py:75 | a Python index in range maps to a position below the axis length that is the index itself or the index plus the length |
| Numpy.At | utils_PyKinectV2.py:75 | `g[v, u]` reads row v and column u, counted from the end when negative, in all four sign cases |
| ColorAlignment.FlatIndex | utils_PyKinectV2.py:32 | the row-major position of (r, c) is inside the flat table, and dividing it by the width gives back r and c |
| ColorAlignment.ColorIndex | utils_PyKinectV2.py:31-34 | the shifted, truncated, clamped coordinate is a valid index of the axis |
| ColorAlignment.ColorIndexIsClampedFloor | utils_PyKinectV2.py:31-34 | truncation and floor give the same index once the clamp is applied |
| ColorAlignment.ColorIndexRoundsToNearest | utils_PyKinectV2.py:31-32 | inside the frame the index is the nearest pixel centre, with ties going up |
| ColorAlignment.ColorIndexLeftBorder | utils_PyKinectV2.py:31-33 | the index is 0 exactly when the coordinate is below 0.5 |
| ColorAlignment.ColorIndexRightBorder | utils_PyKinectV2.py:31-34 | the index is the last one exactly when the coordinate is at least size − 1.5 |
| ColorAlignment.FarOutsideSamplesCorner | utils_PyKinectV2.py:22-34 | with the default 1920×1080 frame, coordinates far outside clamp to column 0 and row 1079 |
| ColorAlignment.SourcePixelIsColorPixel | utils_PyKinectV2.py:37 | every sample taken is a pixel of the colour image inside the declared height and width |
| ColorAlignment.AlignColorImage | utils_PyKinectV2.py:29-39 | the result is a newly allocated depth-sized array, and pixel (r, c) is the colour sample that table entry r·width + c points at |
| Joints.SingleJoint | utils_PyKinectV2.py:45-52 | a joint not tracked or only inferred gives (0, 0); a tracked one gives its depth-space position truncated toward zero |
| Joints.SentinelIsAmbiguous | utils_PyKinectV2.py:49-52 | (0, 0) comes out exactly for untracked joints and for tracked joints within one pixel of the origin on both axes |
| Joints.Joint2D | utils_PyKinectV2.py:55-60 | the newly allocated 25×2 array holds joint t's pixel in row t, for every t |
| Joints.BackProject | utils_PyKinectV2.py:74-77 | Z is the scaled depth at `depth[v, u]`; X·fx = (u − cx)·Z and Y·fy = (v − cy)·Z |
| Joints.ProjectBackProjected | utils_PyKinectV2.py:74-77 | when Z is nonzero, projecting the back-projected point gives back the pixel (u, v) |
| Joints.ZeroDepthCollapses | utils_PyKinectV2.py:75-77 | a pixel with no depth back-projects to the camera centre (0, 0, 0) |
| Joints.UntrackedJointSamplesOrigin | utils_PyKinectV2.py:74-77 | an untracked joint is still back-projected, from the depth sample at `depth[0, 0]` |
| Joints.Joint3D | utils_PyKinectV2.py:63-79 | the newly allocated 25×3 array holds the back-projection of joint t's pixel in row t, for every t |
| Joints.QuaternionRow | utils_PyKinectV2.py:85-88 | the row has four entries: w first, then x, y, z |
| Joints.JointQuaternions | utils_PyKinectV2.py:82-90 | the newly allocated 25×4 array holds joint t's orientation as (w, x, y, z) in row t, for every t |
| BodySelection.LastTracked | utils_PyKinectV2.py:176-183 | the selected slot is tracked and no later slot is tracked; None means no slot is tracked |
| BodySelection.SingleJoint3DAndOrientation | utils_PyKinectV2.py:172-186 | both arrays are newly allocated; with no frame or no tracked body both arrays are all zeros; otherwise they hold the 3-D joints and quaternions of the last tracked body |
| RigidTransform.TransformGeometryQuaternion | utils_PyKinectV2.py:189-201 | the result is 4×4, its last column is the joint position and its bottom row is (0, 0, 0, 1) |
| RigidTransform.IdentityQuaternionIsTranslation | utils_PyKinectV2.py:196-199 | the quaternion (1, 0, 0, 0) gives the identity block, i.e. a pure translation |
| RigidTransform.OriginMapsToJoint | utils_PyKinectV2.py:196-199 | the matrix sends the homogeneous origin to the joint position |
| RigidTransform.UnitQuaternionGivesRotation | utils_PyKinectV2.py:194-198 | for a unit quaternion the upper-left 3×3 block is a proper rotation: orthonormal rows and determinant 1 |
| RigidTransform.QuaternionRotationIsRotation | utils_PyKinectV2.py:196-198 | the quaternion-to-rotation formula gives a proper rotation for every unit quaternion |
| RigidTransform.RotationOrthonormal | utils_PyKinectV2.py:196-198 | the quaternion-to-rotation formula gives orthonormal rows for every unit quaternion |
| RigidTransform.RotationDeterminant | utils_PyKinectV2.py:196-198 | for every unit quaternion the formula's determinant is 1, so the block is never a reflection |
| RigidTransform.NegatedQuaternionSameTransform | utils_PyKinectV2.py:191-199 | q and −q give the same matrix |
| RigidTransform.NonUnitQuaternionSkews | utils_PyKinectV2.py:191-198 | without normalisation, the quaternion (1, 1, 0, 0) gives a block row of squared length 5, not a rotation |
| RigidTransform.TrackerIdentityIsTranslation | utils_PyKinectV2.py:85-88 | the SDK's identity orientation (0, 0, 0, 1), once reordered, gives a pure translation |
| Skeleton.Ancestor | utils_PyKinectV2.py:205-212 | following a parent table any number of steps stays on a joint |
| Skeleton.AncestorDepth | utils_PyKinectV2.py:205-212 | in a ranked tree, n steps up land at depth d − n, or at the root once n reaches d |
| Skeleton.RankedTreeChains | utils_PyKinectV2.py:205-212 | in a ranked tree every chain reaches the root and none returns to a non-root start |
| Skeleton.ParentsShape | utils_PyKinectV2.py:205-212 | the drawing's parent table has 25 entries naming joints; only joint 0 is its own parent |
| Skeleton.ParentsRanked | utils_PyKinectV2.py:205-212 | the drawing's parent table is a tree rooted at joint 0, ranked by depth |
| Skeleton.ParentsFormTree | utils_PyKinectV2.py:205-212 | every joint reaches joint 0 within 7 parent steps and never returns to itself |
| Skeleton.BonesShape | utils_PyKinectV2.py:135-139 | 24 bones between joints; every joint but 0 is the child of exactly one bone |
| Skeleton.BonesMatchBoneParents | utils_PyKinectV2.py:135-139 | the bone list is exactly the parent relation `BoneParents` |
| Skeleton.BoneParentsRanked | utils_PyKinectV2.py:135-139 | the bone list's parent relation is a tree rooted at joint 0, ranked by depth |
| Skeleton.BonesFormTree | utils_PyKinectV2.py:135-139 | along the bone list every joint reaches joint 0 within 7 steps and never returns to itself |
| Skeleton.TablesDifferOnlyAtNeck | utils_PyKinectV2.py:135-139 | the bone list contains (k[c], c) for every child c except the neck, where it has (20, 2) instead of (1, 2) |
| BoneDrawing.DrawBone2D | utils_PyKinectV2.py:214-216 | the joints whose bone is drawn are exactly those passing the guard, each once, in increasing order |
| BoneDrawing.DrawnBonesJoinTrackedJoints | utils_PyKinectV2.py:214-215 | a drawn bone of the projected joint array joins two tracked joints, because the (0, 0) sentinel fails the guard |

## Left out

- The SDK calls `MapDepthFrameToColorSpace` and `body_joints_to_depth_space` are not part of this model. Their results (the colour coordinate table and the depth-space joint points) are inputs. So is the body frame the runtime delivers.
- float32 storage and rounding are not modelled: coordinates, depths and 3-D points are exact reals. The −infinity colour coordinate the SDK reports for unmapped pixels is therefore not modelled either.
- Joints.SingleJoint: the int32 conversion does not model overflow for coordinates beyond ±2³¹.
- Joints.BackProject: requires fx and fy to be nonzero, where numpy would produce inf or nan.
- Joints.BackProject: requires the pixel to index the depth image. An index outside it makes Python raise IndexError, and that crash is not modelled.
- Joints.BackProject: the uint16 depth samples are modelled as natural numbers.
- ColorAlignment.ColorIndex: the `astype(int)` cast to a fixed-width integer (int32 on Windows, int64 elsewhere) is not modelled; the model truncates into unbounded integers. For a coordinate beyond that integer's range numpy's result is undefined (on x86 it is the minimum integer, which the clip sends to 0), while the model sends it to the far border. `ColorIndexRightBorder` and `FarOutsideSamplesCorner` therefore describe the source only for coordinates inside that range.
- ColorAlignment.AlignColorImage: requires a colour frame of at least one row and one column. With a declared size of 0, `np.clip` would give −1 and numpy would wrap it.
- ColorAlignment.AlignColorImage: requires the declared colour height and width to fit inside the colour image. A declared size larger than the image lets a clamped index fall outside it, and numpy then raises IndexError; that crash is not modelled.
- BoneDrawing.DrawBone2D: requires a 25×2 joint array. Other shapes make the source fail on the 25-entry table or skip bones. The `img` argument and the rendering of lines by `cv2.line` are not modelled; the pass yields the list of drawn bones instead.
- RigidTransform.TransformGeometryQuaternion: does not normalise the quaternion, as the source does not. The effect of a non-unit quaternion is stated by `NonUnitQuaternionSkews`.
- The Open3D geometry (`create_line_set_bones` beyond its bone table, `create_color_point_cloud`), the colouring and drawing helpers (`color_body_index`, `draw_bodyframe`, `draw_joint2D`), and the pygame/pyautogui cursor code are display or I/O code and are not modelled.
