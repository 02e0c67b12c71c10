# yolov8_ros 3D detection core, in Dafny

This project models the geometric core of the yolov8_ros 3D detection node
(`yolov8_ros/yolov8_ros/detect_3d_node.py`) and proves properties about it. The node takes a
depth image, the depth camera's calibration, a list of 2D detections and a transform into a
target frame. For each detection it:

- crops the depth image to the 2D box;
- checks that the crop holds depth;
- picks an anchor pixel from the torso keypoints;
- checks the depth under the anchor;
- averages the positive depths of the crop;
- keeps the samples near that mean as a consensus, whose spread is the box's depth;
- back-projects the anchor and the box size through the pinhole camera;
- back-projects every keypoint and drops those with a NaN coordinate;
- moves the 3D box and 3D keypoints into the target frame.

Modules:

- `Floats`: float64 values as `Fin(r) | NaN | PosInf | NegInf`. The arithmetic follows
  IEEE-754 for NaN and the infinities, and is exact on finite values. `Trunc` is Python's
  `int()` on a float.
- `Messages`: the message types the node reads and writes, reduced to the fields it uses.
  Also the camera intrinsics, the depth image (rectangular rows of samples) and the node's
  parameters.
- `DepthRoi`: the clipped crop of the depth image and its conversion to metres.
- `DepthStats`: the "any depth" gate, the mean of the finite positive samples, the
  consensus mask and its minimum and maximum.
- `TorsoAnchor`: the keypoint scan for ids 5, 6, 11 and 12 and the choice of anchor.
- `BoxProjection`: `convert_bb_to_3d` as a method, proved equal to the function `BoxOf`.
- `KeypointProjection`: `convert_keypoints_to_3d` as a method, proved equal to `Projected`.
- `Transforms`: the following, over exact reals for boxes and over `Float` points for
  keypoints:
  - `qv_mult`;
  - `transform_3d_box`;
  - `transform_3d_keypoints`.
- `Sequences`: the order-preserving filter both append loops follow (`FilterMap`), and
  subsequences.
- `Detect3D`: `process_detections` as a method, proved equal to `Processed`.

Deliberate choices:

- The transform lookup is an input of type `Option<RigidTransform>`.
- The decoded depth image is an input.
- The parameters `target_frame`, `maximum_detection_threshold` and
  `depth_image_units_divisor` are the fields of a `Config` value.

Behaviour the model keeps as the code has it:

- The crop is half-open, and its upper bounds are clamped to `W - 1` and `H - 1`. So the
  last image row and column are never part of a crop.
- `int()` truncates toward zero, so an anchor coordinate of -0.5 becomes 0 and passes the
  bounds check.
- In each pair (5, 6) and (11, 12), the strictly higher score wins. A tie goes to 6 or 12.
  A missing 6 or 12 competes as the default keypoint: score 0 at (0, 0).
- A repeated keypoint id keeps only its last occurrence.
- The repeated block of lines 274-288 is executed. It gives the same anchor as lines
  254-259.
- `np.any` counts NaN and infinite samples as depth.
- Zero samples can join the consensus mask.
- The keypoint row comes from y and the column from x. Both are clamped to the
  camera-info size. All three coordinates are divided by the units divisor.
- Only keypoints with a NaN coordinate are dropped. A zero depth is kept. An infinite
  depth off the principal row and column is kept with infinite coordinates. The identity
  rotation then turns it into NaN. Other rotations are not covered by the proofs.

## Model

| member | source | states |
|---|---|---|
| Floats.Trunc | yolov8_ros/yolov8_ros/detect_3d_node.py:211-214 | `int()` truncates toward zero: the result lies within one of the argument, on the same side of zero |
| Floats.TruncNegativeHalf | yolov8_ros/yolov8_ros/detect_3d_node.py:292-293 | -0.5 truncates to 0, -1.5 to -1 and 1.5 to 1 |
| DepthRoi.PySlice | yolov8_ros/yolov8_ros/detect_3d_node.py:221 | Python's slice bounds always lie in `[0, len]`. In-range bounds are taken as they are. A negative stop counts from the end |
| DepthRoi.CropRangeAsWritten | yolov8_ros/yolov8_ros/detect_3d_node.py:216-221 | the slice as the code writes it selects a range within the image |
| DepthRoi.CropRange | yolov8_ros/yolov8_ros/detect_3d_node.py:216-221 | the clipped crop range lies in the image. It is either empty or exactly `[max(c - s//2, 0), min(c + s//2, len - 1))`. A size below 2 gives an empty range |
| DepthRoi.CropRangeMember | yolov8_ros/yolov8_ros/detect_3d_node.py:216-221 | an index is in the crop exactly when it is in the box window `[c - s//2, c + s//2)` and in `[0, len - 1)` |
| DepthRoi.CropRangeAgreesWithSlice | yolov8_ros/yolov8_ros/detect_3d_node.py:216-221 | whenever the clamped upper bound is not negative, the slice as written and the clipped range agree |
| DepthRoi.CropWrapsRoundAsWritten | yolov8_ros/yolov8_ros/detect_3d_node.py:216-221 | with centre -5 and size 2 on a 10-pixel axis, the slice as written takes indices 0..5, while the clipped range is empty |
| DepthRoi.CropOfSmallBoxAsWritten | yolov8_ros/yolov8_ros/detect_3d_node.py:213-221 | as written, a box 1 pixel wide centred at -3 on a 10-pixel axis crops indices 0..6, and a box of size -20 centred at 5 on a 30-pixel axis crops 15..24. The clipped range is empty in both cases |
| DepthRoi.Crop | yolov8_ros/yolov8_ros/detect_3d_node.py:221 | `depth_image[v0:v1, u0:u1]` is a `(v1 - v0) x (u1 - u0)` grid whose sample `(i, j)` is the pixel at row `v0 + i` and column `u0 + j` |
| DepthRoi.Roi | yolov8_ros/yolov8_ros/detect_3d_node.py:216-222 | the flattened clipped crop, each sample divided by the units divisor. Its properties are `RoiSample`, `RoiOfSmallBox` and `RoiOfUniformImage` |
| DepthRoi.CropSample | yolov8_ros/yolov8_ros/detect_3d_node.py:221 | every sample of the cropped grid is the pixel at some row and column inside both ranges |
| DepthRoi.RoiSample | yolov8_ros/yolov8_ros/detect_3d_node.py:216-222 | every ROI value is an in-bounds pixel of the clipped window, divided by the units divisor |
| DepthRoi.RoiOfSmallBox | yolov8_ros/yolov8_ros/detect_3d_node.py:213-221 | a box whose truncated width or height is below 2 has an empty ROI |
| DepthRoi.RoiOfUniformImage | yolov8_ros/yolov8_ros/detect_3d_node.py:216-222 | on an image whose samples all equal c, every ROI value is c / divisor. The ROI is non-empty exactly when both clipped ranges are |
| DepthStats.AnyNonZero | yolov8_ros/yolov8_ros/detect_3d_node.py:224 | `np.any(roi)`: some sample is not zero. NaN and infinite samples count. `BoxOfSpec` shows this gate never decides on its own |
| DepthStats.FinitePositive | yolov8_ros/yolov8_ros/detect_3d_node.py:309-311 | `roi[roi > 0]` on the masked ROI holds exactly the finite, strictly positive samples. `FinitePositiveCounts` gives how often each occurs |
| DepthStats.FinitePositiveCounts | yolov8_ros/yolov8_ros/detect_3d_node.py:309-311 | every finite positive sample occurs in `roi[roi > 0]` exactly as often as in the ROI, and nothing else occurs. So the mean of line 311 weighs each sample once |
| DepthStats.WithinThreshold | yolov8_ros/yolov8_ros/detect_3d_node.py:315-320 | the consensus mask keeps exactly the finite samples within the threshold of the mean, zeros included |
| DepthStats.MinOf | yolov8_ros/yolov8_ros/detect_3d_node.py:321 | `np.min` returns an element that is at most every element |
| DepthStats.MaxOf | yolov8_ros/yolov8_ros/detect_3d_node.py:321 | `np.max` returns an element that is at least every element |
| DepthStats.MeanBetweenMinAndMax | yolov8_ros/yolov8_ros/detect_3d_node.py:311 | the mean lies between the smallest and the largest sample |
| DepthStats.StatsOf | yolov8_ros/yolov8_ros/detect_3d_node.py:309-321 | the masked-array statistics of the ROI: the mean of the finite positive samples, then the smallest and largest sample within the threshold of it, or none. Its properties are `StatsOfSpec`, `StatsOfUniform` and `ZeroSampleJoinsConsensus` |
| DepthStats.StatsOfSpec | yolov8_ros/yolov8_ros/detect_3d_node.py:309-321 | statistics exist exactly when some sample is finite and positive and the mask is non-empty. The mean is then positive and is the mean of those samples. zMin and zMax are ROI samples within the threshold of it. They are the smallest and the largest such sample: every finite sample within the threshold lies between them. `0 <= zMax - zMin <= 2 * threshold` |
| DepthStats.StatsOfUniform | yolov8_ros/yolov8_ros/detect_3d_node.py:309-321 | a ROI whose samples all equal c > 0 has mean c and extent 0 |
| DepthStats.ZeroSampleJoinsConsensus | yolov8_ros/yolov8_ros/detect_3d_node.py:315-321 | beside one 0.2 sample, a zero sample joins the mask and stretches the extent to 0.2 |
| TorsoAnchor.LastWithId | yolov8_ros/yolov8_ros/detect_3d_node.py:239-251 | the slot of an id is empty exactly when the id does not occur. Otherwise it holds an occurrence that no later one follows |
| TorsoAnchor.SlotSnoc | yolov8_ros/yolov8_ros/detect_3d_node.py:239-251 | one more keypoint fills the slot of its own id and changes no other slot or flag |
| TorsoAnchor.LastOccurrenceWins | yolov8_ros/yolov8_ros/detect_3d_node.py:239-251 | a keypoint not followed by its id again is the one its slot keeps |
| TorsoAnchor.Better | yolov8_ros/yolov8_ros/detect_3d_node.py:255-256 | the keypoint with the strictly higher score, else the second one. The result is one of the two, its score is at least both scores, and a tie gives the second |
| TorsoAnchor.AnchorPoint | yolov8_ros/yolov8_ros/detect_3d_node.py:254-289 | the anchor before `int()`: the midpoint of the better shoulder and the better hip, or the better shoulder, or the better hip, or the box centre. `ScanAnchor` is proved equal to it |
| TorsoAnchor.Anchor | yolov8_ros/yolov8_ros/detect_3d_node.py:254-293 | `AnchorPoint` truncated toward zero. Its properties are `AnchorWithoutTorso`, `AnchorTiesGoToSecond` and the two examples below |
| TorsoAnchor.AnchorWithoutTorso | yolov8_ros/yolov8_ros/detect_3d_node.py:228-293 | without ids 5, 6, 11 and 12 the anchor is the truncated box centre |
| TorsoAnchor.AnchorShouldersOnly | yolov8_ros/yolov8_ros/detect_3d_node.py:261-265 | in the example with keypoint 5 at (50, 60), score 0.9, and keypoint 6 at (52, 61), score 0.3, the anchor is (50, 60): the better shoulder, not a midpoint |
| TorsoAnchor.AnchorBothSides | yolov8_ros/yolov8_ros/detect_3d_node.py:254-259 | in the example that adds keypoint 11 at (40, 100), score 0.2, and keypoint 12 at (44, 104), score 0.8 to those shoulders, the anchor is (47, 82): the truncated midpoint of keypoint 5 and keypoint 12 |
| TorsoAnchor.AnchorTiesGoToSecond | yolov8_ros/yolov8_ros/detect_3d_node.py:261-265 | a shoulder tie goes to 6. A missing 6 competes as the default keypoint and can move the anchor to (0, 0) |
| TorsoAnchor.ScanAnchor | yolov8_ros/yolov8_ros/detect_3d_node.py:228-289 | the scan loop, the three anchor cases and the repeated block leave the centre equal to the anchor of `AnchorPoint` |
| Transforms.Rotate | yolov8_ros/yolov8_ros/detect_3d_node.py:461-467 | `qv_mult` over exact reals: `v + 2 (w (u x v) + u x (u x v))`. Its properties are `RotateIdentity` and `RotateHalfTurnAboutZ` |
| Transforms.QvMult | yolov8_ros/yolov8_ros/detect_3d_node.py:461-467 | `qv_mult` over float64 values with IEEE NaN and infinities. `QvMultOfFinite` ties it to `Rotate`, and `QvMultOfNonFinite` shows the poisoning |
| Transforms.RotateIdentity | yolov8_ros/yolov8_ros/detect_3d_node.py:461-467 | the quaternion (1, 0, 0, 0) leaves every vector unchanged |
| Transforms.RotateHalfTurnAboutZ | yolov8_ros/yolov8_ros/detect_3d_node.py:461-467 | (0, 0, 0, 1) maps (x, y, z) to (-x, -y, z) |
| Transforms.QvMultOfFinite | yolov8_ros/yolov8_ros/detect_3d_node.py:461-467 | on finite vectors the float64 `qv_mult` is the exact rotation |
| Transforms.QvMultOfNonFinite | yolov8_ros/yolov8_ros/detect_3d_node.py:461-467 | even the identity rotation turns a vector with a NaN or infinite component into (NaN, NaN, NaN) |
| Transforms.TransformBox | yolov8_ros/yolov8_ros/detect_3d_node.py:405-435 | the transformed box has no negative size component and keeps its frame id |
| Transforms.Transform3dBox | yolov8_ros/yolov8_ros/detect_3d_node.py:405-435 | the field-by-field overwrite of centre and size gives `TransformBox` |
| Transforms.TransformBoxTranslation | yolov8_ros/yolov8_ros/detect_3d_node.py:411-433 | the centre is the rotated centre plus the translation. The size does not depend on the translation |
| Transforms.TransformBoxIdentity | yolov8_ros/yolov8_ros/detect_3d_node.py:405-435 | the identity transform leaves a box with non-negative size unchanged |
| Transforms.TransformKeypoint | yolov8_ros/yolov8_ros/detect_3d_node.py:445-456 | one pass of the loop: the point is rotated by `QvMult` and translated. The id and score are kept |
| Transforms.TransformedKeypoints | yolov8_ros/yolov8_ros/detect_3d_node.py:444-456 | the transformed keypoints have the same length, and every id and score is kept |
| Transforms.TransformKeypointIdentity | yolov8_ros/yolov8_ros/detect_3d_node.py:444-456 | the identity transform keeps a finite keypoint. It moves one with a non-finite coordinate to (NaN, NaN, NaN) |
| Transforms.Transform3dKeypoints | yolov8_ros/yolov8_ros/detect_3d_node.py:438-458 | the in-order overwrite of positions gives the array with `TransformedKeypoints` as data and changes nothing else |
| BoxProjection.ConvertBbTo3d | yolov8_ros/yolov8_ros/detect_3d_node.py:203-340 | `convert_bb_to_3d`, statement by statement with the clipped crop, returns `BoxOf` |
| BoxProjection.BuildBox | yolov8_ros/yolov8_ros/detect_3d_node.py:324-338 | reading fx, fy, px and py out of K, then writing the six fields of a default `BoundingBox3D` one at a time, gives `ProjectBox` |
| BoxProjection.InImage | yolov8_ros/yolov8_ros/detect_3d_node.py:295-297 | the anchor gate: the column lies in `[0, W)` and the row in `[0, H)` of the depth image. Used by `BoxOfSpec` and `BoxOfRejectedAnchor` |
| BoxProjection.Usable | yolov8_ros/yolov8_ros/detect_3d_node.py:303-306 | the centre-depth gate: the depth is finite and not zero. Used by `BoxOfSpec` and `BoxOfRejectedAnchor` |
| BoxProjection.ProjectBox | yolov8_ros/yolov8_ros/detect_3d_node.py:324-338 | the pinhole back-projection of the anchor at the mean depth, and of the truncated pixel size. Its properties are `ProjectBoxReprojects` and `BoxOfScenario` |
| BoxProjection.BoxOf | yolov8_ros/yolov8_ros/detect_3d_node.py:203-340 | the result of `convert_bb_to_3d` over the clipped crop: the four gates in the code's order, then `ProjectBox`. Its properties are `BoxOfSpec`, `BoxOfRejectedAnchor`, `BoxOfSmallBox` and `BoxOfScenario` |
| BoxProjection.ProjectBoxReprojects | yolov8_ros/yolov8_ros/detect_3d_node.py:324-338 | the box sits at the mean depth and its depth size is the consensus extent. Reprojecting the centre gives back the anchor pixel. Reprojecting width and height gives back the pixel size |
| BoxProjection.BoxOfSpec | yolov8_ros/yolov8_ros/detect_3d_node.py:203-340 | a box exists exactly when the anchor is in the image over a usable depth, some ROI sample is finite and positive, and the mask is non-empty. The box is then the back-projection at the ROI's statistics: centre.z is the positive mean, `0 <= size.z <= 2 * threshold`, and the frame id is empty |
| BoxProjection.BoxOfRejectedAnchor | yolov8_ros/yolov8_ros/detect_3d_node.py:291-306 | an anchor outside the image, or over a NaN, zero or infinite depth, gives no box |
| BoxProjection.BoxOfSmallBox | yolov8_ros/yolov8_ros/detect_3d_node.py:211-225 | a box narrower or lower than 2 pixels gives no box |
| BoxProjection.BoxOfScenario | yolov8_ros/yolov8_ros/detect_3d_node.py:324-338 | uniform 2000 units with divisor 1000, box (100, 100) of size 40 x 40, fx = fy = 500 and px = py = 0 give centre (0.4, 0.4, 2.0) and size (0.16, 0.16, 0) |
| KeypointProjection.PixelOf | yolov8_ros/yolov8_ros/detect_3d_node.py:350-353 | the sampled row is truncated y, and the column truncated x, each clamped into the camera image |
| KeypointProjection.ProjectKeypoint | yolov8_ros/yolov8_ros/detect_3d_node.py:356-362 | the float64 back-projection of one keypoint's pixel. Its properties are `ProjectKeypointNaN`, `ProjectKeypointFinite`, `ZeroDepthKept` and `InfiniteDepthKept` |
| KeypointProjection.Projected | yolov8_ros/yolov8_ros/detect_3d_node.py:366-374 | the loop's output is no longer than the keypoint list. Its other properties are `ProjectedSnoc`, `ProjectedIsSubsequence`, `ProjectedMembers` and `ProjectedKeepsAllOverFiniteDepth` |
| KeypointProjection.ProjectedSnoc | yolov8_ros/yolov8_ros/detect_3d_node.py:366-374 | one more keypoint is appended, lifted, exactly when its projection has no NaN |
| KeypointProjection.ConvertKeypointsTo3d | yolov8_ros/yolov8_ros/detect_3d_node.py:342-376 | the vectorised projection and the append loop give `Projected` with an empty frame id |
| KeypointProjection.ProjectKeypointNaN | yolov8_ros/yolov8_ros/detect_3d_node.py:356-367 | a keypoint is dropped exactly when its sample is NaN, or is infinite on the principal column or row |
| KeypointProjection.ProjectKeypointFinite | yolov8_ros/yolov8_ros/detect_3d_node.py:356-362 | over a finite depth z the keypoint is kept. It lands at z (col - px) / fx, z (row - py) / fy and z, each divided by the divisor |
| KeypointProjection.ZeroDepthKept | yolov8_ros/yolov8_ros/detect_3d_node.py:356-367 | a zero depth keeps the keypoint, at the origin |
| KeypointProjection.InfiniteDepthKept | yolov8_ros/yolov8_ros/detect_3d_node.py:356-367 | an infinite depth off the principal row and column keeps the keypoint, with infinite coordinates |
| KeypointProjection.ProjectedIsSubsequence | yolov8_ros/yolov8_ros/detect_3d_node.py:366-374 | the output is no longer than the input. Its (id, score) pairs are an order-preserving subsequence of the input's |
| KeypointProjection.ProjectedMembers | yolov8_ros/yolov8_ros/detect_3d_node.py:366-374 | the output holds exactly the lifted keypoints whose projection has no NaN |
| KeypointProjection.ProjectedKeepsAllOverFiniteDepth | yolov8_ros/yolov8_ros/detect_3d_node.py:366-374 | over an all-finite depth image no keypoint is dropped, and the ids and scores come out in input order |
| Detect3D.TagsOfTransformed | yolov8_ros/yolov8_ros/detect_3d_node.py:444-456 | the transform keeps every (id, score) pair in place |
| Detect3D.Augment | yolov8_ros/yolov8_ros/detect_3d_node.py:186-199 | a resolved detection keeps its 2D box and keypoints. Its 3D box is in the target frame with non-negative size. Its 3D keypoints change only when it has keypoints: they are then in the target frame, and their ids and scores are a subsequence of the 2D ones |
| Detect3D.OutcomeOfResolved | yolov8_ros/yolov8_ros/detect_3d_node.py:185-199 | a detection whose box resolves contributes exactly its augmentation with that box |
| Detect3D.KeypointsInTarget | yolov8_ros/yolov8_ros/detect_3d_node.py:193-199 | convert, transform and restamp give the transformed projection in the target frame |
| Detect3D.AppendResolved | yolov8_ros/yolov8_ros/detect_3d_node.py:182-199 | appending and then overwriting the last element adds exactly the detection's outcome |
| Detect3D.AugmentAll | yolov8_ros/yolov8_ros/detect_3d_node.py:181-199 | the loop's output is no longer than the detection list. Its other properties are `AugmentAllSnoc`, `AugmentAllIsSubsequence` and `AugmentAllMembers` |
| Detect3D.Processed | yolov8_ros/yolov8_ros/detect_3d_node.py:169-201 | the result of `process_detections`: no longer than the input, and empty without a transform. Its other properties are `ProcessedEmpty` and `ProcessedSpec` |
| Detect3D.AugmentAllSnoc | yolov8_ros/yolov8_ros/detect_3d_node.py:181-199 | one more detection appends its outcome to the output |
| Detect3D.ProcessDetections | yolov8_ros/yolov8_ros/detect_3d_node.py:162-201 | `process_detections`, statement by statement, returns `Processed`. Its boxes come from `BoxOf`, over the clipped crop |
| Detect3D.ProcessedEmpty | yolov8_ros/yolov8_ros/detect_3d_node.py:169-176 | no detections, or no transform, give an empty list |
| Detect3D.AugmentAllIsSubsequence | yolov8_ros/yolov8_ros/detect_3d_node.py:181-199 | the output is no longer than the input. Its 2D parts are an order-preserving subsequence of the input's |
| Detect3D.AugmentAllMembers | yolov8_ros/yolov8_ros/detect_3d_node.py:181-199 | every output element is the outcome of some input detection. Every detection whose box resolves is present, augmented with its own box |
| Detect3D.AugmentAllResolvedOnly | yolov8_ros/yolov8_ros/detect_3d_node.py:181-199 | every output element is the augmentation of a detection whose box resolves, with that box |
| Detect3D.ProcessedSpec | yolov8_ros/yolov8_ros/detect_3d_node.py:162-201 | with a transform, the output is no longer than the input and its 2D parts are an order-preserving subsequence of the input's. Every resolved detection is present. Every output element is the augmentation of a resolved detection with its own box, so nothing else is present. Every 3D box is in the target frame with non-negative size |
| Detect3D.InfiniteDepthKeypointPublishedAsNaN | yolov8_ros/yolov8_ros/detect_3d_node.py:193-199 | a keypoint over an infinite depth off the principal axes survives the NaN filter. The identity transform then publishes it at (NaN, NaN, NaN) |

## Left out

Line numbers refer to `yolov8_ros/yolov8_ros/detect_3d_node.py`.

- BoxProjection.ConvertBbTo3d: crops with the clipped range `CropRange`, not the slice the
  code computes. When a clamped upper bound `u_max` or `v_max` is negative, the code's slice
  wraps round and crops pixels of a box that lies outside the image. The model gives no box
  there (see "## Findings" and `DepthRoi.CropWrapsRoundAsWritten`).
- BoxProjection.BoxOf: uses the same clipped crop, for the same reason.
- DepthRoi.Roi: uses the same clipped crop, for the same reason.
- DepthRoi.RoiOfSmallBox: holds for the clipped crop only. As written, a box 1 pixel
  wide centred at column -3 crops columns 0..6 (`DepthRoi.CropOfSmallBoxAsWritten`).
- BoxProjection.BoxOfSmallBox: holds for the clipped crop only, for the same reason. As
  written, such a box can yield a 3D box when a torso keypoint lies inside the image.
- Detect3D.ProcessDetections: inherits the clipped crop through `BoxOf`.
- The lifecycle callbacks, parameter declaration and QoS setup (lines 55-144): ROS
  framework plumbing. The parameters are the fields of `Config`.
- The message-filter subscriptions, the approximate-time synchronizer and publishing
  (lines 109-123, 146-160): transport and concurrency.
- `get_transform` (lines 378-402): a tf2 lookup, which is a foreign call, with logging.
  Its result is the `Option<RigidTransform>` input of `ProcessDetections`.
- `cv_bridge` decoding of the depth message (line 179): a foreign library. The depth grid
  is an input.
- IEEE-754 rounding: finite arithmetic is exact over `real`. Only NaN and the infinities
  are tracked.
- The numpy masked-array machinery: it is modelled through its effect on which samples
  take part.
- The 3D box path: its values are finite reals, so a NaN in a box position is not
  modelled.
- The `np.int16` conversion of keypoint coordinates (line 351): coordinates are assumed
  to fit, so its overflow is not modelled.
- Zero focal lengths: `Calibrated` requires fx and fy to be non-zero. The code would
  produce infinities or NaN there.
- Camera-info sizes below 1 or larger than the depth image: `FitsImage` requires
  `1 <= width <= depth width` and `1 <= height <= depth height`. With other sizes the
  code's clamped indices raise IndexError or wrap round.
- Detect3D.ProcessDetections: requires `FitsImage` for every frame. The code uses the
  camera-info size only when a resolved detection has keypoints (lines 193-195), so frames
  whose detections have no keypoints are excluded with no reason in the code.
- Detect3D.Processed: requires `FitsImage` for every frame, for the same reason.
- ConvertKeypointsTo3d: requires at least one keypoint. On an empty list the code fails
  when it indexes `keypoints_2d[:, 1]`, and its only caller never passes one.
- The units divisor: its type requires it to be a positive integer.
- In-place mutation and aliasing. `transform_3d_box`, `transform_3d_keypoints` and
  `process_detections` update message objects that the caller also holds. The model
  builds new values, so it does not capture that the input detections are modified too.
- The Detection fields the node does not touch, and the 2D box orientation.
- Norm-preservation and inverse-rotation properties for non-identity quaternions: the
  code does not rely on them.

## Findings

| source | as written | input that shows it | evidently intended | confidence | as-written member | corrected member |
|---|---|---|---|---|---|---|
| yolov8_ros/yolov8_ros/detect_3d_node.py:216-221 | `u_max = min(center_x + size_x // 2, W - 1)`, and likewise `v_max`, can be negative. Python's slice then counts it from the end | a box centred at column -5 with width 2 on a 10-pixel-wide image: `u_min = 0`, `u_max = -4`, so `[0:-4]` crops columns 0..5 of a box wholly left of the image. A torso keypoint inside the image lets such a box pass the anchor check. The same wrap round lets a box narrower than 2 pixels crop pixels (`CropOfSmallBoxAsWritten`) | the crop clipped to the image, which is empty here | medium, not executed | DepthRoi.CropWrapsRoundAsWritten | DepthRoi.CropRange |
