/** process_detections (lines 162-201): the per-frame pipeline.  Without detections or
    without a transform into the target frame the result is empty; otherwise every
    detection whose 3D box resolves is kept, in order, with its box (and, when it has
    keypoints, its 3D keypoints) moved into the target frame. */
module Detect3D {
  import opened Floats
  import opened Messages
  import opened BoxProjection
  import opened KeypointProjection
  import opened Transforms
  import opened Sequences

  /** The transform keeps ids and scores, so the (id, score) pairs are unchanged. */
  lemma TagsOfTransformed(kps: seq<KeyPoint3D>, t: RigidTransform)
    ensures Map(TransformedKeypoints(kps, t), Tag3) == Map(kps, Tag3)
  {
  }

  /** The detection as lines 186-199 leave it once its box resolved to `box`: the 2D box
      and keypoints are untouched; the 3D box is the transformed box in the target frame;
      the 3D keypoints are replaced only when there are 2D keypoints, and then hold, in
      the target frame, the transformed projection of the 2D keypoints without NaN. */
  function Augment(depth: DepthImage, info: CameraInfo, d: Detection, box: BoundingBox3D,
                   t: RigidTransform, cfg: Config): (r: Detection)
    requires FitsImage(depth, info) && Calibrated(info)
    ensures r.bbox == d.bbox && r.keypoints == d.keypoints
    ensures r.bbox3d.frameId == cfg.targetFrame
    ensures 0.0 <= r.bbox3d.size.x && 0.0 <= r.bbox3d.size.y && 0.0 <= r.bbox3d.size.z
    ensures d.keypoints == [] ==> r.keypoints3d == d.keypoints3d
    ensures d.keypoints != [] ==>
      && r.keypoints3d.frameId == cfg.targetFrame
      && IsSubsequence(Map(r.keypoints3d.data, Tag3), Map(d.keypoints, Tag2))
  {
    var bbox3d := TransformBox(box, t).(frameId := cfg.targetFrame);
    if d.keypoints == [] then d.(bbox3d := bbox3d)
    else
      var projected := Projected(depth, info, cfg.depthImageUnitsDivisor, d.keypoints);
      ProjectedIsSubsequence(depth, info, cfg.depthImageUnitsDivisor, d.keypoints);
      TagsOfTransformed(projected, t);
      d.(bbox3d := bbox3d,
         keypoints3d := KeyPoint3DArray(TransformedKeypoints(projected, t), cfg.targetFrame))
  }

  /** One pass of the loop of lines 181-199: nothing when the detection's 3D box does not
      resolve, otherwise the augmented detection. */
  function Step(depth: DepthImage, info: CameraInfo, t: RigidTransform, cfg: Config, d: Detection): Option<Detection>
    requires FitsImage(depth, info) && Calibrated(info)
  {
    match BoxOf(depth, info, d, cfg)
    case None => None
    case Some(box) => Some(Augment(depth, info, d, box, t, cfg))
  }

  function Stepper(depth: DepthImage, info: CameraInfo, t: RigidTransform, cfg: Config): Detection -> Option<Detection>
    requires FitsImage(depth, info) && Calibrated(info)
  {
    d => Step(depth, info, t, cfg, d)
  }

  /** new_detections after the loop of lines 181-199 over dets. */
  function AugmentAll(depth: DepthImage, info: CameraInfo, dets: seq<Detection>,
                      t: RigidTransform, cfg: Config): (r: seq<Detection>)
    requires FitsImage(depth, info) && Calibrated(info)
    ensures |r| <= |dets|
  {
    FilterMap(dets, Stepper(depth, info, t, cfg))
  }

  /** What process_detections returns; the transform lookup's result is an input. */
  function Processed(depth: DepthImage, info: CameraInfo, dets: seq<Detection>,
                     transform: Option<RigidTransform>, cfg: Config): (r: seq<Detection>)
    requires FitsImage(depth, info) && Calibrated(info)
    ensures |r| <= |dets|
    ensures transform.None? ==> r == []
  {
    if dets == [] then []
    else
      match transform
      case None => []
      case Some(t) => AugmentAll(depth, info, dets, t, cfg)
  }

  /** process_detections: the loop of lines 181-199 over the detections, after the early
      returns of lines 165-176. */
  method ProcessDetections(depth: DepthImage, info: CameraInfo, dets: seq<Detection>,
                           transform: Option<RigidTransform>, cfg: Config)
    returns (out: seq<Detection>)
    requires FitsImage(depth, info) && Calibrated(info)
    ensures out == Processed(depth, info, dets, transform, cfg)
  {
    if dets == [] {
      return [];
    }
    if transform.None? {
      return [];
    }
    var t := transform.value;
    out := [];
    var i := 0;
    while i < |dets|
      invariant 0 <= i <= |dets|
      invariant out == AugmentAll(depth, info, dets[..i], t, cfg)
    {
      AugmentAllSnoc(depth, info, dets, i, t, cfg);
      out := AppendResolved(depth, info, out, dets[i], t, cfg);
      i := i + 1;
    }
    assert dets[..|dets|] == dets;
  }

  /** One more detection appends its outcome. */
  lemma AugmentAllSnoc(depth: DepthImage, info: CameraInfo, dets: seq<Detection>, i: nat,
                       t: RigidTransform, cfg: Config)
    requires FitsImage(depth, info) && Calibrated(info)
    requires i < |dets|
    ensures AugmentAll(depth, info, dets[..i + 1], t, cfg)
      == AugmentAll(depth, info, dets[..i], t, cfg) + Outcome(depth, info, dets[i], t, cfg)
  {
    var f := Stepper(depth, info, t, cfg);
    assert dets[..i + 1] == dets[..i] + [dets[i]];
    FilterMapSnoc(dets[..i], dets[i], f);
    assert f(dets[i]) == Step(depth, info, t, cfg, dets[i]);
  }

  /** The detections one pass appends: none, or the resolved one. */
  function Outcome(depth: DepthImage, info: CameraInfo, d: Detection, t: RigidTransform, cfg: Config): seq<Detection>
    requires FitsImage(depth, info) && Calibrated(info)
  {
    match Step(depth, info, t, cfg, d)
    case None => []
    case Some(a) => [a]
  }

  /** The body of the loop of lines 181-199, statement by statement: append the detection,
      then overwrite the last element's bbox3d and, when it has keypoints, its keypoints3d. */
  method AppendResolved(depth: DepthImage, info: CameraInfo, out: seq<Detection>, d: Detection,
                        t: RigidTransform, cfg: Config)
    returns (out': seq<Detection>)
    requires FitsImage(depth, info) && Calibrated(info)
    ensures out' == out + Outcome(depth, info, d, t, cfg)
  {
    out' := out;
    var bbox3d := ConvertBbTo3d(depth, info, d, cfg);
    if bbox3d.Some? {
      out' := out' + [d];
      var box := Transform3dBox(bbox3d.value, t);
      box := box.(frameId := cfg.targetFrame);
      out' := out'[|out'| - 1 := out'[|out'| - 1].(bbox3d := box)];
      if d.keypoints != [] {
        var keypoints3d := KeypointsInTarget(depth, info, d, t, cfg);
        out' := out'[|out'| - 1 := out'[|out'| - 1].(keypoints3d := keypoints3d)];
      }
      OutcomeOfResolved(depth, info, d, bbox3d.value, t, cfg);
      AugmentFields(depth, info, d, bbox3d.value, t, cfg);
      assert out'[..|out|] == out;
      assert out'[|out|] == Augment(depth, info, d, bbox3d.value, t, cfg);
      assert out' == out'[..|out|] + [out'[|out|]];
    } else {
      assert Outcome(depth, info, d, t, cfg) == [];
    }
  }

  /** Lines 194-198: the 3D keypoints, transformed and stamped with the target frame. */
  method KeypointsInTarget(depth: DepthImage, info: CameraInfo, d: Detection, t: RigidTransform, cfg: Config)
    returns (r: KeyPoint3DArray)
    requires FitsImage(depth, info) && Calibrated(info)
    requires d.keypoints != []
    ensures r == KeyPoint3DArray(TransformedKeypoints(Projected(depth, info, cfg.depthImageUnitsDivisor, d.keypoints), t),
                                 cfg.targetFrame)
  {
    r := ConvertKeypointsTo3d(depth, info, d, cfg);
    r := Transform3dKeypoints(r, t);
    r := r.(frameId := cfg.targetFrame);
  }

  /** Augment field by field. */
  lemma AugmentFields(depth: DepthImage, info: CameraInfo, d: Detection, box: BoundingBox3D,
                      t: RigidTransform, cfg: Config)
    requires FitsImage(depth, info) && Calibrated(info)
    ensures var a := Augment(depth, info, d, box, t, cfg);
      && a.bbox3d == TransformBox(box, t).(frameId := cfg.targetFrame)
      && a.keypoints3d
         == if d.keypoints == [] then d.keypoints3d
            else KeyPoint3DArray(TransformedKeypoints(Projected(depth, info, cfg.depthImageUnitsDivisor, d.keypoints), t),
                                 cfg.targetFrame)
  {
  }

  /** A resolved detection contributes its augmentation with its own box. */
  lemma OutcomeOfResolved(depth: DepthImage, info: CameraInfo, d: Detection, box: BoundingBox3D,
                          t: RigidTransform, cfg: Config)
    requires FitsImage(depth, info) && Calibrated(info)
    requires BoxOf(depth, info, d, cfg) == Some(box)
    ensures Outcome(depth, info, d, t, cfg) == [Augment(depth, info, d, box, t, cfg)]
  {
  }

  /** No detections, or no transform into the target frame, give no output. */
  lemma ProcessedEmpty(depth: DepthImage, info: CameraInfo, dets: seq<Detection>,
                       transform: Option<RigidTransform>, cfg: Config)
    requires FitsImage(depth, info) && Calibrated(info)
    requires dets == [] || transform.None?
    ensures Processed(depth, info, dets, transform, cfg) == []
  {
  }

  /** The untouched part of a detection: its 2D box and 2D keypoints. */
  function Parts(d: Detection): (BoundingBox2D, seq<KeyPoint2D>) {
    (d.bbox, d.keypoints)
  }

  /** The output is, in order, the detections whose box resolves, no more of them than
      went in: their 2D parts form a subsequence of the input's. */
  lemma AugmentAllIsSubsequence(depth: DepthImage, info: CameraInfo, dets: seq<Detection>,
                                t: RigidTransform, cfg: Config)
    requires FitsImage(depth, info) && Calibrated(info)
    ensures |AugmentAll(depth, info, dets, t, cfg)| <= |dets|
    ensures IsSubsequence(Map(AugmentAll(depth, info, dets, t, cfg), Parts), Map(dets, Parts))
  {
    var f := Stepper(depth, info, t, cfg);
    forall d | f(d).Some?
      ensures Parts(f(d).value) == Parts(d)
    {
      assert f(d) == Step(depth, info, t, cfg, d);
    }
    FilterMapIsSubsequence(dets, f, Parts, Parts);
  }

  /** Exactly the detections whose box resolves are in the output, each augmented with its
      own box. */
  lemma AugmentAllMembers(depth: DepthImage, info: CameraInfo, dets: seq<Detection>,
                          t: RigidTransform, cfg: Config)
    requires FitsImage(depth, info) && Calibrated(info)
    ensures forall p :: p in AugmentAll(depth, info, dets, t, cfg) ==>
      exists i :: 0 <= i < |dets| && Step(depth, info, t, cfg, dets[i]) == Some(p)
    ensures forall i :: 0 <= i < |dets| && BoxOf(depth, info, dets[i], cfg).Some? ==>
      Augment(depth, info, dets[i], BoxOf(depth, info, dets[i], cfg).value, t, cfg)
        in AugmentAll(depth, info, dets, t, cfg)
  {
    var f := Stepper(depth, info, t, cfg);
    FilterMapMembers(dets, f);
    forall p | p in AugmentAll(depth, info, dets, t, cfg)
      ensures exists i :: 0 <= i < |dets| && Step(depth, info, t, cfg, dets[i]) == Some(p)
    {
      var i :| 0 <= i < |dets| && f(dets[i]) == Some(p);
      assert f(dets[i]) == Step(depth, info, t, cfg, dets[i]);
    }
    forall i | 0 <= i < |dets| && BoxOf(depth, info, dets[i], cfg).Some?
      ensures Augment(depth, info, dets[i], BoxOf(depth, info, dets[i], cfg).value, t, cfg)
        in AugmentAll(depth, info, dets, t, cfg)
    {
      assert f(dets[i]) == Step(depth, info, t, cfg, dets[i]);
    }
  }

  /** Every output element is the augmentation of a resolved input with its own box. */
  lemma AugmentAllResolvedOnly(depth: DepthImage, info: CameraInfo, dets: seq<Detection>,
                               t: RigidTransform, cfg: Config)
    requires FitsImage(depth, info) && Calibrated(info)
    ensures forall p :: p in AugmentAll(depth, info, dets, t, cfg) ==> exists i ::
      && 0 <= i < |dets| && BoxOf(depth, info, dets[i], cfg).Some?
      && p == Augment(depth, info, dets[i], BoxOf(depth, info, dets[i], cfg).value, t, cfg)
  {
    AugmentAllMembers(depth, info, dets, t, cfg);
    forall p | p in AugmentAll(depth, info, dets, t, cfg)
      ensures exists i ::
        && 0 <= i < |dets| && BoxOf(depth, info, dets[i], cfg).Some?
        && p == Augment(depth, info, dets[i], BoxOf(depth, info, dets[i], cfg).value, t, cfg)
    {
      var i :| 0 <= i < |dets| && Step(depth, info, t, cfg, dets[i]) == Some(p);
      StepResolved(depth, info, t, cfg, dets[i], p);
    }
  }

  lemma StepResolved(depth: DepthImage, info: CameraInfo, t: RigidTransform, cfg: Config, d: Detection, p: Detection)
    requires FitsImage(depth, info) && Calibrated(info)
    requires Step(depth, info, t, cfg, d) == Some(p)
    ensures BoxOf(depth, info, d, cfg).Some? && p == Augment(depth, info, d, BoxOf(depth, info, d, cfg).value, t, cfg)
  {
  }

  /** With detections and a transform, the output is the order-preserving subsequence of
      resolved detections: no longer than the input, each element the augmentation of an
      input detection with its own box, every resolved detection present, and every 3D box
      in the target frame with a non-negative size. */
  lemma ProcessedSpec(depth: DepthImage, info: CameraInfo, dets: seq<Detection>,
                      t: RigidTransform, cfg: Config)
    requires FitsImage(depth, info) && Calibrated(info)
    ensures
      var r := Processed(depth, info, dets, Some(t), cfg);
      && |r| <= |dets|
      && IsSubsequence(Map(r, Parts), Map(dets, Parts))
      && (forall i :: 0 <= i < |dets| && BoxOf(depth, info, dets[i], cfg).Some? ==>
            Augment(depth, info, dets[i], BoxOf(depth, info, dets[i], cfg).value, t, cfg) in r)
      && (forall p :: p in r ==> exists i ::
            && 0 <= i < |dets| && BoxOf(depth, info, dets[i], cfg).Some?
            && p == Augment(depth, info, dets[i], BoxOf(depth, info, dets[i], cfg).value, t, cfg))
      && (forall j :: 0 <= j < |r| ==>
            && r[j].bbox3d.frameId == cfg.targetFrame
            && 0.0 <= r[j].bbox3d.size.x && 0.0 <= r[j].bbox3d.size.y && 0.0 <= r[j].bbox3d.size.z)
  {
    var r := Processed(depth, info, dets, Some(t), cfg);
    if dets == [] {
      EmptyIsSubsequence(Map(dets, Parts));
    } else {
      AugmentAllIsSubsequence(depth, info, dets, t, cfg);
      AugmentAllMembers(depth, info, dets, t, cfg);
      AugmentAllResolvedOnly(depth, info, dets, t, cfg);
      forall j | 0 <= j < |r|
        ensures r[j].bbox3d.frameId == cfg.targetFrame
        ensures 0.0 <= r[j].bbox3d.size.x && 0.0 <= r[j].bbox3d.size.y && 0.0 <= r[j].bbox3d.size.z
      {
        assert r[j] in r;
      }
    }
  }

  /** A keypoint over an infinite depth off the principal axes survives the NaN filter of
      convert_keypoints_to_3d, and the identity transform then turns it into a keypoint at
      (NaN, NaN, NaN): the published 3D keypoints can hold NaN. */
  lemma InfiniteDepthKeypointPublishedAsNaN(depth: DepthImage, info: CameraInfo, d: Detection,
                                            box: BoundingBox3D, t: RigidTransform, cfg: Config)
    requires FitsImage(depth, info) && Calibrated(info)
    requires t.translation == Vec3(0.0, 0.0, 0.0) && t.rotation == IDENTITY
    requires |d.keypoints| == 1 && SampleOf(depth, info, d.keypoints[0]) == PosInf
    requires PixelOf(d.keypoints[0], info).1 as real != info.Px()
    requires PixelOf(d.keypoints[0], info).0 as real != info.Py()
    ensures Augment(depth, info, d, box, t, cfg).keypoints3d.data
      == [KeyPoint3D(d.keypoints[0].id, Point3(NaN, NaN, NaN), d.keypoints[0].score)]
  {
    var k := d.keypoints[0];
    var divisor := cfg.depthImageUnitsDivisor;
    InfiniteDepthKept(depth, info, divisor, k);
    assert d.keypoints[..0] == [];
    var l := Lifted(depth, info, divisor, k);
    assert Projected(depth, info, divisor, d.keypoints) == [l];
    TransformKeypointIdentity(l, t);
  }
}
