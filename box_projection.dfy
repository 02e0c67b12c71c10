/** convert_bb_to_3d (lines 203-340): from a 2D detection and the depth image to a 3D
    box in the camera frame, or no box.  The ROI gate, the torso anchor, the centre-depth
    gate, the depth statistics and the pinhole back-projection, in that order. */
module BoxProjection {
  import opened Floats
  import opened Messages
  import opened DepthRoi
  import opened DepthStats
  import opened TorsoAnchor

  /** Both focal lengths are non-zero, so the projection divides by finite non-zero values. */
  predicate Calibrated(info: CameraInfo) {
    info.Fx() != 0.0 && info.Fy() != 0.0
  }

  /** The anchor (column, row) lies in [0, W) x [0, H) of the depth image (lines 295-297). */
  predicate InImage(depth: DepthImage, a: (int, int)) {
    0 <= a.0 < depth.width && 0 <= a.1 < |depth.rows|
  }

  /** The depth under the anchor, in metres (lines 299-300). */
  function CentreDepth(depth: DepthImage, a: (int, int), divisor: Divisor): Float
    requires InImage(depth, a)
  {
    ToMetres(depth.rows[a.1][a.0], divisor)
  }

  /** The gate of lines 303-306: the centre depth is neither NaN, nor zero, nor infinite. */
  predicate Usable(z: Float) {
    z.Fin? && z.r != 0.0
  }

  /** The anchor of a detection: the torso anchor, falling back to the truncated box centre. */
  function AnchorOf(d: Detection): (int, int) {
    Anchor(d.keypoints, Trunc(d.bbox.center.x), Trunc(d.bbox.center.y))
  }

  /** z * e / f: a pixel offset e from the principal point back-projected to depth z. */
  function BackProject(z: real, e: real, f: real): real
    requires f != 0.0
  {
    z * e / f
  }

  /** z * (s / f): a pixel length s back-projected to depth z. */
  function BackProjectLength(z: real, s: real, f: real): real
    requires f != 0.0
  {
    z * (s / f)
  }

  /** Lines 324-338: the pinhole back-projection of the anchor at the mean depth, and of the
      truncated box size; size.z is the extent of the consensus samples. */
  function ProjectBox(s: Stats, a: (int, int), sizeX: int, sizeY: int, info: CameraInfo): BoundingBox3D
    requires Calibrated(info)
  {
    BoundingBox3D(
      Vec3(BackProject(s.mean, a.0 as real - info.Px(), info.Fx()),
           BackProject(s.mean, a.1 as real - info.Py(), info.Fy()),
           s.mean),
      Vec3(BackProjectLength(s.mean, sizeX as real, info.Fx()),
           BackProjectLength(s.mean, sizeY as real, info.Fy()),
           s.zMax - s.zMin),
      "")
  }

  /** What convert_bb_to_3d returns for one detection. */
  function BoxOf(depth: DepthImage, info: CameraInfo, d: Detection, cfg: Config): Option<BoundingBox3D>
    requires Calibrated(info)
  {
    var roi := Roi(depth, d.bbox, cfg.depthImageUnitsDivisor);
    if !AnyNonZero(roi) then None
    else
      var a := AnchorOf(d);
      if !InImage(depth, a) then None
      else if !Usable(CentreDepth(depth, a, cfg.depthImageUnitsDivisor)) then None
      else
        match StatsOf(roi, cfg.maximumDetectionThreshold)
        case None => None
        case Some(s) => Some(ProjectBox(s, a, Trunc(d.bbox.size.x), Trunc(d.bbox.size.y), info))
  }

  /** convert_bb_to_3d, statement by statement over the clipped crop: the ROI gate, the torso scan, int() of the
      anchor, the bounds and centre-depth gates, the statistics and the projection. */
  method ConvertBbTo3d(depth: DepthImage, info: CameraInfo, d: Detection, cfg: Config)
    returns (r: Option<BoundingBox3D>)
    requires Calibrated(info)
    ensures r == BoxOf(depth, info, d, cfg)
  {
    var centerX := Trunc(d.bbox.center.x);
    var centerY := Trunc(d.bbox.center.y);
    var sizeX := Trunc(d.bbox.size.x);
    var sizeY := Trunc(d.bbox.size.y);
    var divisor := cfg.depthImageUnitsDivisor;

    var roi := Roi(depth, d.bbox, divisor);
    if !AnyNonZero(roi) {
      return None;
    }

    var cx, cy := ScanAnchor(d.keypoints, centerX, centerY);
    var ax, ay := Trunc(cx), Trunc(cy);
    assert (ax, ay) == AnchorOf(d);
    if ax < 0 || ax >= depth.width || ay < 0 || ay >= |depth.rows| {
      return None;
    }
    var z := ToMetres(depth.rows[ay][ax], divisor);
    if z.NaN? || z == Fin(0.0) || z.IsInf() {
      return None;
    }

    var stats := StatsOf(roi, cfg.maximumDetectionThreshold);
    if stats.None? {
      return None;
    }
    var msg := BuildBox(stats.value, ax, ay, sizeX, sizeY, info);
    r := Some(msg);
  }

  /** Lines 324-338 as statements: read the intrinsics out of K, back-project, and write
      the six fields of a fresh BoundingBox3D one by one. */
  method BuildBox(s: Stats, ax: int, ay: int, sizeX: int, sizeY: int, info: CameraInfo)
    returns (msg: BoundingBox3D)
    requires Calibrated(info)
    ensures msg == ProjectBox(s, (ax, ay), sizeX, sizeY, info)
  {
    var k := info.k;
    var px, py, fx, fy := k[2], k[5], k[0], k[4];
    var x := BackProject(s.mean, ax as real - px, fx);
    var y := BackProject(s.mean, ay as real - py, fy);
    var w := BackProjectLength(s.mean, sizeX as real, fx);
    var h := BackProjectLength(s.mean, sizeY as real, fy);

    msg := DEFAULT_BOUNDING_BOX_3D;
    msg := msg.(center := msg.center.(x := x));
    msg := msg.(center := msg.center.(y := y));
    msg := msg.(center := msg.center.(z := s.mean));
    msg := msg.(size := msg.size.(x := w));
    msg := msg.(size := msg.size.(y := h));
    msg := msg.(size := msg.size.(z := s.zMax - s.zMin));
  }

  /** The back-projected box sits at the mean depth with the consensus extent as its
      depth size; reprojecting its centre through the same camera gives back the anchor
      pixel, and reprojecting its width and height gives back the pixel size. */
  lemma ProjectBoxReprojects(s: Stats, a: (int, int), sizeX: int, sizeY: int, info: CameraInfo)
    requires Calibrated(info) && s.mean != 0.0
    ensures
      var b := ProjectBox(s, a, sizeX, sizeY, info);
      && b.center.z == s.mean && b.size.z == s.zMax - s.zMin && b.frameId == ""
      && info.Fx() * b.center.x / b.center.z + info.Px() == a.0 as real
      && info.Fy() * b.center.y / b.center.z + info.Py() == a.1 as real
      && info.Fx() * b.size.x / b.center.z == sizeX as real
      && info.Fy() * b.size.y / b.center.z == sizeY as real
  {
    Unproject(s.mean, a.0 as real - info.Px(), info.Fx());
    Unproject(s.mean, a.1 as real - info.Py(), info.Fy());
    UnprojectLength(s.mean, sizeX as real, info.Fx());
    UnprojectLength(s.mean, sizeY as real, info.Fy());
  }

  lemma Unproject(z: real, e: real, f: real)
    requires z != 0.0 && f != 0.0
    ensures f * BackProject(z, e, f) / z == e
  {
    var q := z * e / f;
    assert q * f == z * e;
    assert f * q == z * e;
  }

  lemma UnprojectLength(z: real, s: real, f: real)
    requires z != 0.0 && f != 0.0
    ensures f * BackProjectLength(z, s, f) / z == s
  {
    var q := s / f;
    assert q * f == s;
    assert f * (z * q) == z * s;
  }

  /** A box exists exactly when the anchor is in the image over a usable depth and the ROI
      has finite positive samples with some finite sample within the threshold of their
      mean (so the "any depth" gate of line 224 never decides on its own).  The box is
      then the back-projection of the anchor and of the truncated box size at the ROI's
      statistics: it sits at the mean of the finite positive samples, and its depth
      extent lies in [0, 2 * threshold]. */
  lemma BoxOfSpec(depth: DepthImage, info: CameraInfo, d: Detection, cfg: Config)
    requires Calibrated(info)
    ensures
      var roi := Roi(depth, d.bbox, cfg.depthImageUnitsDivisor);
      var pos := FinitePositive(roi);
      BoxOf(depth, info, d, cfg).Some? <==>
        && InImage(depth, AnchorOf(d))
        && Usable(CentreDepth(depth, AnchorOf(d), cfg.depthImageUnitsDivisor))
        && pos != []
        && WithinThreshold(roi, Mean(pos), cfg.maximumDetectionThreshold) != []
    ensures BoxOf(depth, info, d, cfg).Some? ==>
      var roi := Roi(depth, d.bbox, cfg.depthImageUnitsDivisor);
      var st := StatsOf(roi, cfg.maximumDetectionThreshold);
      var b := BoxOf(depth, info, d, cfg).value;
      && st.Some?
      && b == ProjectBox(st.value, AnchorOf(d), Trunc(d.bbox.size.x), Trunc(d.bbox.size.y), info)
      && b.center.z == Mean(FinitePositive(roi)) && 0.0 < b.center.z
      && 0.0 <= b.size.z <= 2.0 * cfg.maximumDetectionThreshold
      && b.frameId == ""
  {
    var roi := Roi(depth, d.bbox, cfg.depthImageUnitsDivisor);
    StatsOfSpec(roi, cfg.maximumDetectionThreshold);
    var pos := FinitePositive(roi);
    if pos != [] {
      assert pos[0] in pos;
      var i :| 0 <= i < |roi| && roi[i] == Fin(pos[0]);
      assert roi[i] != Fin(0.0);
      assert AnyNonZero(roi);
    }
  }

  /** An anchor outside the image, or one over a NaN, zero or infinite depth, gives no box. */
  lemma BoxOfRejectedAnchor(depth: DepthImage, info: CameraInfo, d: Detection, cfg: Config)
    requires Calibrated(info)
    requires !InImage(depth, AnchorOf(d)) || !Usable(CentreDepth(depth, AnchorOf(d), cfg.depthImageUnitsDivisor))
    ensures BoxOf(depth, info, d, cfg) == None
  {
  }

  /** A box narrower or lower than 2 pixels has an empty ROI, hence no 3D box. */
  lemma BoxOfSmallBox(depth: DepthImage, info: CameraInfo, d: Detection, cfg: Config)
    requires Calibrated(info)
    requires Trunc(d.bbox.size.x) < 2 || Trunc(d.bbox.size.y) < 2
    ensures BoxOf(depth, info, d, cfg) == None
  {
    RoiOfSmallBox(depth, d.bbox, cfg.depthImageUnitsDivisor);
  }

  /** A uniform depth of 2000 units with divisor 1000, a 40 x 40 box centred at
      (100, 100) without keypoints, fx = fy = 500 and px = py = 0: the box is centred at
      (0.4, 0.4, 2.0) with size (0.16, 0.16, 0). */
  lemma BoxOfScenario(depth: DepthImage, info: CameraInfo, d: Detection, cfg: Config)
    requires info.k == [500.0, 0.0, 0.0, 0.0, 500.0, 0.0, 0.0, 0.0, 1.0]
    requires 100 < depth.width && 100 < |depth.rows|
    requires forall v, u :: 0 <= v < |depth.rows| && 0 <= u < depth.width ==> depth.rows[v][u] == Fin(2000.0)
    requires d.bbox == BoundingBox2D(Point2D(100.0, 100.0), Point2D(40.0, 40.0)) && d.keypoints == []
    requires cfg.depthImageUnitsDivisor == 1000 && cfg.maximumDetectionThreshold == 0.3
    ensures Calibrated(info)
    ensures BoxOf(depth, info, d, cfg) == Some(BoundingBox3D(Vec3(0.4, 0.4, 2.0), Vec3(0.16, 0.16, 0.0), ""))
  {
    assert info.Fx() == 500.0 && info.Fy() == 500.0 && info.Px() == 0.0 && info.Py() == 0.0;
    var roi := Roi(depth, d.bbox, 1000);
    TruncOfInt(100);
    TruncOfInt(40);
    assert Trunc(100.0) == 100 && Trunc(40.0) == 40;
    RoiOfUniformImage(depth, d.bbox, 1000, 2000.0);
    assert RowRange(depth, d.bbox).0 == 80 && ColRange(depth, d.bbox).0 == 80;
    assert roi != [];
    assert roi[0] == Fin(2.0);
    assert AnyNonZero(roi);
    assert AnchorOf(d) == (100, 100);
    assert CentreDepth(depth, (100, 100), 1000) == Fin(2.0);
    StatsOfUniform(roi, 2.0, 0.3);
    var st := Stats(2.0, 2.0, 2.0);
    assert ProjectBox(st, (100, 100), 40, 40, info)
        == BoundingBox3D(Vec3(0.4, 0.4, 2.0), Vec3(0.16, 0.16, 0.0), "");
  }
}
