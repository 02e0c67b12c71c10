/** convert_keypoints_to_3d (lines 342-376): every 2D keypoint is truncated to integer
    pixels, clamped into the camera image (column from x, row from y), back-projected
    with its raw depth sample, divided by the units divisor, and kept unless some
    coordinate of the result is NaN. */
module KeypointProjection {
  import opened Floats
  import opened Messages
  import opened DepthRoi
  import opened BoxProjection
  import opened Sequences

  /** The camera image is at least one pixel each way and no larger than the depth image,
      so every clamped pixel indexes the depth image. */
  predicate FitsImage(depth: DepthImage, info: CameraInfo) {
    1 <= info.width <= depth.width && 1 <= info.height <= |depth.rows|
  }

  /** (row, column) sampled for a keypoint (lines 350-353): int() of y clipped to
      [0, height - 1] is the row, int() of x clipped to [0, width - 1] the column. */
  function PixelOf(k: KeyPoint2D, info: CameraInfo): (rc: (nat, nat))
    requires 1 <= info.width && 1 <= info.height
    ensures rc.0 < info.height && rc.1 < info.width
    ensures 0 <= Trunc(k.point.y) < info.height ==> rc.0 == Trunc(k.point.y)
    ensures 0 <= Trunc(k.point.x) < info.width ==> rc.1 == Trunc(k.point.x)
    ensures Trunc(k.point.y) < 0 ==> rc.0 == 0
    ensures Trunc(k.point.x) < 0 ==> rc.1 == 0
    ensures Trunc(k.point.y) >= info.height ==> rc.0 == info.height - 1
    ensures Trunc(k.point.x) >= info.width ==> rc.1 == info.width - 1
  {
    (Clip(Trunc(k.point.y), info.height - 1), Clip(Trunc(k.point.x), info.width - 1))
  }

  /** The raw depth sample under a keypoint (line 356). */
  function SampleOf(depth: DepthImage, info: CameraInfo, k: KeyPoint2D): Float
    requires FitsImage(depth, info)
  {
    depth.rows[PixelOf(k, info).0][PixelOf(k, info).1]
  }

  /** Lines 358-362: x = z (col - px) / fx and y = z (row - py) / fy in float64, then all
      three coordinates divided by the units divisor. */
  function ProjectKeypoint(depth: DepthImage, info: CameraInfo, divisor: Divisor, k: KeyPoint2D): Point3
    requires FitsImage(depth, info) && Calibrated(info)
  {
    var rc := PixelOf(k, info);
    var z := SampleOf(depth, info, k);
    Point3(ToMetres(Div(Mul(z, Fin(rc.1 as real - info.Px())), info.Fx()), divisor),
           ToMetres(Div(Mul(z, Fin(rc.0 as real - info.Py())), info.Fy()), divisor),
           ToMetres(z, divisor))
  }

  /** np.isnan(p).any(). */
  predicate HasNaN(p: Point3) {
    p.x.NaN? || p.y.NaN? || p.z.NaN?
  }

  /** The KeyPoint3D built for an input keypoint (lines 368-373). */
  function Lifted(depth: DepthImage, info: CameraInfo, divisor: Divisor, k: KeyPoint2D): KeyPoint3D
    requires FitsImage(depth, info) && Calibrated(info)
  {
    KeyPoint3D(k.id, ProjectKeypoint(depth, info, divisor, k), k.score)
  }

  /** One pass of the loop of lines 366-374: the keypoint is kept, lifted, when its
      projection has no NaN coordinate. */
  function Keep(depth: DepthImage, info: CameraInfo, divisor: Divisor, k: KeyPoint2D): Option<KeyPoint3D>
    requires FitsImage(depth, info) && Calibrated(info)
  {
    if HasNaN(ProjectKeypoint(depth, info, divisor, k)) then None else Some(Lifted(depth, info, divisor, k))
  }

  function Keeper(depth: DepthImage, info: CameraInfo, divisor: Divisor): KeyPoint2D -> Option<KeyPoint3D>
    requires FitsImage(depth, info) && Calibrated(info)
  {
    k => Keep(depth, info, divisor, k)
  }

  /** msg_array.data after the loop of lines 366-374 over the keypoints kps. */
  function Projected(depth: DepthImage, info: CameraInfo, divisor: Divisor, kps: seq<KeyPoint2D>): (r: seq<KeyPoint3D>)
    requires FitsImage(depth, info) && Calibrated(info)
    ensures |r| <= |kps|
  {
    FilterMap(kps, Keeper(depth, info, divisor))
  }

  /** One more keypoint appends its lifted form exactly when its projection has no NaN. */
  lemma ProjectedSnoc(depth: DepthImage, info: CameraInfo, divisor: Divisor, kps: seq<KeyPoint2D>, i: nat)
    requires FitsImage(depth, info) && Calibrated(info)
    requires i < |kps|
    ensures Projected(depth, info, divisor, kps[..i + 1])
      == Projected(depth, info, divisor, kps[..i])
         + (if HasNaN(ProjectKeypoint(depth, info, divisor, kps[i])) then [] else [Lifted(depth, info, divisor, kps[i])])
  {
    var f := Keeper(depth, info, divisor);
    assert kps[..i + 1] == kps[..i] + [kps[i]];
    FilterMapSnoc(kps[..i], kps[i], f);
    assert f(kps[i]) == Keep(depth, info, divisor, kps[i]);
  }

  /** convert_keypoints_to_3d.  The vectorised projection of lines 350-362 is computed for
      all keypoints at once; the loop then appends, in order, those without NaN. */
  method ConvertKeypointsTo3d(depth: DepthImage, info: CameraInfo, d: Detection, cfg: Config)
    returns (r: KeyPoint3DArray)
    requires FitsImage(depth, info) && Calibrated(info)
    requires d.keypoints != []
    ensures r == KeyPoint3DArray(Projected(depth, info, cfg.depthImageUnitsDivisor, d.keypoints), "")
  {
    var kps := d.keypoints;
    var divisor := cfg.depthImageUnitsDivisor;
    var points := seq(|kps|, i requires 0 <= i < |kps| => ProjectKeypoint(depth, info, divisor, kps[i]));
    var data: seq<KeyPoint3D> := [];
    var i := 0;
    while i < |kps|
      invariant 0 <= i <= |kps|
      invariant data == Projected(depth, info, divisor, kps[..i])
    {
      ProjectedSnoc(depth, info, divisor, kps, i);
      var p := points[i];
      if !HasNaN(p) {
        data := data + [KeyPoint3D(kps[i].id, p, kps[i].score)];
      }
      i := i + 1;
    }
    assert kps[..|kps|] == kps;
    r := KeyPoint3DArray(data, "");
  }

  /** A projected keypoint has a NaN coordinate exactly when its depth sample is NaN, or
      is infinite on the principal column or row (0 * inf inside z (col - px)). */
  lemma ProjectKeypointNaN(depth: DepthImage, info: CameraInfo, divisor: Divisor, k: KeyPoint2D)
    requires FitsImage(depth, info) && Calibrated(info)
    ensures
      var z := SampleOf(depth, info, k);
      var rc := PixelOf(k, info);
      HasNaN(ProjectKeypoint(depth, info, divisor, k)) <==>
        z.NaN? || (z.IsInf() && (rc.1 as real == info.Px() || rc.0 as real == info.Py()))
  {
  }

  /** Over a finite depth sample z the keypoint lands at z (col - px) / fx, z (row - py) / fy
      and z (the back-projection of the box centre), each divided by the divisor, and is
      kept. */
  lemma ProjectKeypointFinite(depth: DepthImage, info: CameraInfo, divisor: Divisor, k: KeyPoint2D)
    requires FitsImage(depth, info) && Calibrated(info)
    requires SampleOf(depth, info, k).Fin?
    ensures
      var z := SampleOf(depth, info, k).r;
      var rc := PixelOf(k, info);
      var n := divisor as real;
      && ProjectKeypoint(depth, info, divisor, k)
         == Point3(Fin(BackProject(z, rc.1 as real - info.Px(), info.Fx()) / n),
                   Fin(BackProject(z, rc.0 as real - info.Py(), info.Fy()) / n),
                   Fin(z / n))
      && !HasNaN(ProjectKeypoint(depth, info, divisor, k))
  {
    var z := SampleOf(depth, info, k).r;
    var rc := PixelOf(k, info);
    assert SampleOf(depth, info, k) == Fin(z);
    ScaledOfFinite(z, rc.1 as real - info.Px(), info.Fx(), divisor);
    ScaledOfFinite(z, rc.0 as real - info.Py(), info.Fy(), divisor);
  }

  lemma ScaledOfFinite(z: real, e: real, f: real, divisor: Divisor)
    requires f != 0.0
    ensures ToMetres(Div(Mul(Fin(z), Fin(e)), f), divisor) == Fin(BackProject(z, e, f) / divisor as real)
  {
    MulOfFinite(z, e);
  }

  /** A keypoint over a zero depth sample is not dropped: it lands at the origin. */
  lemma ZeroDepthKept(depth: DepthImage, info: CameraInfo, divisor: Divisor, k: KeyPoint2D)
    requires FitsImage(depth, info) && Calibrated(info)
    requires SampleOf(depth, info, k) == Fin(0.0)
    ensures ProjectKeypoint(depth, info, divisor, k) == Point3(Fin(0.0), Fin(0.0), Fin(0.0))
    ensures !HasNaN(ProjectKeypoint(depth, info, divisor, k))
  {
    ProjectKeypointFinite(depth, info, divisor, k);
    var rc := PixelOf(k, info);
    ZeroQuotient(rc.1 as real - info.Px(), info.Fx(), divisor as real);
    ZeroQuotient(rc.0 as real - info.Py(), info.Fy(), divisor as real);
  }

  lemma ZeroQuotient(e: real, f: real, n: real)
    requires f != 0.0 && n != 0.0
    ensures 0.0 * e / f / n == 0.0
  {
  }

  /** The (id, score) pair of a keypoint, which projection and transformation keep. */
  function Tag2(k: KeyPoint2D): (int, real) {
    (k.id, k.score)
  }

  function Tag3(k: KeyPoint3D): (int, real) {
    (k.id, k.score)
  }

  /** The output keeps input keypoints in order, with their ids and scores, and has no
      more of them: its (id, score) pairs are a subsequence of the input's. */
  lemma ProjectedIsSubsequence(depth: DepthImage, info: CameraInfo, divisor: Divisor, kps: seq<KeyPoint2D>)
    requires FitsImage(depth, info) && Calibrated(info)
    ensures |Projected(depth, info, divisor, kps)| <= |kps|
    ensures IsSubsequence(Map(Projected(depth, info, divisor, kps), Tag3), Map(kps, Tag2))
  {
    var f := Keeper(depth, info, divisor);
    forall k | f(k).Some?
      ensures Tag3(f(k).value) == Tag2(k)
    {
      assert f(k) == Keep(depth, info, divisor, k);
    }
    FilterMapIsSubsequence(kps, f, Tag2, Tag3);
  }

  /** Exactly the keypoints whose projection has no NaN are in the output, each as its
      projection with its own id and score. */
  lemma ProjectedMembers(depth: DepthImage, info: CameraInfo, divisor: Divisor, kps: seq<KeyPoint2D>)
    requires FitsImage(depth, info) && Calibrated(info)
    ensures forall p :: p in Projected(depth, info, divisor, kps) ==>
      exists i :: 0 <= i < |kps| && p == Lifted(depth, info, divisor, kps[i]) && !HasNaN(p.point)
    ensures forall i :: 0 <= i < |kps| && !HasNaN(ProjectKeypoint(depth, info, divisor, kps[i])) ==>
      Lifted(depth, info, divisor, kps[i]) in Projected(depth, info, divisor, kps)
  {
    var f := Keeper(depth, info, divisor);
    FilterMapMembers(kps, f);
    forall p | p in Projected(depth, info, divisor, kps)
      ensures exists i :: 0 <= i < |kps| && p == Lifted(depth, info, divisor, kps[i]) && !HasNaN(p.point)
    {
      var i :| 0 <= i < |kps| && f(kps[i]) == Some(p);
      assert f(kps[i]) == Keep(depth, info, divisor, kps[i]);
    }
    forall i | 0 <= i < |kps| && !HasNaN(ProjectKeypoint(depth, info, divisor, kps[i]))
      ensures Lifted(depth, info, divisor, kps[i]) in Projected(depth, info, divisor, kps)
    {
      assert f(kps[i]) == Keep(depth, info, divisor, kps[i]);
    }
  }

  /** When every depth sample is finite, no keypoint is dropped. */
  lemma {:induction false} ProjectedKeepsAllOverFiniteDepth(depth: DepthImage, info: CameraInfo, divisor: Divisor, kps: seq<KeyPoint2D>)
    requires FitsImage(depth, info) && Calibrated(info)
    requires forall v, u :: 0 <= v < |depth.rows| && 0 <= u < depth.width ==> depth.rows[v][u].Fin?
    ensures |Projected(depth, info, divisor, kps)| == |kps|
    ensures Map(Projected(depth, info, divisor, kps), Tag3) == Map(kps, Tag2)
  {
    if kps != [] {
      var n := |kps| - 1;
      var init, k := kps[..n], kps[n];
      assert kps[..n] == init;
      ProjectedKeepsAllOverFiniteDepth(depth, info, divisor, init);
      ProjectKeypointFinite(depth, info, divisor, k);
      ProjectedSnoc(depth, info, divisor, kps, n);
      assert kps[..n + 1] == kps;
      var r0 := Projected(depth, info, divisor, init);
      assert Map(kps, Tag2) == Map(init, Tag2) + [Tag2(k)];
      assert Map(r0 + [Lifted(depth, info, divisor, k)], Tag3) == Map(r0, Tag3) + [Tag2(k)];
    }
  }

  /** An infinite depth off the principal column and row survives the NaN filter: the
      keypoint is kept with infinite coordinates. */
  lemma InfiniteDepthKept(depth: DepthImage, info: CameraInfo, divisor: Divisor, k: KeyPoint2D)
    requires FitsImage(depth, info) && Calibrated(info)
    requires SampleOf(depth, info, k) == PosInf
    requires PixelOf(k, info).1 as real != info.Px() && PixelOf(k, info).0 as real != info.Py()
    ensures !HasNaN(ProjectKeypoint(depth, info, divisor, k))
    ensures ProjectKeypoint(depth, info, divisor, k).z == PosInf
    ensures ProjectKeypoint(depth, info, divisor, k).x.IsInf() && ProjectKeypoint(depth, info, divisor, k).y.IsInf()
  {
    ProjectKeypointNaN(depth, info, divisor, k);
  }
}
