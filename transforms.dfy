/** The rigid transform into the target frame (qv_mult, transform_3d_box and
    transform_3d_keypoints, lines 405-467).  A vector v is rotated by the quaternion
    q = (w, u) in the Rodrigues form v + 2 (w (u x v) + u x (u x v)); the quaternion
    is used as the lookup returns it, without normalisation. */
module Transforms {
  import opened Floats
  import opened Messages

  function Plus(a: Vec3, b: Vec3): Vec3 {
    Vec3(a.x + b.x, a.y + b.y, a.z + b.z)
  }

  function Scale(c: real, a: Vec3): Vec3 {
    Vec3(c * a.x, c * a.y, c * a.z)
  }

  /** np.cross of two 3-vectors. */
  function Cross(a: Vec3, b: Vec3): Vec3 {
    Vec3(a.y * b.z - a.z * b.y, a.z * b.x - a.x * b.z, a.x * b.y - a.y * b.x)
  }

  function AbsVec(a: Vec3): Vec3 {
    Vec3(Abs(a.x), Abs(a.y), Abs(a.z))
  }

  const IDENTITY := Quaternion(1.0, 0.0, 0.0, 0.0)

  /** qv_mult over exact reals. */
  function Rotate(q: Quaternion, v: Vec3): Vec3 {
    var u := Vec3(q.x, q.y, q.z);
    var uv := Cross(u, v);
    var uuv := Cross(u, uv);
    Plus(v, Scale(2.0, Plus(Scale(q.w, uv), uuv)))
  }

  /** The identity quaternion (1, 0, 0, 0) leaves every vector where it is. */
  lemma RotateIdentity(v: Vec3)
    ensures Rotate(IDENTITY, v) == v
  {
    var zero := Vec3(0.0, 0.0, 0.0);
    var q := Quaternion(1.0, 0.0, 0.0, 0.0);
    assert q == IDENTITY;
    assert Vec3(q.x, q.y, q.z) == zero;
    assert Cross(zero, v) == zero;
    assert Cross(zero, zero) == zero;
    assert Scale(1.0, zero) == zero;
    assert Plus(zero, zero) == zero;
    assert Scale(2.0, zero) == zero;
    assert Plus(v, zero) == v;
    assert Rotate(q, v) == Plus(v, Scale(2.0, Plus(Scale(1.0, zero), zero)));
  }

  /** A half turn about z, q = (0, 0, 0, 1), maps (x, y, z) to (-x, -y, z). */
  lemma RotateHalfTurnAboutZ(v: Vec3)
    ensures Rotate(Quaternion(0.0, 0.0, 0.0, 1.0), v) == Vec3(-v.x, -v.y, v.z)
  {
  }

  /** transform_3d_box: rotate the centre and add the translation; rotate the size and
      take the absolute value of each component, so no size component is negative. */
  function TransformBox(b: BoundingBox3D, t: RigidTransform): (r: BoundingBox3D)
    ensures 0.0 <= r.size.x && 0.0 <= r.size.y && 0.0 <= r.size.z
    ensures r.frameId == b.frameId
  {
    b.(center := Plus(Rotate(t.rotation, b.center), t.translation),
       size := AbsVec(Rotate(t.rotation, b.size)))
  }

  /** transform_3d_box as statements: overwrite the centre with the rotated and translated
      centre, then the size with the absolute values of the rotated size. */
  method Transform3dBox(bbox: BoundingBox3D, t: RigidTransform) returns (r: BoundingBox3D)
    ensures r == TransformBox(bbox, t)
  {
    r := bbox;
    var position := Plus(Rotate(t.rotation, r.center), t.translation);
    r := r.(center := r.center.(x := position.x));
    r := r.(center := r.center.(y := position.y));
    r := r.(center := r.center.(z := position.z));
    var size := Rotate(t.rotation, r.size);
    r := r.(size := r.size.(x := Abs(size.x)));
    r := r.(size := r.size.(y := Abs(size.y)));
    r := r.(size := r.size.(z := Abs(size.z)));
  }

  /** The translation moves the centre and nothing else: the centre is the rotated centre
      plus the translation, and the size does not depend on the translation. */
  lemma TransformBoxTranslation(b: BoundingBox3D, q: Quaternion, translation: Vec3, other: Vec3)
    ensures TransformBox(b, RigidTransform(translation, q)).center
         == Plus(TransformBox(b, RigidTransform(Vec3(0.0, 0.0, 0.0), q)).center, translation)
    ensures TransformBox(b, RigidTransform(translation, q)).size
         == TransformBox(b, RigidTransform(other, q)).size
  {
  }

  /** The identity transform leaves a box with a non-negative size unchanged. */
  lemma TransformBoxIdentity(b: BoundingBox3D, t: RigidTransform)
    requires t.translation == Vec3(0.0, 0.0, 0.0) && t.rotation == IDENTITY
    requires 0.0 <= b.size.x && 0.0 <= b.size.y && 0.0 <= b.size.z
    ensures TransformBox(b, t) == b
  {
    AbsVecOfNonNegative(b.size);
    RotateIdentity(b.center);
    RotateIdentity(b.size);
    assert Plus(b.center, t.translation) == b.center;
  }

  lemma AbsVecOfNonNegative(a: Vec3)
    requires 0.0 <= a.x && 0.0 <= a.y && 0.0 <= a.z
    ensures AbsVec(a) == a
  {
  }

  /** Float64 3-vectors, with NaN and infinities propagated as numpy does. */
  function Lift(v: Vec3): Point3 {
    Point3(Fin(v.x), Fin(v.y), Fin(v.z))
  }

  predicate IsFinitePoint(p: Point3) {
    p.x.Fin? && p.y.Fin? && p.z.Fin?
  }

  function PlusF(a: Point3, b: Point3): Point3 {
    Point3(Add(a.x, b.x), Add(a.y, b.y), Add(a.z, b.z))
  }

  function ScaleF(c: Float, a: Point3): Point3 {
    Point3(Mul(c, a.x), Mul(c, a.y), Mul(c, a.z))
  }

  function CrossF(a: Point3, b: Point3): Point3 {
    Point3(Sub(Mul(a.y, b.z), Mul(a.z, b.y)),
           Sub(Mul(a.z, b.x), Mul(a.x, b.z)),
           Sub(Mul(a.x, b.y), Mul(a.y, b.x)))
  }

  /** qv_mult on float64 vectors (line 467: v + 2 * (uv * q[0] + uuv)). */
  function QvMult(q: Quaternion, v: Point3): Point3 {
    var u := Point3(Fin(q.x), Fin(q.y), Fin(q.z));
    var uv := CrossF(u, v);
    var uuv := CrossF(u, uv);
    PlusF(v, ScaleF(Fin(2.0), PlusF(ScaleF(Fin(q.w), uv), uuv)))
  }

  /** On finite vectors the float computation is the exact rotation. */
  lemma QvMultOfFinite(q: Quaternion, v: Vec3)
    ensures QvMult(q, Lift(v)) == Lift(Rotate(q, v))
  {
    var u := Vec3(q.x, q.y, q.z);
    assert Point3(Fin(q.x), Fin(q.y), Fin(q.z)) == Lift(u);
    var uv := Cross(u, v);
    var uuv := Cross(u, uv);
    CrossOfFinite(u, v);
    CrossOfFinite(u, uv);
    ScaleOfFinite(q.w, uv);
    var s := Plus(Scale(q.w, uv), uuv);
    PlusOfFinite(Scale(q.w, uv), uuv);
    ScaleOfFinite(2.0, s);
    PlusOfFinite(v, Scale(2.0, s));
  }

  lemma CrossOfFinite(a: Vec3, b: Vec3)
    ensures CrossF(Lift(a), Lift(b)) == Lift(Cross(a, b))
  {
    MulOfFinite(a.y, b.z); MulOfFinite(a.z, b.y); SubOfFinite(a.y * b.z, a.z * b.y);
    MulOfFinite(a.z, b.x); MulOfFinite(a.x, b.z); SubOfFinite(a.z * b.x, a.x * b.z);
    MulOfFinite(a.x, b.y); MulOfFinite(a.y, b.x); SubOfFinite(a.x * b.y, a.y * b.x);
    var c := CrossF(Lift(a), Lift(b));
    assert c.x == Fin(a.y * b.z - a.z * b.y);
    assert c.y == Fin(a.z * b.x - a.x * b.z);
    assert c.z == Fin(a.x * b.y - a.y * b.x);
  }

  lemma ScaleOfFinite(c: real, a: Vec3)
    ensures ScaleF(Fin(c), Lift(a)) == Lift(Scale(c, a))
  {
    MulOfFinite(c, a.x); MulOfFinite(c, a.y); MulOfFinite(c, a.z);
    var p := ScaleF(Fin(c), Lift(a));
    assert p.x == Fin(c * a.x) && p.y == Fin(c * a.y) && p.z == Fin(c * a.z);
  }

  lemma PlusOfFinite(a: Vec3, b: Vec3)
    ensures PlusF(Lift(a), Lift(b)) == Lift(Plus(a, b))
  {
  }

  /** An infinite or NaN component poisons every component, even under the identity
      rotation: 0 * inf is NaN inside the cross products. */
  lemma QvMultOfNonFinite(v: Point3)
    requires !IsFinitePoint(v)
    ensures QvMult(IDENTITY, v) == Point3(NaN, NaN, NaN)
  {
    var u := Point3(Fin(0.0), Fin(0.0), Fin(0.0));
    var uv := CrossF(u, v);
    CrossZeroOfNonFinite(v);
    CrossZeroOfPoisoned(uv);
    var nan := Point3(NaN, NaN, NaN);
    assert CrossF(u, uv) == nan;
    assert PlusF(ScaleF(Fin(1.0), uv), nan) == nan;
    assert ScaleF(Fin(2.0), nan) == nan;
    assert PlusF(v, nan) == nan;
  }

  /** u x v with u = 0 has a NaN in at least two components when v is not finite. */
  lemma CrossZeroOfNonFinite(v: Point3)
    requires !IsFinitePoint(v)
    ensures var c := CrossF(Point3(Fin(0.0), Fin(0.0), Fin(0.0)), v);
      (c.x.NaN? || c.y.NaN?) && (c.y.NaN? || c.z.NaN?) && (c.x.NaN? || c.z.NaN?)
  {
    ZeroTimes(v.x); ZeroTimes(v.y); ZeroTimes(v.z);
  }

  lemma CrossZeroOfPoisoned(p: Point3)
    requires (p.x.NaN? || p.y.NaN?) && (p.y.NaN? || p.z.NaN?) && (p.x.NaN? || p.z.NaN?)
    ensures CrossF(Point3(Fin(0.0), Fin(0.0), Fin(0.0)), p) == Point3(NaN, NaN, NaN)
  {
    ZeroTimes(p.x); ZeroTimes(p.y); ZeroTimes(p.z);
  }

  lemma ZeroTimes(a: Float)
    ensures Mul(Fin(0.0), a) == if a.Fin? then Fin(0.0) else NaN
  {
  }

  /** The body of the loop of transform_3d_keypoints: rotate, then translate, the point. */
  function TransformKeypoint(k: KeyPoint3D, t: RigidTransform): (r: KeyPoint3D)
    ensures r.id == k.id && r.score == k.score
  {
    k.(point := PlusF(QvMult(t.rotation, k.point), Lift(t.translation)))
  }

  function TransformedKeypoints(kps: seq<KeyPoint3D>, t: RigidTransform): (r: seq<KeyPoint3D>)
    ensures |r| == |kps|
    ensures forall i :: 0 <= i < |kps| ==> r[i].id == kps[i].id && r[i].score == kps[i].score
  {
    seq(|kps|, i requires 0 <= i < |kps| => TransformKeypoint(kps[i], t))
  }

  /** The identity transform leaves a finite keypoint unchanged and turns a keypoint with
      an infinite coordinate into one at (NaN, NaN, NaN). */
  lemma TransformKeypointIdentity(k: KeyPoint3D, t: RigidTransform)
    requires t.translation == Vec3(0.0, 0.0, 0.0) && t.rotation == IDENTITY
    ensures IsFinitePoint(k.point) ==> TransformKeypoint(k, t) == k
    ensures !IsFinitePoint(k.point) ==> TransformKeypoint(k, t).point == Point3(NaN, NaN, NaN)
  {
    if IsFinitePoint(k.point) {
      var v := Vec3(k.point.x.r, k.point.y.r, k.point.z.r);
      assert Lift(v) == k.point;
      QvMultOfFinite(IDENTITY, v);
      RotateIdentity(v);
      PlusOfFinite(v, t.translation);
      assert Plus(v, t.translation) == v;
    } else {
      QvMultOfNonFinite(k.point);
    }
  }

  /** transform_3d_keypoints: overwrites each keypoint's position, in order, keeping the
      array's length and every id and score. */
  method Transform3dKeypoints(keypoints: KeyPoint3DArray, t: RigidTransform) returns (r: KeyPoint3DArray)
    ensures r == keypoints.(data := TransformedKeypoints(keypoints.data, t))
  {
    var data := keypoints.data;
    var i := 0;
    while i < |data|
      invariant 0 <= i <= |data| == |keypoints.data|
      invariant data[..i] == TransformedKeypoints(keypoints.data, t)[..i]
      invariant data[i..] == keypoints.data[i..]
    {
      data := data[i := TransformKeypoint(data[i], t)];
      i := i + 1;
    }
    r := keypoints.(data := data);
  }
}
