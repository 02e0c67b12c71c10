/** The torso anchor of convert_bb_to_3d (lines 228-289): the pixel whose depth is
    checked before a box is built.  The scan keeps, for each of the ids 5 and 6
    (shoulders) and 11 and 12 (hips), the last keypoint with that id; of each pair the
    strictly higher-scoring one wins, a tie going to 6 or 12.  With both pairs seen the
    anchor is the midpoint of the two winners, with one pair seen it is that pair's
    winner, and with neither it stays at the box centre. */
module TorsoAnchor {
  import opened Floats
  import opened Messages

  const LEFT_SHOULDER := 5
  const RIGHT_SHOULDER := 6
  const LEFT_HIP := 11
  const RIGHT_HIP := 12

  /** The last keypoint with the given id: the scan overwrites its slot on every occurrence. */
  function LastWithId(kps: seq<KeyPoint2D>, id: int): (r: Option<KeyPoint2D>)
    ensures r.None? <==> forall i :: 0 <= i < |kps| ==> kps[i].id != id
    ensures r.Some? ==> exists i ::
      && 0 <= i < |kps| && kps[i] == r.value && r.value.id == id
      && forall j :: i < j < |kps| ==> kps[j].id != id
  {
    if kps == [] then None
    else if kps[|kps| - 1].id == id then Some(kps[|kps| - 1])
    else LastWithId(kps[..|kps| - 1], id)
  }

  /** What the slot kp<id> holds after the scan: the last keypoint with that id, or the
      default KeyPoint2D() (id 0, score 0, at (0, 0)) when there is none. */
  function Slot(kps: seq<KeyPoint2D>, id: int): KeyPoint2D {
    match LastWithId(kps, id)
    case Some(k) => k
    case None => DEFAULT_KEYPOINT_2D
  }

  predicate HasId(kps: seq<KeyPoint2D>, id: int) {
    exists i :: 0 <= i < |kps| && kps[i].id == id
  }

  /** Appending a keypoint fills its own id's slot and leaves every other slot alone. */
  lemma SlotSnoc(kps: seq<KeyPoint2D>, k: KeyPoint2D, id: int)
    ensures Slot(kps + [k], id) == if k.id == id then k else Slot(kps, id)
    ensures HasId(kps + [k], id) <==> HasId(kps, id) || k.id == id
  {
    assert (kps + [k])[..|kps|] == kps;
    if HasId(kps, id) {
      var i :| 0 <= i < |kps| && kps[i].id == id;
      assert (kps + [k])[i].id == id;
    }
    if HasId(kps + [k], id) && k.id != id {
      var i :| 0 <= i < |kps + [k]| && (kps + [k])[i].id == id;
      assert kps[i].id == id;
    }
  }

  /** a if a.score > b.score else b: the strictly higher score wins, b wins a tie. */
  function Better(a: KeyPoint2D, b: KeyPoint2D): (r: KeyPoint2D)
    ensures r == a || r == b
    ensures r.score >= a.score && r.score >= b.score
    ensures a.score == b.score ==> r == b
  {
    if a.score > b.score then a else b
  }

  predicate UpDetected(kps: seq<KeyPoint2D>) {
    HasId(kps, LEFT_SHOULDER) || HasId(kps, RIGHT_SHOULDER)
  }

  predicate DownDetected(kps: seq<KeyPoint2D>) {
    HasId(kps, LEFT_HIP) || HasId(kps, RIGHT_HIP)
  }

  function Upper(kps: seq<KeyPoint2D>): KeyPoint2D {
    Better(Slot(kps, LEFT_SHOULDER), Slot(kps, RIGHT_SHOULDER))
  }

  function Lower(kps: seq<KeyPoint2D>): KeyPoint2D {
    Better(Slot(kps, LEFT_HIP), Slot(kps, RIGHT_HIP))
  }

  /** The anchor before truncation. */
  function AnchorPoint(kps: seq<KeyPoint2D>, boxCenter: Point2D): Point2D {
    if UpDetected(kps) && DownDetected(kps) then
      Point2D((Upper(kps).point.x + Lower(kps).point.x) / 2.0,
              (Upper(kps).point.y + Lower(kps).point.y) / 2.0)
    else if UpDetected(kps) then Upper(kps).point
    else if DownDetected(kps) then Lower(kps).point
    else boxCenter
  }

  /** The anchor pixel after int() (lines 292-293), for a box centred at (cx, cy). */
  function Anchor(kps: seq<KeyPoint2D>, cx: int, cy: int): (int, int) {
    var p := AnchorPoint(kps, Point2D(cx as real, cy as real));
    (Trunc(p.x), Trunc(p.y))
  }

  /** Without torso keypoints the anchor is the truncated box centre. */
  lemma AnchorWithoutTorso(kps: seq<KeyPoint2D>, cx: int, cy: int)
    requires forall i :: 0 <= i < |kps| ==> kps[i].id !in {LEFT_SHOULDER, RIGHT_SHOULDER, LEFT_HIP, RIGHT_HIP}
    ensures Anchor(kps, cx, cy) == (cx, cy)
  {
    TruncOfInt(cx);
    TruncOfInt(cy);
  }

  /** Shoulders only, 5 with score 0.9 at (50, 60) and 6 with score 0.3 at (52, 61):
      only the upper side is present, so the anchor is keypoint 5 and not a midpoint. */
  lemma AnchorShouldersOnly(cx: int, cy: int)
    ensures Anchor([KeyPoint2D(5, Point2D(50.0, 60.0), 0.9), KeyPoint2D(6, Point2D(52.0, 61.0), 0.3)], cx, cy)
      == (50, 60)
  {
    var kps := [KeyPoint2D(5, Point2D(50.0, 60.0), 0.9), KeyPoint2D(6, Point2D(52.0, 61.0), 0.3)];
    assert kps[0].id == 5;
    assert !DownDetected(kps);
    assert Slot(kps, 5) == kps[0] by {
      assert kps[..1] == [kps[0]];
    }
    assert Slot(kps, 6) == kps[1];
  }

  /** Both sides present: the midpoint of the better shoulder (5, score 0.9, at (50, 60))
      and the better hip (12, score 0.8, at (44, 104)). */
  lemma AnchorBothSides(cx: int, cy: int)
    ensures Anchor([KeyPoint2D(5, Point2D(50.0, 60.0), 0.9), KeyPoint2D(6, Point2D(52.0, 61.0), 0.3),
                    KeyPoint2D(11, Point2D(40.0, 100.0), 0.2), KeyPoint2D(12, Point2D(44.0, 104.0), 0.8)], cx, cy)
      == (47, 82)
  {
    var kps := [KeyPoint2D(5, Point2D(50.0, 60.0), 0.9), KeyPoint2D(6, Point2D(52.0, 61.0), 0.3),
                KeyPoint2D(11, Point2D(40.0, 100.0), 0.2), KeyPoint2D(12, Point2D(44.0, 104.0), 0.8)];
    assert kps[0].id == 5 && kps[2].id == 11;
    assert Slot(kps, 12) == kps[3];
    assert Slot(kps, 11) == kps[2] by {
      assert kps[..3][..2] == kps[..2];
    }
    assert Slot(kps, 6) == kps[1] by {
      assert kps[..3][..2] == kps[..2];
    }
    assert Slot(kps, 5) == kps[0] by {
      assert kps[..3][..2] == kps[..2];
      assert kps[..2][..1] == [kps[0]];
    }
  }

  /** A tie between the two shoulders goes to 6; and when 6 is absent its slot holds the
      default keypoint with score 0, so a lone shoulder 5 with score at most 0 loses to
      it and the anchor becomes (0, 0). */
  lemma AnchorTiesGoToSecond(kps: seq<KeyPoint2D>, cx: int, cy: int)
    requires UpDetected(kps) && !DownDetected(kps)
    requires Slot(kps, LEFT_SHOULDER).score <= Slot(kps, RIGHT_SHOULDER).score
    ensures Anchor(kps, cx, cy) == (Trunc(Slot(kps, RIGHT_SHOULDER).point.x), Trunc(Slot(kps, RIGHT_SHOULDER).point.y))
    ensures !HasId(kps, RIGHT_SHOULDER) ==> Anchor(kps, cx, cy) == (0, 0)
  {
  }

  /** A repeated id keeps only its last occurrence: whatever precedes a keypoint, it is
      the one its slot holds once nothing with the same id follows it. */
  lemma LastOccurrenceWins(before: seq<KeyPoint2D>, k: KeyPoint2D, after: seq<KeyPoint2D>)
    requires forall j :: 0 <= j < |after| ==> after[j].id != k.id
    ensures Slot(before + [k] + after, k.id) == k
  {
    var kps := before + [k] + after;
    assert kps[|before|] == k;
    var r := LastWithId(kps, k.id);
    var i :| 0 <= i < |kps| && kps[i] == r.value && r.value.id == k.id
      && forall j :: i < j < |kps| ==> kps[j].id != k.id;
  }

  /** Lines 228-289 as statements: the scan overwrites the four slots and sets the two
      flags, then the three anchor cases and the repeated block of lines 274-288 move the
      centre (centerX, centerY) of the box.  The result is the anchor before int(). */
  method ScanAnchor(kps: seq<KeyPoint2D>, centerX: int, centerY: int) returns (cx: real, cy: real)
    ensures Point2D(cx, cy) == AnchorPoint(kps, Point2D(centerX as real, centerY as real))
  {
    var upDetected, downDetected := false, false;
    var kp5, kp6, kp11, kp12 := DEFAULT_KEYPOINT_2D, DEFAULT_KEYPOINT_2D, DEFAULT_KEYPOINT_2D, DEFAULT_KEYPOINT_2D;
    var i := 0;
    while i < |kps|
      invariant 0 <= i <= |kps|
      invariant kp5 == Slot(kps[..i], LEFT_SHOULDER) && kp6 == Slot(kps[..i], RIGHT_SHOULDER)
      invariant kp11 == Slot(kps[..i], LEFT_HIP) && kp12 == Slot(kps[..i], RIGHT_HIP)
      invariant upDetected == UpDetected(kps[..i]) && downDetected == DownDetected(kps[..i])
    {
      var kp := kps[i];
      assert kps[..i + 1] == kps[..i] + [kp];
      SlotSnoc(kps[..i], kp, LEFT_SHOULDER);
      SlotSnoc(kps[..i], kp, RIGHT_SHOULDER);
      SlotSnoc(kps[..i], kp, LEFT_HIP);
      SlotSnoc(kps[..i], kp, RIGHT_HIP);
      if kp.id == LEFT_SHOULDER {
        kp5 := kp;
        upDetected := true;
      } else if kp.id == RIGHT_SHOULDER {
        kp6 := kp;
        upDetected := true;
      } else if kp.id == LEFT_HIP {
        kp11 := kp;
        downDetected := true;
      } else if kp.id == RIGHT_HIP {
        kp12 := kp;
        downDetected := true;
      }
      i := i + 1;
    }
    assert kps[..|kps|] == kps;

    cx, cy := centerX as real, centerY as real;
    var up, down;
    if upDetected && downDetected {
      up := if kp5.score > kp6.score then kp5 else kp6;
      down := if kp11.score > kp12.score then kp11 else kp12;
      cx := (up.point.x + down.point.x) / 2.0;
      cy := (up.point.y + down.point.y) / 2.0;
    }
    if upDetected && !downDetected {
      up := if kp5.score > kp6.score then kp5 else kp6;
      cx := up.point.x;
      cy := up.point.y;
    }
    if downDetected && !upDetected {
      down := if kp11.score > kp12.score then kp11 else kp12;
      cx := down.point.x;
      cy := down.point.y;
    }
    if upDetected && downDetected {
      if kp5.score > kp6.score {
        up := kp5;
      } else {
        up := kp6;
      }
      if kp11.score > kp12.score {
        down := kp11;
      } else {
        down := kp12;
      }
      cx := (up.point.x + down.point.x) / 2.0;
      cy := (up.point.y + down.point.y) / 2.0;
    }

  }
}
