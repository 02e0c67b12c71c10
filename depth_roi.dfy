/** The depth region of interest of a 2D box (convert_bb_to_3d, lines 210-222):
    the box is truncated to integer pixels, clipped to the image, and the depth
    image is sliced over the resulting half-open row and column ranges. */
module DepthRoi {
  import opened Floats
  import opened Messages

  function Max(a: int, b: int): int { if a < b then b else a }
  function Min(a: int, b: int): int { if a < b then a else b }

  /** How Python normalises one bound of a step-1 slice over `len` items:
      a negative bound counts from the end; the bound is then clamped to [0, len]. */
  function PyBound(i: int, len: nat): nat {
    if i < 0 then (if i + len < 0 then 0 else i + len)
    else if i > len then len
    else i
  }

  /** The index range [lo, hi) that Python's a[start:stop] selects from `len` items. */
  function PySlice(start: int, stop: int, len: nat): (r: (nat, nat))
    ensures r.0 <= r.1 <= len
    ensures 0 <= start <= len && 0 <= stop <= len ==> r == (start, Max(start, stop))
    ensures 0 <= start && stop < 0 && start < stop + len ==> r == (start, stop + len)
  {
    var lo := PyBound(start, len);
    var hi := PyBound(stop, len);
    (lo, if hi < lo then lo else hi)
  }

  function Clip(i: int, len: nat): nat {
    if i < 0 then 0 else if i > len then len else i
  }

  /** The slice of lines 216-221 exactly as written: the window
      [max(c - s//2, 0), min(c + s//2, len - 1)) handed to Python's slicing. */
  function CropRangeAsWritten(c: int, s: int, len: nat): (r: (nat, nat))
    ensures r.0 <= r.1 <= len
  {
    PySlice(Max(c - s / 2, 0), Min(c + s / 2, len - 1), len)
  }

  /** The range that lines 216-221 evidently intend, and the one this model crops with:
      the half-open window [max(c - s//2, 0), min(c + s//2, len - 1)), clipped to the
      image instead of wrapping round when its upper end is negative.  Either the crop
      is empty or it is exactly that window; a size below 2 always gives an empty crop. */
  function CropRange(c: int, s: int, len: nat): (r: (nat, nat))
    ensures r.0 <= r.1 <= len
    ensures r.0 == r.1 || (r.0 == Max(c - s / 2, 0) && r.1 == Min(c + s / 2, len - 1))
    ensures s < 2 ==> r.0 == r.1
  {
    var lo := Clip(Max(c - s / 2, 0), len);
    var hi := Clip(Min(c + s / 2, len - 1), len);
    (lo, if hi < lo then lo else hi)
  }

  /** The crop holds exactly the indices of the box window [c - s//2, c + s//2) that lie in
      [0, len - 1): the last row or column of the image is never part of a crop. */
  lemma CropRangeMember(c: int, s: int, len: nat, k: int)
    ensures CropRange(c, s, len).0 <= k < CropRange(c, s, len).1
        <==> c - s / 2 <= k < c + s / 2 && 0 <= k < len - 1
  {
  }

  /** Where the window's upper end is not negative, Python's slice and the clipped
      range agree. */
  lemma CropRangeAgreesWithSlice(c: int, s: int, len: nat)
    requires Min(c + s / 2, len - 1) >= 0
    ensures CropRangeAsWritten(c, s, len) == CropRange(c, s, len)
  {
  }

  /** A box centred at column -5 with width 2 on a 10-pixel-wide image lies wholly left
      of the image, yet the slice as written is [0:-4], which takes columns 0..5. */
  lemma CropWrapsRoundAsWritten()
    ensures CropRangeAsWritten(-5, 2, 10) == (0, 6)
    ensures CropRange(-5, 2, 10) == (0, 0)
  {
  }

  /** The same wrap round defeats the small-box rule of the clipped crop: as written, a box
      1 pixel wide centred at column -3 on a 10-pixel axis crops columns 0..6, and a box of
      size -20 centred at 5 on a 30-pixel axis crops 15..24. */
  lemma CropOfSmallBoxAsWritten()
    ensures CropRangeAsWritten(-3, 1, 10) == (0, 7)
    ensures CropRange(-3, 1, 10) == (0, 0)
    ensures CropRangeAsWritten(5, -20, 30) == (15, 25)
    ensures CropRange(5, -20, 30).0 == CropRange(5, -20, 30).1
  {
  }

  /** depth_image[v0:v1, u0:u1]: a (v1 - v0) x (u1 - u0) grid whose sample (i, j) is the
      pixel at row v0 + i and column u0 + j. */
  function Crop(depth: DepthImage, rows: (nat, nat), cols: (nat, nat)): (roi: seq<seq<Float>>)
    requires rows.0 <= rows.1 <= |depth.rows| && cols.0 <= cols.1 <= depth.width
    ensures |roi| == rows.1 - rows.0
    ensures forall i :: 0 <= i < |roi| ==> |roi[i]| == cols.1 - cols.0
    ensures forall i, j :: 0 <= i < |roi| && 0 <= j < |roi[i]| ==> roi[i][j] == depth.rows[rows.0 + i][cols.0 + j]
  {
    seq(rows.1 - rows.0, i requires 0 <= i < rows.1 - rows.0 => depth.rows[rows.0 + i][cols.0..cols.1])
  }

  /** The samples of a 2D array in row-major order (every numpy reduction used here
      looks only at which samples there are). */
  function Flatten(rows: seq<seq<Float>>): seq<Float> {
    if rows == [] then [] else rows[0] + Flatten(rows[1..])
  }

  lemma {:induction false} FlattenMember(rows: seq<seq<Float>>, x: Float)
    ensures x in Flatten(rows) <==> exists i :: 0 <= i < |rows| && x in rows[i]
  {
    if rows != [] {
      FlattenMember(rows[1..], x);
      if x in Flatten(rows[1..]) {
        var i :| 0 <= i < |rows[1..]| && x in rows[1..][i];
        assert x in rows[i + 1];
      }
      if exists i :: 0 <= i < |rows| && x in rows[i] {
        var i :| 0 <= i < |rows| && x in rows[i];
        if i > 0 {
          assert x in rows[1..][i - 1];
        }
      }
    }
  }

  lemma {:induction false} FlattenOfEmptyRows(rows: seq<seq<Float>>)
    requires forall i :: 0 <= i < |rows| ==> rows[i] == []
    ensures Flatten(rows) == []
  {
    if rows != [] {
      FlattenOfEmptyRows(rows[1..]);
    }
  }

  /** One raw sample converted to metres (line 222). */
  function ToMetres(s: Float, divisor: Divisor): Float {
    Div(s, divisor as real)
  }

  function ColRange(depth: DepthImage, bbox: BoundingBox2D): (nat, nat) {
    CropRange(Trunc(bbox.center.x), Trunc(bbox.size.x), depth.width)
  }

  function RowRange(depth: DepthImage, bbox: BoundingBox2D): (nat, nat) {
    CropRange(Trunc(bbox.center.y), Trunc(bbox.size.y), |depth.rows|)
  }

  /** The region of interest of a box, in metres, flattened. */
  function Roi(depth: DepthImage, bbox: BoundingBox2D, divisor: Divisor): seq<Float> {
    var flat := Flatten(Crop(depth, RowRange(depth, bbox), ColRange(depth, bbox)));
    seq(|flat|, i requires 0 <= i < |flat| => ToMetres(flat[i], divisor))
  }

  /** Every ROI sample is an in-bounds pixel of the clipped window, converted to metres. */
  lemma RoiSample(depth: DepthImage, bbox: BoundingBox2D, divisor: Divisor, x: Float)
    requires x in Roi(depth, bbox, divisor)
    ensures exists v, u ::
      RowRange(depth, bbox).0 <= v < RowRange(depth, bbox).1 &&
      ColRange(depth, bbox).0 <= u < ColRange(depth, bbox).1 &&
      x == ToMetres(depth.rows[v][u], divisor)
  {
    var rows, cols := RowRange(depth, bbox), ColRange(depth, bbox);
    var flat := Flatten(Crop(depth, rows, cols));
    var roi := Roi(depth, bbox, divisor);
    var k :| 0 <= k < |roi| && roi[k] == x;
    CropSample(depth, rows, cols, flat[k]);
    var v, u :| rows.0 <= v < rows.1 && cols.0 <= u < cols.1 && flat[k] == depth.rows[v][u];
    assert x == ToMetres(depth.rows[v][u], divisor);
  }

  /** Every sample of a crop is a pixel inside both ranges. */
  lemma CropSample(depth: DepthImage, rows: (nat, nat), cols: (nat, nat), x: Float)
    requires rows.0 <= rows.1 <= |depth.rows| && cols.0 <= cols.1 <= depth.width
    requires x in Flatten(Crop(depth, rows, cols))
    ensures exists v, u :: rows.0 <= v < rows.1 && cols.0 <= u < cols.1 && x == depth.rows[v][u]
  {
    var crop := Crop(depth, rows, cols);
    FlattenMember(crop, x);
    var i :| 0 <= i < |crop| && x in crop[i];
    var j :| 0 <= j < |crop[i]| && crop[i][j] == x;
    assert crop[i][j] == depth.rows[rows.0 + i][cols.0 + j];
  }

  /** A box less than 2 pixels wide or high has an empty ROI. */
  lemma RoiOfSmallBox(depth: DepthImage, bbox: BoundingBox2D, divisor: Divisor)
    requires Trunc(bbox.size.x) < 2 || Trunc(bbox.size.y) < 2
    ensures Roi(depth, bbox, divisor) == []
  {
    var rows, cols := RowRange(depth, bbox), ColRange(depth, bbox);
    FlattenOfEmptyRows(Crop(depth, rows, cols));
  }

  /** On an image whose samples all equal Fin(c), the ROI holds only c / divisor, and it
      is non-empty exactly when both clipped ranges are. */
  lemma RoiOfUniformImage(depth: DepthImage, bbox: BoundingBox2D, divisor: Divisor, c: real)
    requires forall v, u :: 0 <= v < |depth.rows| && 0 <= u < depth.width ==> depth.rows[v][u] == Fin(c)
    ensures forall x :: x in Roi(depth, bbox, divisor) ==> x == Fin(c / divisor as real)
    ensures Roi(depth, bbox, divisor) != [] <==>
      RowRange(depth, bbox).0 < RowRange(depth, bbox).1 && ColRange(depth, bbox).0 < ColRange(depth, bbox).1
  {
    var rows, cols := RowRange(depth, bbox), ColRange(depth, bbox);
    var crop := Crop(depth, rows, cols);
    forall x | x in Roi(depth, bbox, divisor)
      ensures x == Fin(c / divisor as real)
    {
      RoiSample(depth, bbox, divisor, x);
    }
    if rows.0 < rows.1 && cols.0 < cols.1 {
      assert crop[0] == depth.rows[rows.0][cols.0..cols.1];
      assert |Flatten(crop)| >= |crop[0]| > 0;
    } else {
      FlattenOfEmptyRows(crop);
    }
  }
}
