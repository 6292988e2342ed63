/**
  The deterministic parts of `FaceSystem`: clamping the detector's bounding box
  to the frame, cutting the face crop out of the frame, and shaping the result
  of a recognition attempt. The detector and the recognizer are inputs.
 */
module FaceCore {
  import opened Wrappers

  /** A grayscale image (or frame) as rows of pixel intensities. */
  type Image = seq<seq<int>>

  /** A rectangle in pixel coordinates: top-left corner, width and height. */
  datatype Rect = Rect(x: int, y: int, w: int, h: int)

  /** A face crop together with the rectangle it was cut from. */
  datatype FaceCrop = FaceCrop(image: Image, rect: Rect)

  /** What the recognizer's `predict` gives: an identity label and a distance, or an exception. */
  datatype Prediction = Predicted(id: int, distance: real) | PredictFailed

  /** The triple `(user_id, confidence, rect)` returned by `recognize_face`. */
  datatype Recognition = Recognition(userId: Option<int>, conf: real, rect: Option<Rect>)

  function Height(frame: Image): nat { |frame| }

  function Width(frame: Image): nat { if |frame| == 0 then 0 else |frame[0]| }

  /** Every row has `cols` pixels and there are `rows` rows. */
  predicate IsGrid(img: Image, rows: int, cols: int) {
    |img| == rows && forall i :: 0 <= i < |img| ==> |img[i]| == cols
  }

  /** A frame is rectangular, as an image array always is. */
  predicate WellFormed(frame: Image) {
    IsGrid(frame, Height(frame), Width(frame))
  }

  /** The rectangle lies inside an `iw` by `ih` frame. */
  predicate Inside(r: Rect, iw: int, ih: int) {
    0 <= r.x && 0 <= r.y && r.x + r.w <= iw && r.y + r.h <= ih
  }

  function Max(a: int, b: int): int { if a < b then b else a }

  function Min(a: int, b: int): int { if a < b then a else b }

  /**
    The bounds check of `get_face_crop`: the corner is moved to be non-negative
    and the width and height are cut so that the rectangle ends inside the frame.
   */
  function ClampBox(box: Rect, iw: nat, ih: nat): (r: Rect)
    ensures Inside(r, iw, ih)
    ensures r.w <= box.w && r.h <= box.h
    ensures box.x >= 0 ==> r.x == box.x
    ensures box.y >= 0 ==> r.y == box.y
    ensures box.x < 0 ==> r.x == 0
    ensures box.y < 0 ==> r.y == 0
    ensures r.x + r.w == iw || r.w == box.w
    ensures r.y + r.h == ih || r.h == box.h
    ensures Inside(box, iw, ih) ==> r == box
  {
    var x := Max(0, box.x);
    var y := Max(0, box.y);
    Rect(x, y, Min(iw - x, box.w), Min(ih - y, box.h))
  }

  /** The slice `frame[y:y+h, x:x+w]` of a rectangle lying inside the frame. */
  function Crop(frame: Image, r: Rect): (img: Image)
    requires WellFormed(frame)
    requires Inside(r, Width(frame), Height(frame)) && r.w >= 0 && r.h >= 0
    ensures IsGrid(img, r.h, r.w)
    ensures forall i, j :: 0 <= i < r.h && 0 <= j < r.w ==> img[i][j] == frame[r.y + i][r.x + j]
  {
    seq(r.h, i requires 0 <= i < r.h => frame[r.y + i][r.x .. r.x + r.w])
  }

  /**
    `get_face_crop` once the detector has given its box (already scaled to
    pixels) or nothing: the crop is returned only when the clamped box is not
    empty, and it is then exactly the pixels of the frame under that box.
   */
  function GetFaceCrop(frame: Image, detection: Option<Rect>): (r: Option<FaceCrop>)
    requires WellFormed(frame)
    ensures detection.None? ==> r.None?
    ensures r.Some? ==>
      var c := r.value;
      c.rect.w > 0 && c.rect.h > 0 && Inside(c.rect, Width(frame), Height(frame)) &&
      IsGrid(c.image, c.rect.h, c.rect.w) &&
      forall i, j :: 0 <= i < c.rect.h && 0 <= j < c.rect.w ==> c.image[i][j] == frame[c.rect.y + i][c.rect.x + j]
    ensures detection.Some? && r.Some? ==> r.value.rect == ClampBox(detection.value, Width(frame), Height(frame))
    ensures detection.Some? ==>
      (r.Some? <==> ClampBox(detection.value, Width(frame), Height(frame)).w > 0 &&
                    ClampBox(detection.value, Width(frame), Height(frame)).h > 0)
    ensures detection.Some? && Inside(detection.value, Width(frame), Height(frame)) &&
            detection.value.w > 0 && detection.value.h > 0 ==>
      r.Some? && r.value.rect == detection.value
  {
    match detection
    case None => None
    case Some(box) =>
      var rect := ClampBox(box, Width(frame), Height(frame));
      if rect.w > 0 && rect.h > 0 then Some(FaceCrop(Crop(frame, rect), rect)) else None
  }

  /**
    `recognize_face`: no crop gives `(None, 0, None)`; a crop whose prediction
    fails gives `(None, 100, rect)`; otherwise the recognizer's label and
    distance together with the rectangle.
   */
  function RecognizeFace(frame: Image, detection: Option<Rect>, predict: Image -> Prediction): (r: Recognition)
    requires WellFormed(frame)
    ensures r.rect.None? <==> GetFaceCrop(frame, detection).None?
    ensures r.rect.None? ==> r.userId.None? && r.conf == 0.0
    ensures r.rect.Some? ==>
      var c := GetFaceCrop(frame, detection).value;
      r.rect == Some(c.rect) &&
      match predict(c.image)
      case PredictFailed => r.userId.None? && r.conf == 100.0
      case Predicted(id, distance) => r.userId == Some(id) && r.conf == distance
  {
    match GetFaceCrop(frame, detection)
    case None => Recognition(None, 0.0, None)
    case Some(c) =>
      match predict(c.image)
      case PredictFailed => Recognition(None, 100.0, Some(c.rect))
      case Predicted(id, distance) => Recognition(Some(id), distance, Some(c.rect))
  }
}
