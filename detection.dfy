/**
 * Detection records as `YOLOv12FaceDetector` and `YOLOv8FaceDetector` build
 * them. The two classes carry the same `detect_faces` and
 * `detect_faces_optimized` code, so one `FaceDetector` models both.
 *
 * The YOLO engine is opaque: it is a field of `Engine` and is only ever
 * applied, never looked into. So are `cv2.resize` and the floating-point
 * rescaling `int(v / scale)`.
 */
module Detection {
  import opened Wrappers

  /** A decoded image; `image.shape[:2]` is `(height, width)`. */
  datatype Frame = Frame(width: nat, height: nat, pixels: seq<int>)

  /** Box corners after their conversion to `int`. */
  datatype Corners = Corners(x1: int, y1: int, x2: int, y2: int)

  /**
   * One box as the engine reports it: corners that convert to `int`, or a box
   * whose conversion raises (a NaN or infinite coordinate).
   */
  datatype RawBox = Box(corners: Corners, confidence: real) | Unconvertible

  /** One call of the engine: it raises, or it yields results that hold boxes. */
  datatype Inference = Raised | Results(results: seq<seq<RawBox>>)

  /**
   * The foreign calls of the detector:
   * `infer(weights, image, conf)` is the YOLO model of `weights` applied to `image` at threshold `conf`;
   * `resize(image, maxWidth)` is `cv2.resize` to `maxWidth` columns (None when it raises);
   * `unscale(c, scale)` applies `int(v / scale)` to each corner.
   */
  datatype Engine = Engine(
    infer: (string, Frame, real) -> Inference,
    resize: (Frame, int) -> Option<Frame>,
    unscale: (Corners, real) -> Corners)

  /** The dictionary appended to `detections` for one box. */
  datatype Record = Record(
    x1: int, y1: int, x2: int, y2: int, confidence: real,
    w: int, h: int, cx: int, cy: int)

  /**
   * Width and height are the corner differences and the centre is the
   * midpoint rounded down, as Python's `//` rounds.
   */
  predicate Consistent(r: Record) {
    && r.w == r.x2 - r.x1
    && r.h == r.y2 - r.y1
    && 2 * r.cx <= r.x1 + r.x2 < 2 * r.cx + 2
    && 2 * r.cy <= r.y1 + r.y2 < 2 * r.cy + 2
  }

  /**
   * The record for integer corners `c`. Dafny's `/` with a positive divisor
   * rounds down, as Python's `//` does, also for negative sums.
   */
  function MakeRecord(c: Corners, confidence: real): (r: Record)
    ensures Consistent(r)
    ensures r.x1 == c.x1 && r.y1 == c.y1 && r.x2 == c.x2 && r.y2 == c.y2
    ensures r.confidence == confidence
  {
    Record(c.x1, c.y1, c.x2, c.y2, confidence,
           c.x2 - c.x1, c.y2 - c.y1, (c.x1 + c.x2) / 2, (c.y1 + c.y2) / 2)
  }

  /** The corners a box is recorded with: as returned, or scaled back by `1 / scale`. */
  function Adjust(engine: Engine, rescale: Option<real>, c: Corners): Corners {
    if rescale.Some? then engine.unscale(c, rescale.value) else c
  }

  /** All boxes in the order the nested loops visit them: result by result, box by box within each. */
  function Flatten(results: seq<seq<RawBox>>): seq<RawBox> {
    if results == [] then [] else results[0] + Flatten(results[1..])
  }

  predicate AllConvertible(boxes: seq<RawBox>) {
    forall i :: 0 <= i < |boxes| ==> boxes[i].Box?
  }

  /** Records of the boxes up to the first one whose conversion raises. */
  function Converted(boxes: seq<RawBox>, engine: Engine, rescale: Option<real>): (r: seq<Record>)
    ensures |r| <= |boxes|
  {
    if boxes == [] then []
    else match boxes[0]
      case Unconvertible => []
      case Box(c, conf) => [MakeRecord(Adjust(engine, rescale, c), conf)] + Converted(boxes[1..], engine, rescale)
  }

  /** What the `try` block leaves in `detections`. */
  function Collected(inference: Inference, engine: Engine, rescale: Option<real>): (r: seq<Record>)
    ensures inference.Raised? ==> r == []
    ensures inference.Results? ==> |r| <= |Flatten(inference.results)|
    ensures forall k :: 0 <= k < |r| ==> Consistent(r[k])
  {
    match inference
    case Raised => []
    case Results(rs) =>
      ConvertedIsPrefix(Flatten(rs), engine, rescale);
      Converted(Flatten(rs), engine, rescale)
  }

  /** `detect_faces`: inference on the image as it is, no rescaling. */
  function PlainRecords(weights: string, image: Frame, conf: real, engine: Engine): (r: seq<Record>)
    ensures engine.infer(weights, image, conf).Raised? ==> r == []
    ensures forall k :: 0 <= k < |r| ==> Consistent(r[k])
  {
    Collected(engine.infer(weights, image, conf), engine, None)
  }

  /**
   * The factor of the wide-image branch, `max_width / width`, or 1.0 when the
   * image is narrow enough. The division happens only for a positive width.
   */
  function Scale(width: nat, maxWidth: int): (scale: real)
    requires width > maxWidth ==> width > 0
    ensures width > maxWidth ==> scale * width as real == maxWidth as real
    ensures width <= maxWidth ==> scale == 1.0
  {
    if width > maxWidth then maxWidth as real / width as real else 1.0
  }

  /**
   * `detect_faces_optimized`: an image wider than `maxWidth` is resized first
   * and its boxes are scaled back when `scale < 1.0`. A zero-width image in
   * the wide branch divides by zero, which the `except` clause swallows, as
   * it swallows a failing resize. So does a `maxWidth` of zero: the factor is
   * then 0.0 and scaling the first box back divides by it, before any record
   * is appended.
   */
  function OptimizedRecords(weights: string, image: Frame, conf: real, maxWidth: int, engine: Engine): (r: seq<Record>)
    ensures image.width > maxWidth && engine.resize(image, maxWidth).None? ==> r == []
    ensures forall k :: 0 <= k < |r| ==> Consistent(r[k])
  {
    if image.width > maxWidth && (image.width == 0 || maxWidth == 0) then []
    else
      var scale := Scale(image.width, maxWidth);
      var input := if image.width > maxWidth then engine.resize(image, maxWidth) else Some(image);
      match input
      case None => []
      case Some(inferenceImage) =>
        Collected(engine.infer(weights, inferenceImage, conf), engine, if scale < 1.0 then Some(scale) else None)
  }

  /** The coordinates are rescaled exactly when the image is wider than `maxWidth`. */
  lemma RescaledIffWider(width: nat, maxWidth: int)
    requires width > maxWidth ==> width > 0
    ensures Scale(width, maxWidth) < 1.0 <==> width > maxWidth
  {
    if width > maxWidth {
      var q := maxWidth as real / width as real;
      assert q * width as real == maxWidth as real;
    }
  }

  /** How many boxes come before the first one whose conversion raises. */
  function ConvertiblePrefix(boxes: seq<RawBox>): (n: nat)
    ensures n <= |boxes|
    ensures AllConvertible(boxes[..n])
    ensures n < |boxes| ==> boxes[n].Unconvertible?
  {
    if boxes == [] || boxes[0].Unconvertible? then 0
    else
      var n := ConvertiblePrefix(boxes[1..]);
      n + 1
  }

  /**
   * The records are one per box, in order, for exactly the boxes before the
   * first one whose conversion raises.
   */
  lemma {:induction false} ConvertedIsPrefix(boxes: seq<RawBox>, engine: Engine, rescale: Option<real>)
    ensures |Converted(boxes, engine, rescale)| == ConvertiblePrefix(boxes)
    ensures forall k :: 0 <= k < ConvertiblePrefix(boxes) ==>
      Converted(boxes, engine, rescale)[k] == MakeRecord(Adjust(engine, rescale, boxes[k].corners), boxes[k].confidence)
  {
    if boxes != [] && boxes[0].Box? {
      ConvertedIsPrefix(boxes[1..], engine, rescale);
      var r := Converted(boxes, engine, rescale);
      forall k | 0 < k < ConvertiblePrefix(boxes)
        ensures r[k] == MakeRecord(Adjust(engine, rescale, boxes[k].corners), boxes[k].confidence)
      {
        assert r[k] == Converted(boxes[1..], engine, rescale)[k - 1];
        assert boxes[k] == boxes[1..][k - 1];
      }
    }
  }

  /** When every box converts, there is exactly one record per box, in order. */
  lemma OneRecordPerBox(results: seq<seq<RawBox>>, engine: Engine, rescale: Option<real>)
    requires AllConvertible(Flatten(results))
    ensures var boxes := Flatten(results);
      && |Collected(Results(results), engine, rescale)| == |boxes|
      && forall k :: 0 <= k < |boxes| ==>
           Collected(Results(results), engine, rescale)[k] == MakeRecord(Adjust(engine, rescale, boxes[k].corners), boxes[k].confidence)
  {
    var boxes := Flatten(results);
    ConvertedIsPrefix(boxes, engine, rescale);
  }

  /**
   * An image no wider than `maxWidth` is not resized and its boxes are not
   * rescaled: the optimized path gives what the plain path gives.
   */
  lemma NarrowImagePassesThrough(weights: string, image: Frame, conf: real, maxWidth: int, engine: Engine)
    requires image.width <= maxWidth
    ensures OptimizedRecords(weights, image, conf, maxWidth, engine) == PlainRecords(weights, image, conf, engine)
  {
  }

  /**
   * A wider image is inferred on its resized copy and every box is scaled
   * back by `1 / scale` with `scale < 1.0`; a zero `maxWidth` makes that
   * division fail, so no record is returned.
   */
  lemma WideImageRescaled(weights: string, image: Frame, conf: real, maxWidth: int, engine: Engine)
    requires image.width > maxWidth && image.width > 0
    ensures var scale := maxWidth as real / image.width as real;
      && scale < 1.0
      && (maxWidth == 0 ==> OptimizedRecords(weights, image, conf, maxWidth, engine) == [])
      && (maxWidth != 0 ==>
            OptimizedRecords(weights, image, conf, maxWidth, engine) ==
              match engine.resize(image, maxWidth)
              case None => []
              case Some(small) => Collected(engine.infer(weights, small, conf), engine, Some(scale)))
  {
    RescaledIffWider(image.width, maxWidth);
  }

  lemma {:induction false} FlattenSnoc(rs: seq<seq<RawBox>>, i: nat)
    requires i < |rs|
    ensures Flatten(rs[..i + 1]) == Flatten(rs[..i]) + rs[i]
  {
    if i == 0 {
      assert rs[..1] == [rs[0]];
      assert Flatten(rs[..1]) == rs[0] + Flatten([]);
    } else {
      assert rs[..i + 1][1..] == rs[1..][..i];
      assert rs[..i][1..] == rs[1..][..i - 1];
      FlattenSnoc(rs[1..], i - 1);
    }
  }

  /** Records of `a + b`: those of `a`, then, if nothing in `a` raised, those of `b`. */
  lemma {:induction false} ConvertedAppend(a: seq<RawBox>, b: seq<RawBox>, engine: Engine, rescale: Option<real>)
    ensures Converted(a + b, engine, rescale) ==
      if AllConvertible(a) then Converted(a, engine, rescale) + Converted(b, engine, rescale)
      else Converted(a, engine, rescale)
  {
    if a == [] {
      assert a + b == b;
    } else {
      assert (a + b)[0] == a[0];
      assert (a + b)[1..] == a[1..] + b;
      ConvertedAppend(a[1..], b, engine, rescale);
      AllConvertibleCons(a);
    }
  }

  /** A non-empty list of boxes converts throughout when its head and its tail do. */
  lemma AllConvertibleCons(a: seq<RawBox>)
    requires a != []
    ensures AllConvertible(a) <==> a[0].Box? && AllConvertible(a[1..])
  {
    if a[0].Box? && AllConvertible(a[1..]) {
      forall i | 0 < i < |a| ensures a[i].Box? {
        assert a[i] == a[1..][i - 1];
      }
    }
  }

  /**
   * The nested loops of `detect_faces`: one record per box in result-then-box
   * order; the first box whose conversion raises ends both loops, and the
   * records appended so far are what is returned. An engine that raises gives
   * no records at all.
   */
  method CollectRecords(inference: Inference, engine: Engine, rescale: Option<real>) returns (detections: seq<Record>)
    ensures detections == Collected(inference, engine, rescale)
  {
    detections := [];
    if inference.Raised? {
      return;
    }
    var results := inference.results;
    var i := 0;
    while i < |results|
      invariant 0 <= i <= |results|
      invariant AllConvertible(Flatten(results[..i]))
      invariant detections == Converted(Flatten(results[..i]), engine, rescale)
    {
      var boxes := results[i];
      var j := 0;
      assert Flatten(results[..i]) + boxes[..0] == Flatten(results[..i]);
      while j < |boxes|
        invariant 0 <= j <= |boxes|
        invariant AllConvertible(Flatten(results[..i]) + boxes[..j])
        invariant detections == Converted(Flatten(results[..i]) + boxes[..j], engine, rescale)
      {
        match boxes[j]
        case Unconvertible =>
          StopsAtUnconvertible(results, i, j, engine, rescale);
          return;
        case Box(c, conf) =>
          ExtendsByBox(Flatten(results[..i]), boxes, j, engine, rescale);
          detections := detections + [MakeRecord(Adjust(engine, rescale, c), conf)];
        j := j + 1;
      }
      assert boxes[..j] == boxes;
      FlattenSnoc(results, i);
      i := i + 1;
    }
    assert results[..i] == results;
  }

  /** One more convertible box adds its record at the end. */
  lemma ExtendsByBox(done: seq<RawBox>, boxes: seq<RawBox>, j: nat, engine: Engine, rescale: Option<real>)
    requires j < |boxes| && boxes[j].Box? && AllConvertible(done + boxes[..j])
    ensures AllConvertible(done + boxes[..j + 1])
    ensures Converted(done + boxes[..j + 1], engine, rescale) ==
      Converted(done + boxes[..j], engine, rescale) + [MakeRecord(Adjust(engine, rescale, boxes[j].corners), boxes[j].confidence)]
  {
    assert done + boxes[..j + 1] == (done + boxes[..j]) + [boxes[j]];
    ConvertedAppend(done + boxes[..j], [boxes[j]], engine, rescale);
  }

  /** A box whose conversion raises ends the collection: nothing after it counts. */
  lemma StopsAtUnconvertible(rs: seq<seq<RawBox>>, i: nat, j: nat, engine: Engine, rescale: Option<real>)
    requires i < |rs| && j < |rs[i]| && rs[i][j].Unconvertible?
    requires AllConvertible(Flatten(rs[..i]) + rs[i][..j])
    ensures Converted(Flatten(rs), engine, rescale) == Converted(Flatten(rs[..i]) + rs[i][..j], engine, rescale)
  {
    var done := Flatten(rs[..i]) + rs[i][..j];
    var rest := rs[i][j + 1..] + Flatten(rs[i + 1..]);
    ResultsSplit(rs, i, j);
    assert Flatten(rs) == (done + [rs[i][j]]) + rest;
    ConvertedAppend(done + [rs[i][j]], rest, engine, rescale);
    assert !AllConvertible(done + [rs[i][j]]) by {
      assert (done + [rs[i][j]])[|done|] == rs[i][j];
    }
    ConvertedAppend(done, [rs[i][j]], engine, rescale);
    assert Converted([rs[i][j]], engine, rescale) == [];
  }

  /** `Flatten(rs)` cut at box `j` of result `i`. */
  lemma ResultsSplit(rs: seq<seq<RawBox>>, i: nat, j: nat)
    requires i < |rs| && j < |rs[i]|
    ensures Flatten(rs) == Flatten(rs[..i]) + rs[i][..j] + [rs[i][j]] + (rs[i][j + 1..] + Flatten(rs[i + 1..]))
  {
    FlattenSplit(rs, i);
    assert rs[i] == rs[i][..j] + [rs[i][j]] + rs[i][j + 1..];
  }

  lemma {:induction false} FlattenSplit(rs: seq<seq<RawBox>>, i: nat)
    requires i < |rs|
    ensures Flatten(rs) == Flatten(rs[..i]) + rs[i] + Flatten(rs[i + 1..])
  {
    if i == 0 {
      assert rs[..0] == [];
      assert rs[1..] == rs[i + 1..];
    } else {
      FlattenSplit(rs[1..], i - 1);
      assert rs[1..][..i - 1] == rs[..i][1..];
      assert rs[1..][i - 1] == rs[i];
      assert rs[1..][i..] == rs[i + 1..];
    }
  }

  /**
   * A YOLO detector bound to one weights file.
   * Loading is the caller's concern; a constructed detector always exists.
   */
  class FaceDetector {
    const weights: string

    constructor (weights: string)
      ensures this.weights == weights
    {
      this.weights := weights;
    }

    /** `detect_faces(image, conf_threshold)`. */
    method DetectFaces(image: Frame, conf: real, engine: Engine) returns (detections: seq<Record>)
      ensures detections == PlainRecords(weights, image, conf, engine)
    {
      var inference := engine.infer(weights, image, conf);
      detections := CollectRecords(inference, engine, None);
    }

    /** `detect_faces_optimized(image, conf_threshold, max_width)`. */
    method DetectFacesOptimized(image: Frame, conf: real, maxWidth: int, engine: Engine) returns (detections: seq<Record>)
      ensures detections == OptimizedRecords(weights, image, conf, maxWidth, engine)
    {
      detections := [];
      var scale: real;
      var inferenceImage: Frame;
      if image.width > maxWidth {
        if image.width == 0 {
          return;
        }
        scale := maxWidth as real / image.width as real;
        var resized := engine.resize(image, maxWidth);
        if resized.None? {
          return;
        }
        inferenceImage := resized.value;
      } else {
        scale := 1.0;
        inferenceImage := image;
      }
      var inference := engine.infer(weights, inferenceImage, conf);
      if scale == 0.0 {
        // Scaling the first box back divides by zero and the handler returns no records.
        return;
      }
      detections := CollectRecords(inference, engine, if scale < 1.0 then Some(scale) else None);
    }
  }
}
